/** `POST /forecast` (forecast/app/routers/forecast.py) over the model registry, with its result
    cache (forecast/app/services/cache.py): lookup, cache read, load, compute, cache write. */
module Forecast {
  import opened Prelude
  import opened Text
  import opened RegistryNames
  import opened Registry
  import opened Lookup

  /** A validated request; the workspace is a UUID, so its text has no colon. */
  datatype Request = Request(place: Place, kind: Option<Kind>, horizon: nat)

  predicate Valid(req: Request) {
    1 <= req.horizon <= 365 && ':' !in req.place.workspace
  }

  datatype Response = Response(place: Place, kind: string, fittedAt: string, mape: Option<real>, points: string)

  /** 200, 503, and the two ways to get a 500. */
  datatype Outcome = Forecasted(response: Response) | NoModel | LoadFailed | UnknownKind

  function CacheKey(place: Place, horizon: nat, kind: string, fittedAt: string): string {
    "forecast:" + place.workspace + ":" + place.metric + ":" + kind + ":" + Decimal(horizon) + ":" + fittedAt
  }

  function Serialise(ref: Ref, points: string): Response {
    Response(ref.meta.place, ref.meta.kind, ref.meta.fittedAt, ref.meta.mape, points)
  }

  /** Loading the artifact and running its model. */
  function Compute(tools: Tools, files: Files, ref: Ref, horizon: nat): Outcome {
    match Load(tools, files, ref)
    case Raised => LoadFailed
    case Ok(model) =>
      if ref.meta.kind == "prophet" then Forecasted(Serialise(ref, tools.prophet(model, horizon)))
      else if ref.meta.kind == "arima" then Forecasted(Serialise(ref, tools.arima(model, horizon)))
      else UnknownKind
  }

  /** The endpoint without a cache, in one moment; `ref` is what `latest` returned. */
  function Direct(tools: Tools, files: Files, ref: Option<Ref>, horizon: nat): Outcome {
    match ref case None => NoModel case Some(r) => Compute(tools, files, r, horizon)
  }

  /** MAIN: the endpoint without a cache, for any disk: 503 where no manifest was found; 500 where the
      artifact is gone, has another hash than its manifest says or cannot be read, or where the
      kind is unknown; and otherwise the fields of the manifest around what the artifact's model
      forecasts, run by the library its kind names. */
  lemma DirectOutcome(tools: Tools, files: Files, ref: Option<Ref>, horizon: nat)
    ensures Direct(tools, files, ref, horizon) == NoModel <==> ref == None
    ensures ref.Some? ==>
              var outcome, meta := Direct(tools, files, ref, horizon), ref.value.meta;
              var bytes := if ref.value.artifact in files then BytesOf(files[ref.value.artifact]) else "";
              var loads := ref.value.artifact in files && tools.sha(bytes) == meta.sha && tools.undump(bytes) != None;
              && (outcome == LoadFailed <==> !loads)
              && (outcome == UnknownKind <==> loads && meta.kind != "prophet" && meta.kind != "arima")
              && (outcome.Forecasted? <==> loads && (meta.kind == "prophet" || meta.kind == "arima"))
              && (outcome.Forecasted? ==>
                    var r, model := outcome.response, tools.undump(bytes).value;
                    && r.place == meta.place && r.kind == meta.kind && r.fittedAt == meta.fittedAt
                    && r.mape == meta.mape
                    && (meta.kind == "prophet" ==> r.points == tools.prophet(model, horizon))
                    && (meta.kind == "arima" ==> r.points == tools.arima(model, horizon)))
  {
  }

  // ---------------------------------------------------------------- cache keys

  lemma ColonFree(n: nat, kind: Kind)
    ensures ':' !in Decimal(n) && ':' !in KindName(kind)
  {
  }

  /** A long timestamp (with a fraction) never ends like a short one, so the end of a key fixes
      its timestamp although timestamps contain colons. */
  lemma {:induction false} TimestampEnds(a: string, t: Clock, b: string, u: Clock)
    requires a + IsoFormat(t) == b + IsoFormat(u)
    ensures a == b && t == u
  {
    hide IsoFormat;
    EndTells(a, t);
    EndTells(b, u);
    IsoShape(t);
    IsoShape(u);
    SplitSuffix(a, IsoFormat(t), b, IsoFormat(u));
    IsoFormatInjective(t, u);
  }

  lemma {:induction false} EndTells(a: string, t: Clock)
    ensures var s := a + IsoFormat(t); |s| >= 25 && (s[|s| - 25] == '-' <==> t.micro != 0)
  {
    hide IsoFormat;
    IsoShape(t);
    var s := a + IsoFormat(t);
    assert s[|s| - 25] == IsoFormat(t)[|IsoFormat(t)| - 25];
  }

  lemma {:induction false} IsoShape(t: Clock)
    ensures |IsoFormat(t)| == (if t.micro == 0 then 25 else 32)
    ensures IsoFormat(t)[0] != '-' && IsoFormat(t)[7] == '-'
  {
    hide Digits;
    var year, month := Digits(t.year, 4), Digits(t.month, 2);
    assert year[0] in year;
    assert IsoFormat(t)[4..] == "-" + (month + ("-" + (Digits(t.day, 2) + ("T" + IsoTime(t,
           (if t.micro == 0 then "" else "." + Digits(t.micro, 6)) + "+00:00")))));
  }

  /** MAIN: a cache key determines the workspace, the metric (any text, colons included), the
      horizon, the kind and the timestamp of the model. */
  lemma {:induction false} CacheKeyInjective(p: Place, h: nat, k: Kind, t: Clock, q: Place, i: nat, l: Kind, u: Clock)
    requires ':' !in p.workspace && ':' !in q.workspace
    requires CacheKey(p, h, KindName(k), IsoFormat(t)) == CacheKey(q, i, KindName(l), IsoFormat(u))
    ensures p == q && h == i && k == l && t == u
  {
    hide Decimal, KindName, IsoFormat;
    var head, other := "forecast:" + p.workspace + ":" + p.metric, "forecast:" + q.workspace + ":" + q.metric;
    ColonFree(h, k);
    ColonFree(i, l);
    TimestampEnds(head + ":" + KindName(k) + ":" + Decimal(h) + ":", t,
                  other + ":" + KindName(l) + ":" + Decimal(i) + ":", u);
    SplitSuffix(head + ":" + KindName(k) + ":" + Decimal(h), ":", other + ":" + KindName(l) + ":" + Decimal(i), ":");
    SplitLast(head + ":" + KindName(k), Decimal(h), other + ":" + KindName(l), Decimal(i), ':');
    SplitLast(head, KindName(k), other, KindName(l), ':');
    DecimalInjective(h, i);
    KindNamesDiffer(k);
    var name, otherName := p.workspace + ":" + p.metric, q.workspace + ":" + q.metric;
    assert head == "forecast:" + name && other == "forecast:" + otherName;
    AfterPrefix("forecast:", name, otherName, head, other);
    SplitFirst(p.workspace, p.metric, q.workspace, q.metric, ':');
  }

  // ---------------------------------------------------------------- interleaved requests

  /** A request between the points where other threads and requests may come in: while `latest`
      tries one manifest after the other, after it has found one, and after computing a response
      to store. `start` and `done` record the saves that were complete when the directory was
      listed and when the manifest was found, `direct` the answer of a cacheless endpoint then. */
  datatype Pending =
    | Looking(req: Request, left: seq<Path>, start: seq<Save>)
    | Looked(req: Request, ref: Ref, start: seq<Save>, done: seq<Save>, direct: Outcome)
    | Computed(req: Request, ref: Ref, start: seq<Save>, done: seq<Save>, direct: Outcome, response: Response)

  datatype Answer = Answer(req: Request, start: seq<Save>, done: seq<Save>, direct: Outcome, outcome: Outcome)

  datatype World = World(disk: State, cache: map<string, Response>, pending: map<nat, Pending>, answers: seq<Answer>)

  const START := World(INIT, map[], map[], [])

  /** `Ask` lists the directory, `Look` tries one manifest; `Drop` is a request that dies on the
      way; `Evict` is expiry or eviction of a cache entry. */
  datatype Move =
    | Disk(step: Step)
    | Ask(id: nat, req: Request, listing: seq<Path>)
    | Look(id: nat)
    | Read(id: nat)
    | Store(id: nat)
    | Drop(id: nat)
    | Evict(key: string)

  ghost predicate Possible(w: World, move: Move) {
    match move
    case Disk(step) => Enabled(w.disk, step)
    case Ask(id, req, listing) => id !in w.pending && Valid(req) && Listing(w.disk.files, req.place, listing)
    case Look(id) => id in w.pending && w.pending[id].Looking?
    case Read(id) => id in w.pending && w.pending[id].Looked?
    case Store(id) => id in w.pending && w.pending[id].Computed?
    case Drop(id) => id in w.pending
    case Evict(_) => true
  }

  function KeyFor(req: Request, ref: Ref): string {
    CacheKey(req.place, req.horizon, ref.meta.kind, ref.meta.fittedAt)
  }

  function AskNext(w: World, id: nat, req: Request, listing: seq<Path>): World {
    w.(pending := w.pending[id := Looking(req, listing, w.disk.done)])
  }

  function LookNext(tools: Tools, w: World, id: nat, p: Pending): World
    requires p.Looking?
  {
    var files, req := w.disk.files, p.req;
    if p.left == [] then
      w.(pending := w.pending - {id}, answers := w.answers + [Answer(req, p.start, w.disk.done, NoModel, NoModel)])
    else if !Usable(files, req.place, req.kind, p.left[0]) then
      w.(pending := w.pending[id := Looking(req, p.left[1..], p.start)])
    else
      var ref := RefOf(files, req.place, req.kind, p.left[0]);
      w.(pending := w.pending[id := Looked(req, ref, p.start, w.disk.done, Compute(tools, files, ref, req.horizon))])
  }

  function ReadNext(tools: Tools, w: World, id: nat, p: Pending): World
    requires p.Looked?
  {
    var key := KeyFor(p.req, p.ref);
    if key in w.cache then
      w.(pending := w.pending - {id},
         answers := w.answers + [Answer(p.req, p.start, p.done, p.direct, Forecasted(w.cache[key]))])
    else
      match Compute(tools, w.disk.files, p.ref, p.req.horizon)
      case Forecasted(response) =>
        w.(pending := w.pending[id := Computed(p.req, p.ref, p.start, p.done, p.direct, response)])
      case failure =>
        w.(pending := w.pending - {id}, answers := w.answers + [Answer(p.req, p.start, p.done, p.direct, failure)])
  }

  function StoreNext(w: World, id: nat, p: Pending): World
    requires p.Computed?
  {
    w.(cache := w.cache[KeyFor(p.req, p.ref) := p.response], pending := w.pending - {id},
       answers := w.answers + [Answer(p.req, p.start, p.done, p.direct, Forecasted(p.response))])
  }

  ghost function After(tools: Tools, w: World, move: Move): World
    requires Possible(w, move)
  {
    match move
    case Disk(step) => w.(disk := Next(tools, w.disk, step))
    case Ask(id, req, listing) => AskNext(w, id, req, listing)
    case Look(id) => LookNext(tools, w, id, w.pending[id])
    case Read(id) => ReadNext(tools, w, id, w.pending[id])
    case Store(id) => StoreNext(w, id, w.pending[id])
    case Drop(id) => w.(pending := w.pending - {id})
    case Evict(key) => w.(cache := w.cache - {key})
  }

  predicate FreshMove(w: World, move: Move) {
    move.Disk? ==> Fresh(w.disk, move.step)
  }

  // ---------------------------------------------------------------- what every answer is

  /** The response for a complete save, whatever the cache holds. */
  function Respond(tools: Tools, save: Save, horizon: nat): Response {
    Response(save.slot.place, KindName(save.slot.kind), IsoFormat(save.slot.at), save.mape,
             match save.slot.kind
             case Prophet => tools.prophet(save.model, horizon)
             case Arima => tools.arima(save.model, horizon))
  }

  /** The one right outcome: the forecast of the newest complete save, or 503 if there is none. */
  predicate Right(tools: Tools, req: Request, done: seq<Save>, outcome: Outcome) {
    match outcome
    case NoModel => IsNewest(done, req.place, req.kind, None)
    case Forecasted(r) => exists k :: 0 <= k < |done| && IsNewest(done, req.place, req.kind, Some(done[k]))
                                      && r == Respond(tools, done[k], req.horizon)
    case _ => false
  }

  /** The right outcomes of a lookup that listed the directory when `start` was complete and found
      its manifest when `done` was: the forecast of a save complete at the end to which none that
      was complete at the start is preferred, or 503 if there was none at the start. */
  predicate Between(tools: Tools, req: Request, start: seq<Save>, done: seq<Save>, outcome: Outcome) {
    match outcome
    case NoModel => IsNewest(start, req.place, req.kind, None)
    case Forecasted(r) => exists k :: 0 <= k < |done| && Fits(done[k], req.place, req.kind)
                                      && NoneBetter(start, req.place, req.kind, done[k].slot)
                                      && r == Respond(tools, done[k], req.horizon)
    case _ => false
  }

  /** If nothing completed in between, there is only one right outcome. */
  lemma {:induction false} QuietLookupIsRight(tools: Tools, st: State, req: Request, outcome: Outcome)
    requires Inv(tools, st) && Between(tools, req, st.done, st.done, outcome)
    ensures Right(tools, req, st.done, outcome)
  {
    hide Inv, IsNewest, Respond, Fits, NoneBetter;
    if outcome.Forecasted? {
      var k :| 0 <= k < |st.done| && Fits(st.done[k], req.place, req.kind)
               && NoneBetter(st.done, req.place, req.kind, st.done[k].slot)
               && outcome.response == Respond(tools, st.done[k], req.horizon);
      QuietLookupIsNewest(tools, st, req.place, req.kind, k);
    }
  }

  /** The lookup's answer to `req`: a reference and the forecast made with it. */
  predicate LookedUp(tools: Tools, req: Request, ref: Ref, start: seq<Save>, done: seq<Save>, direct: Outcome) {
    exists k :: 0 <= k < |done| && Fits(done[k], req.place, req.kind)
                && NoneBetter(start, req.place, req.kind, done[k].slot)
                && ref == RefTo(tools, done[k]) && direct == Forecasted(Respond(tools, done[k], req.horizon))
  }

  predicate PendingOk(tools: Tools, now: seq<Save>, p: Pending) {
    && Valid(p.req) && p.start <= now
    && match p
       case Looking(req, left, start) => DescendingPaths(left, req.place) && Covers(left, start, req.place, req.kind)
       case Looked(req, ref, start, done, direct) => done <= now && LookedUp(tools, req, ref, start, done, direct)
       case Computed(req, ref, start, done, direct, response) =>
         done <= now && LookedUp(tools, req, ref, start, done, direct) && Forecasted(response) == direct
  }

  predicate AnswerOk(tools: Tools, a: Answer) {
    a.outcome == a.direct && Between(tools, a.req, a.start, a.done, a.direct)
  }

  /** Whose response an entry holds. */
  ghost predicate EntryOk(tools: Tools, done: seq<Save>, key: string, response: Response) {
    exists k, h :: 0 <= k < |done| && ':' !in done[k].slot.place.workspace && key == KeyOf(done[k], h)
                   && response == Respond(tools, done[k], h)
  }

  function KeyOf(save: Save, horizon: nat): string {
    CacheKey(save.slot.place, horizon, KindName(save.slot.kind), IsoFormat(save.slot.at))
  }

  ghost predicate CacheOk(tools: Tools, done: seq<Save>, cache: map<string, Response>) {
    forall key :: key in cache ==> EntryOk(tools, done, key, cache[key])
  }

  predicate AllPendingOk(tools: Tools, done: seq<Save>, pending: map<nat, Pending>) {
    forall id :: id in pending ==> PendingOk(tools, done, pending[id])
  }

  predicate AllAnswersOk(tools: Tools, answers: seq<Answer>) {
    forall i :: 0 <= i < |answers| ==> AnswerOk(tools, answers[i])
  }

  ghost predicate WorldInv(tools: Tools, w: World) {
    && Inv(tools, w.disk) && CacheOk(tools, w.disk.done, w.cache)
    && AllPendingOk(tools, w.disk.done, w.pending) && AllAnswersOk(tools, w.answers)
  }

  /** Computing from a completed save gives its response, at the lookup or any time later. */
  lemma {:induction false} ComputeIsRespond(tools: Tools, st: State, k: nat, horizon: nat)
    requires Inv(tools, st) && RoundTrips(tools) && k < |st.done|
    ensures Compute(tools, st.files, RefTo(tools, st.done[k]), horizon) ==
            Forecasted(Respond(tools, st.done[k], horizon))
  {
    LoadsIffUntouched(tools, st, k, tools.dump(st.done[k].model));
    hide Inv, Load, ArtifactPath, ManifestPath, IsoFormat, RoundTrips;
    assert KindName(Prophet) == "prophet" && KindName(Arima) == "arima";
    KindNamesDiffer(st.done[k].slot.kind);
  }

  /** MAIN: without a cache, and with no save completing during the lookup, the endpoint answers for
      the newest complete save or says 503; the two 500 branches cannot be reached while artifacts
      are untouched. */
  lemma {:induction false} DirectIsRight(tools: Tools, st: State, req: Request, found: Option<Ref>)
    requires Inv(tools, st) && RoundTrips(tools) && Finds(st.files, req.place, req.kind, found)
    ensures Right(tools, req, st.done, Direct(tools, st.files, found, req.horizon))
  {
    FindsNewest(tools, st, req.place, req.kind, found);
    hide Inv, Finds, IsNewest, RefTo, Respond, Compute, RoundTrips, Right;
    match found
    case None => RightForNone(tools, req, st.done);
    case Some(ref) =>
      var k :| 0 <= k < |st.done| && IsNewest(st.done, req.place, req.kind, Some(st.done[k]))
               && ref == RefTo(tools, st.done[k]);
      ComputeIsRespond(tools, st, k, req.horizon);
      RightFor(tools, req, st.done, k);
  }

  lemma RightFor(tools: Tools, req: Request, done: seq<Save>, k: nat)
    requires k < |done| && IsNewest(done, req.place, req.kind, Some(done[k]))
    ensures Right(tools, req, done, Forecasted(Respond(tools, done[k], req.horizon)))
  {
    hide IsNewest, Respond;
  }

  lemma RightForNone(tools: Tools, req: Request, done: seq<Save>)
    requires IsNewest(done, req.place, req.kind, None)
    ensures Right(tools, req, done, NoModel)
  {
  }

  // ---------------------------------------------------------------- the invariant of every move

  lemma {:induction false} DoneGrows(tools: Tools, st: State, step: Step)
    requires Enabled(st, step)
    ensures st.done <= Next(tools, st, step).done
  {
    Bookkeeping(tools, st, step);
    hide Next;
  }

  lemma EntryGrows(tools: Tools, done: seq<Save>, later: seq<Save>, key: string, response: Response)
    requires EntryOk(tools, done, key, response) && done <= later
    ensures EntryOk(tools, later, key, response)
  {
    hide KeyOf, Respond;
    var k, h :| 0 <= k < |done| && ':' !in done[k].slot.place.workspace && key == KeyOf(done[k], h)
                && response == Respond(tools, done[k], h);
    assert later[k] == done[k];
  }

  /** Which save a pending request is about. */
  lemma {:induction false} PendingSave(tools: Tools, now: seq<Save>, p: Pending) returns (k: nat)
    requires PendingOk(tools, now, p) && !p.Looking?
    ensures k < |now| && p.ref == RefTo(tools, now[k]) && now[k].slot.place == p.req.place
    ensures p.direct == Forecasted(Respond(tools, now[k], p.req.horizon))
    ensures KeyFor(p.req, p.ref) == KeyOf(now[k], p.req.horizon)
  {
    hide NoneBetter, Respond, CacheKey;
    k :| 0 <= k < |p.done| && Fits(p.done[k], p.req.place, p.req.kind)
         && p.ref == RefTo(tools, p.done[k]) && p.direct == Forecasted(Respond(tools, p.done[k], p.req.horizon));
    assert now[k] == p.done[k];
  }

  lemma {:induction false} KeyOfInjective(a: Save, h: nat, b: Save, i: nat)
    requires ':' !in a.slot.place.workspace && ':' !in b.slot.place.workspace && KeyOf(a, h) == KeyOf(b, i)
    ensures a.slot == b.slot && h == i
  {
    hide CacheKey;
    CacheKeyInjective(a.slot.place, h, a.slot.kind, a.slot.at, b.slot.place, i, b.slot.kind, b.slot.at);
  }

  /** A cache hit returns the response of the very save the lookup found. */
  lemma {:induction false} HitIsRight(tools: Tools, st: State, key: string, response: Response, k: nat, horizon: nat)
    requires Inv(tools, st) && EntryOk(tools, st.done, key, response)
    requires k < |st.done| && ':' !in st.done[k].slot.place.workspace && key == KeyOf(st.done[k], horizon)
    ensures response == Respond(tools, st.done[k], horizon)
  {
    SameSlotSameSave(tools, st);
    hide Inv, Respond, KeyOf;
    var l, h :| 0 <= l < |st.done| && ':' !in st.done[l].slot.place.workspace && key == KeyOf(st.done[l], h)
                && response == Respond(tools, st.done[l], h);
    KeyOfInjective(st.done[k], horizon, st.done[l], h);
  }

  lemma PendingValid(tools: Tools, now: seq<Save>, p: Pending)
    requires PendingOk(tools, now, p) && !p.Looking?
    ensures Valid(p.req) && Between(tools, p.req, p.start, p.done, p.direct)
  {
    hide NoneBetter, Respond, Fits, RefTo;
  }

  lemma PendingGrows(tools: Tools, done: seq<Save>, later: seq<Save>, pending: map<nat, Pending>)
    requires AllPendingOk(tools, done, pending) && done <= later
    ensures AllPendingOk(tools, later, pending)
  {
    hide LookedUp, Valid, DescendingPaths, Covers;
  }

  lemma {:induction false} CacheGrows(tools: Tools, done: seq<Save>, later: seq<Save>, cache: map<string, Response>)
    requires CacheOk(tools, done, cache) && done <= later
    ensures CacheOk(tools, later, cache)
  {
    hide EntryOk;
    forall key | key in cache
      ensures EntryOk(tools, later, key, cache[key])
    {
      EntryGrows(tools, done, later, key, cache[key]);
    }
  }

  lemma {:induction false} DiskInv(tools: Tools, w: World, step: Step)
    requires WorldInv(tools, w) && Enabled(w.disk, step) && Fresh(w.disk, step)
    ensures WorldInv(tools, w.(disk := Next(tools, w.disk, step)))
  {
    StepInv(tools, w.disk, step);
    DoneGrows(tools, w.disk, step);
    hide Inv, Next, CacheOk, AllPendingOk, AllAnswersOk;
    var later := Next(tools, w.disk, step).done;
    CacheGrows(tools, w.disk.done, later, w.cache);
    PendingGrows(tools, w.disk.done, later, w.pending);
  }

  lemma PendingPut(tools: Tools, done: seq<Save>, pending: map<nat, Pending>, id: nat, p: Pending)
    requires AllPendingOk(tools, done, pending) && PendingOk(tools, done, p)
    ensures AllPendingOk(tools, done, pending[id := p])
  {
    hide PendingOk;
  }

  lemma PendingDrop(tools: Tools, done: seq<Save>, pending: map<nat, Pending>, id: nat)
    requires AllPendingOk(tools, done, pending)
    ensures AllPendingOk(tools, done, pending - {id})
  {
    hide PendingOk;
  }

  lemma AnswerPut(tools: Tools, answers: seq<Answer>, a: Answer)
    requires AllAnswersOk(tools, answers) && AnswerOk(tools, a)
    ensures AllAnswersOk(tools, answers + [a])
  {
    hide AnswerOk;
  }

  lemma EntryPut(tools: Tools, done: seq<Save>, cache: map<string, Response>, key: string, response: Response)
    requires CacheOk(tools, done, cache) && EntryOk(tools, done, key, response)
    ensures CacheOk(tools, done, cache[key := response])
  {
    hide EntryOk;
  }

  lemma EntryDrop(tools: Tools, done: seq<Save>, cache: map<string, Response>, key: string)
    requires CacheOk(tools, done, cache)
    ensures CacheOk(tools, done, cache - {key})
  {
    hide EntryOk;
  }

  lemma {:induction false} AskInv(tools: Tools, w: World, id: nat, req: Request, listing: seq<Path>)
    requires WorldInv(tools, w) && Valid(req) && Listing(w.disk.files, req.place, listing)
    ensures WorldInv(tools, AskNext(w, id, req, listing))
  {
    ListingCovers(tools, w.disk, req.place, req.kind, listing);
    hide Inv, CacheOk, AllPendingOk, AllAnswersOk, Valid, DescendingPaths, Covers;
    PendingPut(tools, w.disk.done, w.pending, id, Looking(req, listing, w.disk.done));
  }

  lemma {:induction false} LookInv(tools: Tools, w: World, id: nat, p: Pending)
    requires WorldInv(tools, w) && RoundTrips(tools) && p.Looking? && PendingOk(tools, w.disk.done, p)
    ensures WorldInv(tools, LookNext(tools, w, id, p))
  {
    hide Inv, CacheOk, AllPendingOk, AllAnswersOk, Valid, DescendingPaths, Covers, Usable, RefOf, Compute, Respond,
        NoneBetter;
    var done, req := w.disk.done, p.req;
    if p.left == [] {
      NothingToTry(p.start, req.place, req.kind);
      PendingDrop(tools, done, w.pending, id);
      AnswerPut(tools, w.answers, Answer(req, p.start, done, NoModel, NoModel));
    } else if !Usable(w.disk.files, req.place, req.kind, p.left[0]) {
      SkippedIsNotDone(tools, w.disk, p.start, req.place, req.kind, p.left);
      PendingPut(tools, done, w.pending, id, Looking(req, p.left[1..], p.start));
    } else {
      var k := UsableIsNoOlder(tools, w.disk, p.start, req.place, req.kind, p.left);
      ComputeIsRespond(tools, w.disk, k, req.horizon);
      var ref := RefOf(w.disk.files, req.place, req.kind, p.left[0]);
      var direct := Compute(tools, w.disk.files, ref, req.horizon);
      FoundIsLookedUp(tools, req, p.start, done, k);
      PendingPut(tools, done, w.pending, id, Looked(req, ref, p.start, done, direct));
    }
  }

  lemma FoundIsLookedUp(tools: Tools, req: Request, start: seq<Save>, done: seq<Save>, k: nat)
    requires k < |done| && Fits(done[k], req.place, req.kind) && NoneBetter(start, req.place, req.kind, done[k].slot)
    ensures LookedUp(tools, req, RefTo(tools, done[k]), start, done, Forecasted(Respond(tools, done[k], req.horizon)))
  {
    hide RefTo, Respond, Fits, NoneBetter;
  }

  lemma {:induction false} ReadInv(tools: Tools, w: World, id: nat, p: Pending)
    requires WorldInv(tools, w) && RoundTrips(tools) && p.Looked? && PendingOk(tools, w.disk.done, p)
    ensures WorldInv(tools, ReadNext(tools, w, id, p))
  {
    hide Inv, AllPendingOk, AllAnswersOk, Between, LookedUp, Compute, KeyFor, Respond, RefTo, KeyOf, EntryOk;
    hide RoundTrips, Covers, DescendingPaths, Fits, NoneBetter;
    var done, key := w.disk.done, KeyFor(p.req, p.ref);
    PendingValid(tools, done, p);
    var k := PendingSave(tools, done, p);
    ComputeIsRespond(tools, w.disk, k, p.req.horizon);
    if key in w.cache {
      HitIsRight(tools, w.disk, key, w.cache[key], k, p.req.horizon);
      PendingDrop(tools, done, w.pending, id);
      AnswerPut(tools, w.answers, Answer(p.req, p.start, p.done, p.direct, Forecasted(w.cache[key])));
    } else {
      PendingPut(tools, done, w.pending, id, Computed(p.req, p.ref, p.start, p.done, p.direct, p.direct.response));
    }
  }

  lemma {:induction false} StoreInv(tools: Tools, w: World, id: nat, p: Pending)
    requires WorldInv(tools, w) && p.Computed? && PendingOk(tools, w.disk.done, p)
    ensures WorldInv(tools, StoreNext(w, id, p))
  {
    var done := w.disk.done;
    PendingValid(tools, done, p);
    var k := PendingSave(tools, done, p);
    EntryOfSave(tools, done, k, p.req.horizon);
    hide Inv, AllPendingOk, AllAnswersOk, CacheOk, Between, LookedUp, KeyFor, Respond, RefTo, KeyOf, EntryOk;
    EntryPut(tools, done, w.cache, KeyFor(p.req, p.ref), p.response);
    PendingDrop(tools, done, w.pending, id);
    AnswerPut(tools, w.answers, Answer(p.req, p.start, p.done, p.direct, Forecasted(p.response)));
  }

  lemma EntryOfSave(tools: Tools, done: seq<Save>, k: nat, horizon: nat)
    requires k < |done| && ':' !in done[k].slot.place.workspace
    ensures EntryOk(tools, done, KeyOf(done[k], horizon), Respond(tools, done[k], horizon))
  {
    hide KeyOf, Respond;
  }

  lemma {:induction false} MoveInv(tools: Tools, w: World, move: Move)
    requires WorldInv(tools, w) && RoundTrips(tools) && Possible(w, move) && FreshMove(w, move)
    ensures WorldInv(tools, After(tools, w, move))
  {
    hide Inv, AskNext, LookNext, ReadNext, StoreNext, CacheOk, PendingOk, AllAnswersOk, Next, Listing, RoundTrips;
    match move
    case Disk(step) => DiskInv(tools, w, step);
    case Ask(id, req, listing) => AskInv(tools, w, id, req, listing);
    case Look(id) => LookInv(tools, w, id, w.pending[id]);
    case Read(id) => ReadInv(tools, w, id, w.pending[id]);
    case Store(id) => StoreInv(tools, w, id, w.pending[id]);
    case Drop(id) => PendingDrop(tools, w.disk.done, w.pending, id);
    case Evict(key) => EntryDrop(tools, w.disk.done, w.cache, key);
  }

  // ---------------------------------------------------------------- over whole runs

  ghost predicate Playable(tools: Tools, w: World, moves: seq<Move>)
    decreases |moves|
  {
    moves == [] || (Possible(w, moves[0]) && FreshMove(w, moves[0])
                    && Playable(tools, After(tools, w, moves[0]), moves[1..]))
  }

  ghost function Play(tools: Tools, w: World, moves: seq<Move>): World
    requires Playable(tools, w, moves)
    decreases |moves|
  {
    if moves == [] then w else Play(tools, After(tools, w, moves[0]), moves[1..])
  }

  lemma {:induction false} PlayInv(tools: Tools, w: World, moves: seq<Move>)
    requires WorldInv(tools, w) && RoundTrips(tools) && Playable(tools, w, moves)
    ensures WorldInv(tools, Play(tools, w, moves))
    decreases |moves|
  {
    hide WorldInv, After, Possible, RoundTrips;
    if moves != [] {
      MoveInv(tools, w, moves[0]);
      PlayInv(tools, After(tools, w, moves[0]), moves[1..]);
    }
  }

  /** MAIN: over every interleaving of retrains, crashes, lookups, cache failures and evictions,
      every answer is the one a cacheless endpoint would have given for the same lookup: the
      forecast of a model complete by its end, and none that was complete when the lookup began is
      preferred to it. So neither the cache nor the lookup ever hides a finished retrain. */
  lemma {:induction false} CacheIsUnobservable(tools: Tools, moves: seq<Move>, i: nat)
    requires RoundTrips(tools) && Playable(tools, START, moves) && i < |Play(tools, START, moves).answers|
    ensures var a := Play(tools, START, moves).answers[i];
            a.outcome == a.direct && Between(tools, a.req, a.start, a.done, a.outcome)
  {
    hide Between, Play, Playable;
    PlayInv(tools, START, moves);
  }

  // ---------------------------------------------------------------- the endpoint as code

  class ForecastCache {
    var entries: map<string, Response>

    constructor ()
      ensures entries == map[]
    {
      entries := map[];
    }

    method Get(place: Place, horizon: nat, kind: string, fittedAt: string) returns (cached: Option<Response>)
      ensures var key := CacheKey(place, horizon, kind, fittedAt);
              cached == if key in entries then Some(entries[key]) else None
    {
      hide CacheKey;
      var key := CacheKey(place, horizon, kind, fittedAt);
      if key !in entries {
        return None;
      }
      return Some(entries[key]);
    }

    method Set(place: Place, horizon: nat, kind: string, fittedAt: string, payload: Response)
      modifies this
      ensures entries == old(entries)[CacheKey(place, horizon, kind, fittedAt) := payload]
    {
      hide CacheKey;
      entries := entries[CacheKey(place, horizon, kind, fittedAt) := payload];
    }
  }

  /** What the endpoint answers when nothing comes in between, and what it leaves in the cache. */
  function CachedOutcome(tools: Tools, files: Files, cache: map<string, Response>, req: Request,
                         ref: Option<Ref>): Outcome {
    if ref.Some? && KeyFor(req, ref.value) in cache then Forecasted(cache[KeyFor(req, ref.value)])
    else Direct(tools, files, ref, req.horizon)
  }

  function CacheAfter(tools: Tools, files: Files, cache: map<string, Response>, req: Request,
                      ref: Option<Ref>): map<string, Response> {
    var outcome := CachedOutcome(tools, files, cache, req, ref);
    if outcome.Forecasted? then cache[KeyFor(req, ref.value) := outcome.response] else cache
  }

  /** `post_forecast`. Whatever is on disk and in the cache, it answers as `CachedOutcome` says for
      the reference found by `latest`; with a sound registry and cache the answer is right. */
  method PostForecast(registry: ModelRegistry, cache: ForecastCache, req: Request)
      returns (outcome: Outcome, ghost ref: Option<Ref>)
    modifies cache
    ensures Finds(registry.files, req.place, req.kind, ref)
    ensures outcome == CachedOutcome(registry.tools, registry.files, old(cache.entries), req, ref)
    ensures cache.entries == CacheAfter(registry.tools, registry.files, old(cache.entries), req, ref)
    ensures ref.Some? ==>
              var key := CacheKey(req.place, req.horizon, ref.value.meta.kind, ref.value.meta.fittedAt);
              && (key in old(cache.entries) ==> outcome == Forecasted(old(cache.entries)[key]))
              && (outcome.Forecasted? ==> key in cache.entries && cache.entries[key] == outcome.response)
              && cache.entries - {key} == old(cache.entries) - {key}
    ensures !outcome.Forecasted? ==> cache.entries == old(cache.entries)
  {
    hide Finds, CacheKey, Load;
    var found := registry.Latest(req.place, req.kind);
    ref := found;
    if found.None? {
      return NoModel, ref;
    }
    var r := found.value;
    var cached := cache.Get(req.place, req.horizon, r.meta.kind, r.meta.fittedAt);
    if cached.Some? {
      assert cache.entries == cache.entries[KeyFor(req, r) := cached.value];
      return Forecasted(cached.value), ref;
    }
    var loaded := Load(registry.tools, registry.files, r);
    if loaded.Raised? {
      return LoadFailed, ref;
    }
    var points: string;
    if r.meta.kind == "prophet" {
      points := registry.tools.prophet(loaded.value, req.horizon);
    } else if r.meta.kind == "arima" {
      points := registry.tools.arima(loaded.value, req.horizon);
    } else {
      return UnknownKind, ref;
    }
    var payload := Serialise(r, points);
    cache.Set(req.place, req.horizon, r.meta.kind, r.meta.fittedAt, payload);
    return Forecasted(payload), ref;
  }

  /** The looks of one request in a row. */
  function LookAll(tools: Tools, w: World, id: nat, p: Pending): World
    requires p.Looking?
    decreases |p.left|
  {
    if p.left == [] || Usable(w.disk.files, p.req.place, p.req.kind, p.left[0]) then LookNext(tools, w, id, p)
    else
      var next := Looking(p.req, p.left[1..], p.start);
      LookAll(tools, w.(pending := w.pending[id := next]), id, next)
  }

  /** How a lookup ends that found `found`. */
  function LookedAll(tools: Tools, w: World, id: nat, p: Pending, found: Option<Ref>): World
    requires p.Looking?
  {
    var done, direct := w.disk.done, Direct(tools, w.disk.files, found, p.req.horizon);
    match found
    case None =>
      w.(pending := w.pending - {id}, answers := w.answers + [Answer(p.req, p.start, done, NoModel, NoModel)])
    case Some(ref) => w.(pending := w.pending[id := Looked(p.req, ref, p.start, done, direct)])
  }

  /** Without interruption the looks find what `latest` as code returns. */
  lemma {:induction false} LookAllFinds(tools: Tools, w: World, id: nat, p: Pending) returns (found: Option<Ref>)
    requires p.Looking? && DescendingPaths(p.left, p.req.place)
    requires forall q :: Usable(w.disk.files, p.req.place, p.req.kind, q) ==> q in p.left
    ensures Finds(w.disk.files, p.req.place, p.req.kind, found)
    ensures LookAll(tools, w, id, p) == LookedAll(tools, w, id, p, found)
    decreases |p.left|
  {
    hide Usable, Compute, ArtifactOf, Finds, RefOf;
    var files, req := w.disk.files, p.req;
    if p.left == [] {
      found := None;
      NoneFound(files, req.place, req.kind);
    } else if Usable(files, req.place, req.kind, p.left[0]) {
      found := Some(RefOf(files, req.place, req.kind, p.left[0]));
      HeadFound(files, req.place, req.kind, p.left);
    } else {
      var next := Looking(req, p.left[1..], p.start);
      var later := w.(pending := w.pending[id := next]);
      forall q | Usable(files, req.place, req.kind, q)
        ensures q in next.left
      {
        var i :| 0 <= i < |p.left| && p.left[i] == q;
        assert next.left[i - 1] == q;
      }
      found := LookAllFinds(tools, later, id, next);
      assert later.pending - {id} == w.pending - {id};
    }
  }

  lemma NoneFound(files: Files, place: Place, kind: Option<Kind>)
    requires forall q :: !Usable(files, place, kind, q)
    ensures Finds(files, place, kind, None)
  {
  }

  lemma HeadFound(files: Files, place: Place, kind: Option<Kind>, left: seq<Path>)
    requires left != [] && DescendingPaths(left, place) && Usable(files, place, kind, left[0])
    requires forall q :: Usable(files, place, kind, q) ==> q in left
    ensures Finds(files, place, kind, Some(RefOf(files, place, kind, left[0])))
  {
    hide ArtifactOf, IsManifestName, Before;
  }

  /** The rest of a request in a row: reading the cache and, if that misses, computing and storing. */
  function Serve(tools: Tools, w: World, id: nat): World {
    if id !in w.pending || !w.pending[id].Looked? then w
    else
      var read := ReadNext(tools, w, id, w.pending[id]);
      if id in read.pending && read.pending[id].Computed? then StoreNext(read, id, read.pending[id]) else read
  }

  /** MAIN: the endpoint as code is the moves of one request in a row: with nothing in between they
      answer and cache what `PostForecast` does. */
  lemma {:induction false} RequestIsItsMoves(tools: Tools, w: World, id: nat, req: Request, listing: seq<Path>)
      returns (found: Option<Ref>)
    requires id !in w.pending && Listing(w.disk.files, req.place, listing)
    ensures Finds(w.disk.files, req.place, req.kind, found)
    ensures var asked := AskNext(w, id, req, listing);
            var end := Serve(tools, LookAll(tools, asked, id, asked.pending[id]), id);
            && end.answers == w.answers + [Answer(req, w.disk.done, w.disk.done,
                                                  Direct(tools, w.disk.files, found, req.horizon),
                                                  CachedOutcome(tools, w.disk.files, w.cache, req, found))]
            && end.cache == CacheAfter(tools, w.disk.files, w.cache, req, found)
            && end.pending == w.pending && end.disk == w.disk
  {
    var asked := AskNext(w, id, req, listing);
    var p := asked.pending[id];
    ListedUsable(w.disk.files, req.place, req.kind, listing);
    found := LookAllFinds(tools, asked, id, p);
    ServeAfterLook(tools, w, id, p, found);
  }

  lemma ListedUsable(files: Files, place: Place, kind: Option<Kind>, listing: seq<Path>)
    requires Listing(files, place, listing)
    ensures forall q :: Usable(files, place, kind, q) ==> q in listing
  {
    hide IsManifestName, ArtifactOf;
  }

  lemma {:induction false} ServeAfterLook(tools: Tools, w: World, id: nat, p: Pending, found: Option<Ref>)
    requires id !in w.pending && p.Looking?
    ensures var end := Serve(tools, LookedAll(tools, w.(pending := w.pending[id := p]), id, p, found), id);
            && end.answers == w.answers + [Answer(p.req, p.start, w.disk.done,
                                                  Direct(tools, w.disk.files, found, p.req.horizon),
                                                  CachedOutcome(tools, w.disk.files, w.cache, p.req, found))]
            && end.cache == CacheAfter(tools, w.disk.files, w.cache, p.req, found)
            && end.pending == w.pending && end.disk == w.disk
  {
    hide KeyFor, Compute;
    assert w.pending[id := p] - {id} == w.pending;
    if found.Some? {
      var req, done, ref := p.req, w.disk.done, found.value;
      var direct := Compute(tools, w.disk.files, ref, req.horizon);
      var looked := Looked(req, ref, p.start, done, direct);
      assert w.pending[id := p][id := looked] - {id} == w.pending;
      if KeyFor(req, ref) in w.cache {
        assert w.cache[KeyFor(req, ref) := w.cache[KeyFor(req, ref)]] == w.cache;
      } else if direct.Forecasted? {
        var computed := Computed(req, ref, p.start, done, direct, direct.response);
        assert w.pending[id := p][id := looked][id := computed] - {id} == w.pending;
      }
    }
  }

  // ---------------------------------------------------------------- why timestamps must be distinct

  lemma {:induction false} OnlySave(tools: Tools, save: Save)
    ensures var st := State(Saved(tools, map[], save), map[], [save], {save.slot});
            Inv(tools, st) && Finds(st.files, save.slot.place, Some(save.slot.kind), Some(RefTo(tools, save)))
  {
    var steps := [Begin(0, save, ""), FinishDump(0), Hash(0), OpenManifest(0), FinishManifest(0)];
    InitInv(tools);
    SaveIsItsSteps(tools, INIT, 0, save, "");
    RunInv(tools, INIT, steps);
    var st := Run(tools, INIT, steps);
    BegunOne(tools, save, steps);
    hide Run, Legal, Saved, Inv;
    var kind := Some(save.slot.kind);
    assert st.done == [save] && st.done[0] == save;
    assert IsNewest(st.done, save.slot.place, kind, Some(save));
    NewestIsLatest(tools, st, save.slot.place, kind, Some(save));
    FoundDone(tools, st, 0);
  }

  lemma {:induction false} BegunOne(tools: Tools, save: Save, steps: seq<Step>)
    requires steps == [Begin(0, save, ""), FinishDump(0), Hash(0), OpenManifest(0), FinishManifest(0)]
    requires Legal(tools, INIT, steps)
    ensures Run(tools, INIT, steps).begun == {save.slot}
  {
    BegunGrows(tools, Next(tools, INIT, steps[0]), steps[1..]);
    hide Run;
    assert Run(tools, INIT, steps) == Run(tools, Next(tools, INIT, steps[0]), steps[1..]) by {
      RunHead(tools, INIT, steps);
    }
  }

  lemma RunHead(tools: Tools, st: State, steps: seq<Step>)
    requires Legal(tools, st, steps) && steps != []
    ensures Run(tools, st, steps) == Run(tools, Next(tools, st, steps[0]), steps[1..])
  {
  }

  lemma {:induction false} BegunGrows(tools: Tools, st: State, steps: seq<Step>)
    requires Legal(tools, st, steps) && forall s :: s in steps ==> !s.Begin?
    ensures Run(tools, st, steps).begun == st.begun
    decreases |steps|
  {
    if steps != [] {
      Bookkeeping(tools, st, steps[0]);
      hide Next;
      BegunGrows(tools, Next(tools, st, steps[0]), steps[1..]);
    }
  }

  lemma {:induction false} FoundDone(tools: Tools, st: State, k: nat)
    requires Inv(tools, st) && k < |st.done|
    requires IsLatest(st.files, st.done[k].slot.place, Some(st.done[k].slot.kind), Some(ManifestPath(st.done[k].slot)))
    ensures Finds(st.files, st.done[k].slot.place, Some(st.done[k].slot.kind), Some(RefTo(tools, st.done[k])))
  {
    hide ArtifactPath, ManifestPath, ArtifactOf, IsLatest, AllOwned, AllSlotFiles, JobsApart, DoneApart, NotDone,
        AllJobFiles;
    assert DoneFiles(tools, st.files, st.done[k]);
    NamesInvert(st.done[k].slot);
  }

  /** MAIN: the cache is exact only because timestamps differ. If a second save of the same kind
      reuses the timestamp of the first, it replaces both files, and the cached answer is then the
      right one if and only if both models happen to forecast the same. */
  lemma {:induction false} ReusedTimestampIsStale(tools: Tools, save: Save, again: Save, horizon: nat)
    requires RoundTrips(tools) && save.slot == again.slot
    ensures var first, second := Saved(tools, map[], save), Saved(tools, Saved(tools, map[], save), again);
            var req := Request(save.slot.place, Some(save.slot.kind), horizon);
            var cache := CacheAfter(tools, first, map[], req, Some(RefTo(tools, save)));
            && Finds(first, req.place, req.kind, Some(RefTo(tools, save)))
            && Finds(second, req.place, req.kind, Some(RefTo(tools, again)))
            && (CachedOutcome(tools, second, cache, req, Some(RefTo(tools, again)))
                  == Direct(tools, second, Some(RefTo(tools, again)), horizon)
                <==> Respond(tools, save, horizon) == Respond(tools, again, horizon))
  {
    var first, second := Saved(tools, map[], save), Saved(tools, Saved(tools, map[], save), again);
    SavedTwice(tools, save, again);
    OnlySave(tools, save);
    OnlySave(tools, again);
    ComputeIsRespond(tools, State(first, map[], [save], {save.slot}), 0, horizon);
    ComputeIsRespond(tools, State(second, map[], [again], {again.slot}), 0, horizon);
    hide Inv, Finds, Saved, Compute, Respond, CacheKey, ArtifactPath, ManifestPath, IsoFormat, CompleteMeta;
    assert KeyFor(Request(save.slot.place, Some(save.slot.kind), horizon), RefTo(tools, save))
        == KeyFor(Request(save.slot.place, Some(save.slot.kind), horizon), RefTo(tools, again)) by {
      SameStamp(tools, save);
      SameStamp(tools, again);
    }
  }

  lemma SameStamp(tools: Tools, save: Save)
    ensures CompleteMeta(tools, save).kind == KindName(save.slot.kind)
    ensures CompleteMeta(tools, save).fittedAt == IsoFormat(save.slot.at)
  {
  }

  lemma {:induction false} SavedTwice(tools: Tools, save: Save, again: Save)
    requires save.slot == again.slot
    ensures Saved(tools, Saved(tools, map[], save), again) == Saved(tools, map[], again)
  {
    hide ArtifactPath, ManifestPath, CompleteMeta;
    PathsDistinct(save.slot, save.slot);
  }
}

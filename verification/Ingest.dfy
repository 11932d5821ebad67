/** From a client's event to Kafka: the payload the ingestion API builds, the sends it makes,
    and what a client that resends a request finds in the table afterwards
    (ingestion/app/ingest_api.py, producer.py, schemas.py). */
module Ingest {
  import opened Prelude
  import opened Events
  import opened EventStore
  import opened ConsumerProtocol
  import opened Delivery
  import W = ConsumerWorker
  import Limit = RateLimit

  const BATCH_LIMIT := 500

  /** A validated `EventIn`; a missing `eventId` is filled by `default_factory=uuid4`. */
  datatype EventIn = EventIn(
    eventId: Option<string>, eventName: string, userId: string, sessionId: string,
    occurredAt: Option<IsoTime>, properties: map<string, string>, revenueCents: nat, currency: string,
    country: string, city: string, device: string, os: string, browser: string, utm: seq<string>)

  /** What varies between two posts of one event: the clock, the drawn UUID, the caller's address. */
  datatype Stamps = Stamps(now: int, freshId: string, sourceIp: string)

  function EventId(e: EventIn, at: Stamps): string {
    if e.eventId.Some? then e.eventId.value else at.freshId
  }

  /** The aware datetime `_to_kafka_payload` formats. */
  function OccurredAt(e: EventIn, at: Stamps): IsoTime {
    match e.occurredAt
    case None => IsoTime(at.now, Some(0))
    case Some(IsoTime(local, offset)) => IsoTime(local, if offset.None? then Some(0) else offset)
  }

  function Payload(isoFormat: IsoTime -> string, workspaceId: string, e: EventIn, at: Stamps): Message {
    Message(Some(workspaceId), Some(EventId(e, at)), Some(e.eventName), e.userId, e.sessionId,
            Some(isoFormat(OccurredAt(e, at))), map k | k in e.properties :: Some(e.properties[k]),
            Cents(e.revenueCents), e.currency, e.country, e.city, e.device, e.os, e.browser, e.utm,
            at.sourceIp, "")
  }

  /** `datetime.isoformat` and `datetime.fromisoformat` are inverse on aware datetimes. */
  ghost predicate IsoRoundTrip(env: Env, isoFormat: IsoTime -> string) {
    forall t: IsoTime :: t.offset.Some? ==>
      isoFormat(t) != "" && env.fromIso(ReplaceZ(isoFormat(t))) == Some(t)
  }

  /** The event's time in UTC milliseconds. */
  function UtcMs(t: IsoTime): int {
    (t.local - (if t.offset.Some? then t.offset.value else 0)) / 1000
  }

  /** Whatever the API puts on the topic is well formed and carries a parseable time, and its
      sort key is the workspace with the event's own name, time and id. */
  lemma PayloadIsTimed(env: Env, isoFormat: IsoTime -> string, workspaceId: string, e: EventIn, at: Stamps, now: int)
    requires IsoRoundTrip(env, isoFormat)
    ensures var m := Payload(isoFormat, workspaceId, e, at);
            && WellFormed(m) && Timed(env, m)
            && KeyOf(RowAt(env, m, now)) ==
               SortKey(workspaceId, e.eventName, UtcMs(OccurredAt(e, at)), EventId(e, at))
  {
    assert OccurredAt(e, at).offset.Some?;
  }

  /** The sort key of an event that brings its own id and time. */
  function EventKey(workspaceId: string, e: EventIn): SortKey
    requires e.eventId.Some? && e.occurredAt.Some?
  {
    SortKey(workspaceId, e.eventName, UtcMs(e.occurredAt.value), e.eventId.value)
  }

  /** MAIN: resending an event reproduces its sort key, whatever the clock and the UUID
      generator do, if and only if the event brings its own id and its own time. */
  lemma ResendKeepsKeyIff(env: Env, isoFormat: IsoTime -> string, workspaceId: string, e: EventIn)
    requires IsoRoundTrip(env, isoFormat)
    ensures e.eventId.Some? && e.occurredAt.Some? <==>
            forall a, b, x, y ::
              PayloadKey(env, isoFormat, workspaceId, e, a, x) == PayloadKey(env, isoFormat, workspaceId, e, b, y)
  {
    forall a, x {
      PayloadIsTimed(env, isoFormat, workspaceId, e, a, x);
    }
    var a, b := Stamps(0, "a", ""), Stamps(1000, "b", "");
    if !(e.eventId.Some? && e.occurredAt.Some?) {
      assert PayloadKey(env, isoFormat, workspaceId, e, a, 0) != PayloadKey(env, isoFormat, workspaceId, e, b, 0);
    }
  }

  /** The sort key under which a posted event is stored when it is enriched at `now`. */
  function PayloadKey(env: Env, isoFormat: IsoTime -> string, workspaceId: string, e: EventIn, at: Stamps,
                      now: int): SortKey {
    KeyOf(RowAt(env, Payload(isoFormat, workspaceId, e, at), now))
  }

  // ---------------------------------------------------------------- posting

  datatype Reply = Accepted(count: nat) | RateLimited | Failed

  /** How the sends of one request fare: which messages reach the topic, and whether one raises. */
  datatype Sends = Sends(appended: set<nat>, raised: bool)

  /** The payloads of a request, in order. */
  function Payloads(isoFormat: IsoTime -> string, workspaceId: string, events: seq<EventIn>,
                    at: seq<Stamps>): (ms: seq<Message>)
    requires |at| == |events|
    ensures |ms| == |events|
    ensures forall i :: 0 <= i < |ms| ==> ms[i] == Payload(isoFormat, workspaceId, events[i], at[i])
  {
    seq(|events|, i requires 0 <= i < |events| => Payload(isoFormat, workspaceId, events[i], at[i]))
  }

  /** The messages at the positions in `kept`, as appends to one partition. */
  function AppendSteps(part: nat, ms: seq<Message>, kept: set<nat>): seq<Step> {
    if ms == [] then []
    else
      var n := |ms| - 1;
      AppendSteps(part, ms[..n], kept) + (if n in kept then [Append(part, ms[n])] else [])
  }

  lemma {:induction false} AppendOneMore(env: Env, s: State, part: nat, ms: seq<Message>, i: nat, kept: set<nat>)
    requires i < |ms|
    ensures Run(env, s, AppendSteps(part, ms[..i + 1], kept)) ==
            (var before := Run(env, s, AppendSteps(part, ms[..i], kept));
             if i in kept then Next(env, before, Append(part, ms[i])) else before)
  {
    hide Next, Run;
    var steps := AppendSteps(part, ms[..i], kept);
    assert ms[..i + 1][..i] == ms[..i];
    if i in kept {
      RunConcat(env, s, steps, [Append(part, ms[i])]);
      RunOne(env, Run(env, s, steps), Append(part, ms[i]));
    } else {
      assert steps + [] == steps;
    }
  }

  /** `send_event` waits for the message; the sends of `send_batch` may be lost one by one. */
  function Reached(count: nat, sends: Sends): set<nat> {
    if count == 1 && !sends.raised then {0} else sends.appended
  }

  function ReplyTo(count: nat, allowed: bool, sends: Sends): Reply {
    if !allowed then RateLimited else if sends.raised then Failed else Accepted(count)
  }

  /** The topic after a request. */
  function AfterPost(env: Env, isoFormat: IsoTime -> string, topic: State, workspaceId: string, events: seq<EventIn>,
                     at: seq<Stamps>, allowed: bool, sends: Sends): State
    requires |at| == |events|
  {
    if !allowed then topic
    else Run(env, topic, AppendSteps(env.route(workspaceId), Payloads(isoFormat, workspaceId, events, at),
                                     Reached(|events|, sends)))
  }

  class IngestApi {
    const env: Env
    const isoFormat: IsoTime -> string
    const topic: W.Broker

    constructor (env: Env, isoFormat: IsoTime -> string, topic: W.Broker)
      ensures this.env == env && this.isoFormat == isoFormat && this.topic == topic
    {
      this.env, this.isoFormat, this.topic := env, isoFormat, topic;
    }

    /** The topic as a protocol state with no table and no worker. */
    ghost function Topic(): State
      reads topic
    {
      State(topic.log, topic.committed, [], 0, Down)
    }

    /** `post_event` after authentication, `allowed` being the rate limiter's answer: stamps every
        event, then sends the payloads in order to the workspace's partition. */
    method PostEvent(workspaceId: string, events: seq<EventIn>, at: seq<Stamps>, allowed: bool, sends: Sends)
      returns (reply: Reply)
      requires 1 <= |events| <= BATCH_LIMIT && |at| == |events|
      requires env.route(workspaceId) < |topic.log|
      modifies topic`log
      ensures Topic() == AfterPost(env, isoFormat, old(Topic()), workspaceId, events, at, allowed, sends)
      ensures reply == ReplyTo(|events|, allowed, sends)
      ensures !allowed ==> reply == RateLimited && topic.log == old(topic.log)
      ensures allowed ==> reply == if sends.raised then Failed else Accepted(|events|)
    {
      if !allowed {
        return RateLimited;
      }
      var kafkaEvents: seq<Message> := [];
      var i := 0;
      while i < |events|
        invariant 0 <= i <= |events|
        invariant kafkaEvents == Payloads(isoFormat, workspaceId, events, at)[..i]
      {
        kafkaEvents := kafkaEvents + [Payload(isoFormat, workspaceId, events[i], at[i])];
        i := i + 1;
      }
      ghost var ms := Payloads(isoFormat, workspaceId, events, at);
      assert kafkaEvents == ms;
      var part := env.route(workspaceId);
      var reached := Reached(|events|, sends);
      i := 0;
      while i < |kafkaEvents|
        invariant 0 <= i <= |kafkaEvents|
        invariant |topic.log| == |old(topic.log)| && topic.committed == old(topic.committed)
        invariant Topic() == Run(env, old(Topic()), AppendSteps(part, ms[..i], reached))
      {
        AppendOneMore(env, old(Topic()), part, ms, i, reached);
        if i in reached {
          topic.log := topic.log[part := topic.log[part] + [kafkaEvents[i]]];
        }
        i := i + 1;
      }
      assert ms[..i] == ms;
      reply := if sends.raised then Failed else Accepted(|events|);
    }

    /** The endpoint behind the limiter: a request costs its number of events, taken from the bucket
        of its API key; refused, it leaves the topic alone. */
    method PostLimited(limiter: Limit.RateLimiter, keyId: string, now: int, workspaceId: string,
                       events: seq<EventIn>, at: seq<Stamps>, sends: Sends) returns (reply: Reply)
      requires limiter.Valid()
      requires 1 <= |events| <= BATCH_LIMIT && |at| == |events|
      requires env.route(workspaceId) < |topic.log|
      modifies topic`log, limiter
      ensures limiter.Valid() && limiter.calls == old(limiter.calls) + [(keyId, Limit.Request(|events|, now))]
      ensures var rs := Limit.Of(keyId, limiter.calls);
              && |rs| == |Limit.Of(keyId, old(limiter.calls))| + 1
              && Topic() == AfterPost(env, isoFormat, old(Topic()), workspaceId, events, at,
                                      Limit.Admits(limiter.p, rs, |rs| - 1), sends)
              && (reply == RateLimited <==> !Limit.Admits(limiter.p, rs, |rs| - 1))
              && (reply == RateLimited ==> topic.log == old(topic.log))
    {
      var allowed, _ := limiter.Consume(keyId, |events|, now);
      reply := PostEvent(workspaceId, events, at, allowed, sends);
    }
  }

  // ---------------------------------------------------------------- what an acknowledgement means

  predicate All(count: nat, reached: set<nat>) {
    forall i :: 0 <= i < count ==> i in reached
  }

  /** Appending well-formed payloads of one workspace to its partition. */
  lemma {:induction false} AppendsTo(env: Env, s: State, part: nat, ms: seq<Message>, kept: set<nat>)
    requires part < |s.log| && forall m :: m in ms ==> WellFormed(m) && env.route(m.workspaceId.value) == part
    ensures var r := Run(env, s, AppendSteps(part, ms, kept));
            && |r.log| == |s.log| && r.log[part] == s.log[part] + Chosen(ms, kept)
  {
    if ms == [] {
      assert s.log[part] + [] == s.log[part];
    } else {
      var n := |ms| - 1;
      AppendsTo(env, s, part, ms[..n], kept);
      AppendOneMore(env, s, part, ms, n, kept);
      assert ms[..n + 1] == ms;
      assert ms[n] in ms;
      hide WellFormed, Run;
      assert s.log[part] + (Chosen(ms[..n], kept) + [ms[n]]) == s.log[part] + Chosen(ms[..n], kept) + [ms[n]];
    }
  }

  /** The messages at the positions in `kept`. */
  function Chosen(ms: seq<Message>, kept: set<nat>): seq<Message> {
    if ms == [] then []
    else
      var n := |ms| - 1;
      Chosen(ms[..n], kept) + (if n in kept then [ms[n]] else [])
  }

  lemma {:induction false} ChosenAll(ms: seq<Message>, kept: set<nat>)
    ensures |Chosen(ms, kept)| <= |ms|
    ensures Chosen(ms, kept) == ms <==> All(|ms|, kept)
  {
    if ms != [] {
      var n := |ms| - 1;
      ChosenAll(ms[..n], kept);
      assert ms == ms[..n] + [ms[n]];
    }
  }

  /** MAIN: an accepted request has all of its payloads on the topic if and only if every one of
      its sends reached it. */
  lemma {:induction false} LogAfterPost(env: Env, isoFormat: IsoTime -> string, topic: State, workspaceId: string,
                                        events: seq<EventIn>, at: seq<Stamps>, sends: Sends)
    requires |at| == |events| && env.route(workspaceId) < |topic.log|
    ensures var p, ms := env.route(workspaceId), Payloads(isoFormat, workspaceId, events, at);
            var r := AfterPost(env, isoFormat, topic, workspaceId, events, at, true, sends);
            && |r.log| == |topic.log|
            && r.log[p] == topic.log[p] + Chosen(ms, Reached(|events|, sends))
            && (r.log[p] == topic.log[p] + ms <==> All(|events|, Reached(|events|, sends)))
  {
    hide Reached, Run;
    var p, ms := env.route(workspaceId), Payloads(isoFormat, workspaceId, events, at);
    var kept := Reached(|events|, sends);
    AppendsTo(env, topic, p, ms, kept);
    ChosenAll(ms, kept);
    assert (topic.log[p] + Chosen(ms, kept))[|topic.log[p]|..] == Chosen(ms, kept);
    assert (topic.log[p] + ms)[|topic.log[p]|..] == ms;
  }

  /** MAIN: `Accepted` guarantees, for every fate of the sends, that all payloads are on the topic
      if and only if the request held a single event. */
  lemma {:induction false} AcceptedIsAppendedIff(env: Env, isoFormat: IsoTime -> string, topic: State,
                                                 workspaceId: string,
                                                 events: seq<EventIn>, at: seq<Stamps>)
    requires |at| == |events| >= 1 && env.route(workspaceId) < |topic.log|
    ensures |events| == 1 <==>
            forall sends :: ReplyTo(|events|, true, sends) == Accepted(|events|) ==>
              var p := env.route(workspaceId);
              var r := AfterPost(env, isoFormat, topic, workspaceId, events, at, true, sends);
              |r.log| == |topic.log| && r.log[p] == topic.log[p] + Payloads(isoFormat, workspaceId, events, at)
  {
    hide AfterPost, Payload;
    var lossy := Sends({}, false);
    forall sends {
      LogAfterPost(env, isoFormat, topic, workspaceId, events, at, sends);
    }
    assert ReplyTo(|events|, true, lossy) == Accepted(|events|);
    if |events| > 1 {
      assert 0 !in Reached(|events|, lossy);
    }
  }

  /** A batch of two that is accepted while its second payload is not on the topic. */
  lemma {:induction false} AcceptedBatchCanLose(env: Env, isoFormat: IsoTime -> string, workspaceId: string,
                                                e: EventIn, f: EventIn, a: Stamps, b: Stamps)
    requires e.eventId.Some? && f.eventId.Some? && e.eventId != f.eventId
    ensures var p, sends := env.route(workspaceId), Sends({0}, false);
            var r := AfterPost(env, isoFormat, Init(p + 1), workspaceId, [e, f], [a, b], true, sends);
            && ReplyTo(2, true, sends) == Accepted(2)
            && |r.log| == p + 1 && r.log[p] == [Payload(isoFormat, workspaceId, e, a)]
            && Payload(isoFormat, workspaceId, f, b) !in r.log[p]
  {
    var p, sends := env.route(workspaceId), Sends({0}, false);
    var ms := Payloads(isoFormat, workspaceId, [e, f], [a, b]);
    LogAfterPost(env, isoFormat, Init(p + 1), workspaceId, [e, f], [a, b], sends);
    hide AfterPost, Run;
    assert ms == [Payload(isoFormat, workspaceId, e, a), Payload(isoFormat, workspaceId, f, b)];
    assert ms[..1] == [ms[0]] && ms[..1][..0] == [];
    assert Chosen(ms[..1], {0}) == [ms[0]];
    assert Chosen(ms, {0}) == [ms[0]];
  }

  // ---------------------------------------------------------------- end to end

  /** Row `i` of the table was built from the post of event `e` stamped `at`. */
  predicate FromPost(isoFormat: IsoTime -> string, s: State, i: int, workspaceId: string, e: EventIn, at: Stamps) {
    && 0 <= i < |s.table|
    && Good(s.log, s.table[i].entry.part, s.table[i].entry.off)
    && s.log[s.table[i].entry.part][s.table[i].entry.off] == Payload(isoFormat, workspaceId, e, at)
  }

  /** Row `i` of the table was built from a post of event `e`. */
  ghost predicate FromEvent(isoFormat: IsoTime -> string, s: State, i: int, workspaceId: string, e: EventIn) {
    exists at :: FromPost(isoFormat, s, i, workspaceId, e, at)
  }

  lemma RowInTable(isoFormat: IsoTime -> string, s: State, i: int, workspaceId: string, e: EventIn)
    requires FromEvent(isoFormat, s, i, workspaceId, e)
    ensures 0 <= i < |s.table|
  {
  }

  /** Every stored row of an event that brings its id and time has that event's key. */
  lemma {:induction false} StoredUnderEventKey(env: Env, isoFormat: IsoTime -> string, s: State, i: int,
                                               workspaceId: string, e: EventIn)
    requires Inv(env, s) && IsoRoundTrip(env, isoFormat) && FromEvent(isoFormat, s, i, workspaceId, e)
    requires e.eventId.Some? && e.occurredAt.Some?
    ensures Key(s.table[i]) == EventKey(workspaceId, e)
  {
    hide RowAt, EnrichRow;
    var x := s.table[i].entry;
    var at :| FromPost(isoFormat, s, i, workspaceId, e, at);
    PayloadIsTimed(env, isoFormat, workspaceId, e, at, x.now);
    assert FromLog(env, s.log, x);
  }

  /** MAIN: what a client posts is what the table holds. In every reachable state the row of a
      posted event carries its user, session, name, amount, currency, properties and campaign
      fields unchanged, and every place or device field it brings; the fields it leaves empty are
      the lookups' of the caller's address and of the event's own user agent. */
  lemma {:induction false} StoredRowCarriesEvent(env: Env, isoFormat: IsoTime -> string, s: State, i: int,
                                                 workspaceId: string, e: EventIn, at: Stamps)
    requires Reachable(env, s) && FromPost(isoFormat, s, i, workspaceId, e, at)
    ensures var row := s.table[i].entry.row;
            && row.workspaceId == workspaceId && row.eventName == e.eventName
            && row.userId == e.userId && row.sessionId == e.sessionId
            && row.revenueCents == e.revenueCents && row.currency == e.currency
            && row.properties == e.properties && row.utm == e.utm
    ensures var row := s.table[i].entry.row;
            && Filled(row.country, e.country, env.geo(at.sourceIp).0)
            && Filled(row.city, e.city, if e.country == "" then env.geo(at.sourceIp).1 else "")
    ensures var row := s.table[i].entry.row;
            var ua := if "$user_agent" in e.properties then e.properties["$user_agent"] else "";
            && Filled(row.device, e.device, env.agent(ua).0)
            && Filled(row.os, e.os, env.agent(ua).1)
            && Filled(row.browser, e.browser, env.agent(ua).2)
  {
    ReachableInv(env, s);
    var x := s.table[i].entry;
    assert FromLog(env, s.log, x);
    var m := Payload(isoFormat, workspaceId, e, at);
    var ua := if "$user_agent" in e.properties then e.properties["$user_agent"] else "";
    hide Inv, Reachable, RowAt;
    assert forall k :: k in m.properties ==> k in e.properties && m.properties[k] == Some(e.properties[k]);
    assert x.row.properties == e.properties by {
      RowProperties(env, m, x.now, e.properties);
    }
    RowCarriesMessage(env, m, x.now, ua);
  }

  /** The id and the time of that row: the event's own, or the drawn id and the API's clock; a
      time without an offset is UTC. */
  lemma {:induction false} StoredIdAndTime(env: Env, isoFormat: IsoTime -> string, s: State, i: int,
                                           workspaceId: string, e: EventIn, at: Stamps)
    requires Reachable(env, s) && IsoRoundTrip(env, isoFormat) && FromPost(isoFormat, s, i, workspaceId, e, at)
    ensures var row := s.table[i].entry.row;
            row.eventId == if e.eventId.Some? then e.eventId.value else at.freshId
    ensures e.occurredAt == None ==> s.table[i].entry.row.occurredMs == at.now / 1000
    ensures forall t :: e.occurredAt == Some(IsoTime(t, None)) ==> s.table[i].entry.row.occurredMs == t / 1000
    ensures forall t, o :: e.occurredAt == Some(IsoTime(t, Some(o))) ==>
              s.table[i].entry.row.occurredMs == (t - o) / 1000
  {
    ReachableInv(env, s);
    var x := s.table[i].entry;
    assert FromLog(env, s.log, x);
    hide Inv, Reachable, RowAt;
    PayloadIsTimed(env, isoFormat, workspaceId, e, at, x.now);
  }

  /** Row `i` is visible under key `k`, and no other visible row has this key or was built from
      the event. */
  ghost predicate OnlyRow(isoFormat: IsoTime -> string, s: State, i: int, workspaceId: string, e: EventIn, k: SortKey) {
    && 0 <= i < |s.table| && Visible(s.table, i) && Key(s.table[i]) == k
    && forall j ::
         (0 <= j < |s.table| && Visible(s.table, j) &&
          (Key(s.table[j]) == k || FromEvent(isoFormat, s, j, workspaceId, e))) ==> j == i
  }

  /** MAIN: in every reachable state, while anything is in flight, an event with its own id and
      time that has reached the table, however often it was resent, half sent and redelivered, is
      exactly one visible row: one visible row has its key, and no other visible row was built
      from it. */
  lemma {:induction false} ExactlyOneVisibleRow(env: Env, isoFormat: IsoTime -> string, s: State,
                                                workspaceId: string, e: EventIn, stored: int)
    requires Reachable(env, s) && IsoRoundTrip(env, isoFormat)
    requires e.eventId.Some? && e.occurredAt.Some? && FromEvent(isoFormat, s, stored, workspaceId, e)
    ensures exists i :: OnlyRow(isoFormat, s, i, workspaceId, e, EventKey(workspaceId, e))
  {
    hide RowAt, EnrichRow, Exact, FromEvent, LastWriter;
    var t, k := s.table, EventKey(workspaceId, e);
    ReachableInv(env, s);
    StoredUnderEventKey(env, isoFormat, s, stored, workspaceId, e);
    RowInTable(isoFormat, s, stored, workspaceId, e);
    hide Inv, Reachable, IsoRoundTrip, Visible, View, Winner, Key, EventKey;
    var i := Winner(t, k);
    forall j | 0 <= j < |t| && Visible(t, j) && (Key(t[j]) == k || FromEvent(isoFormat, s, j, workspaceId, e))
      ensures j == i
    {
      if FromEvent(isoFormat, s, j, workspaceId, e) {
        StoredUnderEventKey(env, isoFormat, s, j, workspaceId, e);
      }
      ViewIsVisibleRows(t, j);
    }
    assert Key(t[i]) == k && Visible(t, i);
    assert OnlyRow(isoFormat, s, i, workspaceId, e, k);
  }

  /** MAIN: a posted event has reached the table as soon as the offset of one of its messages is
      committed, whatever is uncommitted elsewhere. */
  lemma {:induction false} CommittedEventIsStored(env: Env, isoFormat: IsoTime -> string, s: State,
                                                  workspaceId: string, e: EventIn, p: nat, o: nat, at: Stamps)
    requires Reachable(env, s) && Good(s.log, p, o) && s.log[p][o] == Payload(isoFormat, workspaceId, e, at)
    ensures p < |s.committed|
    ensures o < s.committed[p] ==> exists i :: FromEvent(isoFormat, s, i, workspaceId, e)
  {
    CommittedIsStored(env, s, p, o);
    ReachableInv(env, s);
    if o < s.committed[p] {
      var i :| 0 <= i < |s.table| && s.table[i].entry.part == p && s.table[i].entry.off == o;
      assert FromPost(isoFormat, s, i, workspaceId, e, at);
      assert FromEvent(isoFormat, s, i, workspaceId, e);
    }
  }

  /** Once everything is committed, every posted event with its own id and time is exactly one
      visible row. */
  lemma {:induction false} DrainedEventIsOneRow(env: Env, isoFormat: IsoTime -> string, s: State,
                                                workspaceId: string, e: EventIn, p: nat, o: nat, at: Stamps)
    requires Reachable(env, s) && |s.committed| == |s.log| && Drained(s) && IsoRoundTrip(env, isoFormat)
    requires e.eventId.Some? && e.occurredAt.Some?
    requires Good(s.log, p, o) && s.log[p][o] == Payload(isoFormat, workspaceId, e, at)
    ensures exists i :: OnlyRow(isoFormat, s, i, workspaceId, e, EventKey(workspaceId, e))
  {
    hide Reachable, IsoRoundTrip, FromEvent, OnlyRow, Payload;
    CommittedEventIsStored(env, isoFormat, s, workspaceId, e, p, o, at);
    var i :| FromEvent(isoFormat, s, i, workspaceId, e);
    ExactlyOneVisibleRow(env, isoFormat, s, workspaceId, e, i);
  }

  /** Events with different ids, or of different workspaces, are never replaced by one another,
      whether they bring their own time or not. */
  lemma {:induction false} DifferentIdsNeverCollapse(env: Env, isoFormat: IsoTime -> string, s: State, i: nat, j: nat,
                                                     w: string, e: EventIn, v: string, f: EventIn)
    requires Inv(env, s) && IsoRoundTrip(env, isoFormat)
    requires FromEvent(isoFormat, s, i, w, e) && FromEvent(isoFormat, s, j, v, f)
    requires e.eventId.Some? && f.eventId.Some?
    requires e.eventId != f.eventId || w != v
    ensures Key(s.table[i]) != Key(s.table[j])
  {
    hide FromEvent;
    StoredUnderEventId(env, isoFormat, s, i, w, e);
    StoredUnderEventId(env, isoFormat, s, j, v, f);
  }

  lemma {:induction false} StoredUnderEventId(env: Env, isoFormat: IsoTime -> string, s: State, i: int,
                                              workspaceId: string, e: EventIn)
    requires Inv(env, s) && IsoRoundTrip(env, isoFormat) && FromEvent(isoFormat, s, i, workspaceId, e)
    requires e.eventId.Some?
    ensures Key(s.table[i]).workspaceId == workspaceId && Key(s.table[i]).eventId == e.eventId.value
  {
    hide RowAt, EnrichRow;
    var x := s.table[i].entry;
    var at :| FromPost(isoFormat, s, i, workspaceId, e, at);
    PayloadIsTimed(env, isoFormat, workspaceId, e, at, x.now);
    assert FromLog(env, s.log, x);
  }

  /** MAIN: one id under two times, both stored, is one visible row if and only if the times agree
      to the millisecond: the documented key (workspace, event id) is not the table's. */
  lemma {:induction false} SameIdTwoTimes(env: Env, isoFormat: IsoTime -> string, s: State, w: string,
                                          e: EventIn, f: EventIn, stored: int, other: int)
    requires Reachable(env, s) && IsoRoundTrip(env, isoFormat)
    requires e.eventId.Some? && e.occurredAt.Some? && f.occurredAt.Some? && f == e.(occurredAt := f.occurredAt)
    requires FromEvent(isoFormat, s, stored, w, e) && FromEvent(isoFormat, s, other, w, f)
    ensures exists i, j ::
              && OnlyRow(isoFormat, s, i, w, e, EventKey(w, e))
              && OnlyRow(isoFormat, s, j, w, f, EventKey(w, f))
              && (i == j <==> UtcMs(e.occurredAt.value) == UtcMs(f.occurredAt.value))
  {
    ExactlyOneVisibleRow(env, isoFormat, s, w, e, stored);
    ExactlyOneVisibleRow(env, isoFormat, s, w, f, other);
    hide Reachable, IsoRoundTrip, FromEvent, Visible, Payload;
    var i :| OnlyRow(isoFormat, s, i, w, e, EventKey(w, e));
    var j :| OnlyRow(isoFormat, s, j, w, f, EventKey(w, f));
    if EventKey(w, e) == EventKey(w, f) {
      assert i == j;
    }
  }
}

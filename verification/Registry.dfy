/** The filesystem-backed model registry (forecast/app/services/registry.py): saves that write two
    files step by step and may stop anywhere, and a lookup that reads whatever is on disk. */
module Registry {
  import opened Prelude
  import opened Text
  import opened RegistryNames

  type Model = seq<real>

  /** Foreign code: joblib, SHA-256 and the two forecasting libraries, taken as functions. */
  datatype Tools = Tools(
    dump: Model -> string, undump: string -> Option<Model>, sha: string -> string,
    prophet: (Model, nat) -> string, arima: (Model, nat) -> string)

  ghost predicate RoundTrips(tools: Tools) {
    forall m :: tools.undump(tools.dump(m)) == Some(m)
  }

  /** The fields of a manifest that are read back. */
  datatype Meta = Meta(place: Place, kind: string, fittedAt: string, sha: string,
                       mape: Option<real>, windowDays: nat)

  /** A manifest that is only partly written does not parse. */
  datatype File = Artifact(bytes: string) | Manifest(meta: Option<Meta>)

  type Files = map<Path, File>

  /** One call of `save`. */
  datatype Save = Save(slot: Slot, model: Model, mape: Option<real>, windowDays: nat)

  function MetaOf(save: Save, sha: string): Meta {
    Meta(save.slot.place, KindName(save.slot.kind), IsoFormat(save.slot.at), sha, save.mape, save.windowDays)
  }

  function CompleteMeta(tools: Tools, save: Save): Meta {
    MetaOf(save, tools.sha(tools.dump(save.model)))
  }

  // ---------------------------------------------------------------- saves as steps

  /** How far a save has come. `Writing` has opened its manifest. */
  datatype Phase = Dumping | Dumped | Hashed(sha: string) | Writing(sha: string)

  datatype Job = Job(save: Save, phase: Phase)

  datatype State = State(files: Files, jobs: map<nat, Job>, done: seq<Save>, begun: set<Slot>)

  const INIT := State(map[], map[], [], {})

  /** `Begin` opens the artifact and leaves any part of it behind; `Abort` is a crash. */
  datatype Step =
    | Begin(id: nat, save: Save, part: string)
    | FinishDump(id: nat)
    | Hash(id: nat)
    | OpenManifest(id: nat)
    | FinishManifest(id: nat)
    | Abort(id: nat)

  predicate Enabled(st: State, step: Step) {
    match step
    case Begin(id, _, _) => id !in st.jobs
    case FinishDump(id) => id in st.jobs && st.jobs[id].phase.Dumping?
    case Hash(id) => id in st.jobs && st.jobs[id].phase.Dumped? && ArtifactPath(st.jobs[id].save.slot) in st.files
    case OpenManifest(id) => id in st.jobs && st.jobs[id].phase.Hashed?
    case FinishManifest(id) => id in st.jobs && st.jobs[id].phase.Writing?
    case Abort(id) => id in st.jobs
  }

  function BytesOf(file: File): string {
    match file case Artifact(bytes) => bytes case Manifest(_) => ""
  }

  function Next(tools: Tools, st: State, step: Step): State
    requires Enabled(st, step)
  {
    match step
    case Begin(id, save, part) =>
      st.(files := st.files[ArtifactPath(save.slot) := Artifact(part)],
          jobs := st.jobs[id := Job(save, Dumping)], begun := st.begun + {save.slot})
    case FinishDump(id) =>
      var save := st.jobs[id].save;
      st.(files := st.files[ArtifactPath(save.slot) := Artifact(tools.dump(save.model))],
          jobs := st.jobs[id := Job(save, Dumped)])
    case Hash(id) =>
      var save := st.jobs[id].save;
      st.(jobs := st.jobs[id := Job(save, Hashed(tools.sha(BytesOf(st.files[ArtifactPath(save.slot)]))))])
    case OpenManifest(id) =>
      var job := st.jobs[id];
      st.(files := st.files[ManifestPath(job.save.slot) := Manifest(None)],
          jobs := st.jobs[id := Job(job.save, Writing(job.phase.sha))])
    case FinishManifest(id) =>
      var job := st.jobs[id];
      st.(files := st.files[ManifestPath(job.save.slot) := Manifest(Some(MetaOf(job.save, job.phase.sha)))],
          jobs := st.jobs - {id}, done := st.done + [job.save])
    case Abort(id) =>
      st.(jobs := st.jobs - {id})
  }

  /** No two saves of one kind for one place carry the same timestamp. */
  predicate Fresh(st: State, step: Step) {
    step.Begin? ==> step.save.slot !in st.begun
  }

  // ---------------------------------------------------------------- the invariant

  /** The files of a save that has come this far. */
  predicate JobFiles(tools: Tools, files: Files, job: Job) {
    var artifact, manifest := ArtifactPath(job.save.slot), ManifestPath(job.save.slot);
    var whole := artifact in files && files[artifact] == Artifact(tools.dump(job.save.model));
    match job.phase
    case Dumping => manifest !in files
    case Dumped => whole && manifest !in files
    case Hashed(sha) => whole && sha == tools.sha(tools.dump(job.save.model)) && manifest !in files
    case Writing(sha) => whole && sha == tools.sha(tools.dump(job.save.model))
                         && manifest in files && files[manifest] == Manifest(None)
  }

  predicate DoneFiles(tools: Tools, files: Files, save: Save) {
    var artifact, manifest := ArtifactPath(save.slot), ManifestPath(save.slot);
    && artifact in files && files[artifact] == Artifact(tools.dump(save.model))
    && manifest in files && files[manifest] == Manifest(Some(CompleteMeta(tools, save)))
  }

  predicate JobsApart(jobs: map<nat, Job>, begun: set<Slot>) {
    && (forall i :: i in jobs ==> jobs[i].save.slot in begun)
    && (forall i, j :: i in jobs && j in jobs && jobs[i].save.slot == jobs[j].save.slot ==> i == j)
  }

  predicate DoneApart(done: seq<Save>, begun: set<Slot>) {
    && (forall k :: 0 <= k < |done| ==> done[k].slot in begun)
    && (forall k, l :: 0 <= k < |done| && 0 <= l < |done| && done[k].slot == done[l].slot ==> k == l)
  }

  predicate NotDone(jobs: map<nat, Job>, done: seq<Save>) {
    forall i, k :: i in jobs && 0 <= k < |done| ==> jobs[i].save.slot != done[k].slot
  }

  predicate SlotDone(done: seq<Save>, slot: Slot) {
    exists k :: 0 <= k < |done| && done[k].slot == slot
  }

  /** Nothing exists before a save begins, and only a complete save has a manifest that parses. */
  predicate SlotFiles(files: Files, done: seq<Save>, begun: set<Slot>, slot: Slot) {
    var artifact, manifest := ArtifactPath(slot), ManifestPath(slot);
    && (artifact in files || manifest in files ==> slot in begun)
    && (artifact in files ==> files[artifact].Artifact?)
    && (manifest in files ==> files[manifest] == Manifest(None) || (files[manifest].Manifest? && SlotDone(done, slot)))
  }

  predicate Owned(p: Path, begun: set<Slot>) {
    exists slot :: slot in begun && (p == ArtifactPath(slot) || p == ManifestPath(slot))
  }

  ghost predicate AllSlotFiles(files: Files, done: seq<Save>, begun: set<Slot>) {
    forall slot: Slot :: SlotFiles(files, done, begun, slot)
  }

  predicate AllOwned(files: Files, begun: set<Slot>) {
    forall p :: p in files ==> Owned(p, begun)
  }

  predicate AllJobFiles(tools: Tools, files: Files, jobs: map<nat, Job>) {
    forall i :: i in jobs ==> JobFiles(tools, files, jobs[i])
  }

  predicate AllDoneFiles(tools: Tools, files: Files, done: seq<Save>) {
    forall k :: 0 <= k < |done| ==> DoneFiles(tools, files, done[k])
  }

  ghost predicate Inv(tools: Tools, st: State) {
    && JobsApart(st.jobs, st.begun) && DoneApart(st.done, st.begun) && NotDone(st.jobs, st.done)
    && AllOwned(st.files, st.begun) && AllSlotFiles(st.files, st.done, st.begun)
    && AllJobFiles(tools, st.files, st.jobs) && AllDoneFiles(tools, st.files, st.done)
  }

  function SlotOf(st: State, step: Step): Slot
    requires Enabled(st, step)
  {
    if step.Begin? then step.save.slot else st.jobs[step.id].save.slot
  }

  /** Both files of a slot are as they were. */
  ghost predicate Same(files: Files, later: Files, slot: Slot) {
    && (ArtifactPath(slot) in later <==> ArtifactPath(slot) in files)
    && (ArtifactPath(slot) in files ==> later[ArtifactPath(slot)] == files[ArtifactPath(slot)])
    && (ManifestPath(slot) in later <==> ManifestPath(slot) in files)
    && (ManifestPath(slot) in files ==> later[ManifestPath(slot)] == files[ManifestPath(slot)])
  }

  /** A step writes only the files of its own save. */
  lemma {:induction false} OthersSame(tools: Tools, st: State, step: Step, slot: Slot)
    requires Enabled(st, step) && slot != SlotOf(st, step)
    ensures Same(st.files, Next(tools, st, step).files, slot)
  {
    hide ArtifactPath, ManifestPath, MetaOf, BytesOf;
    PathsDistinct(slot, SlotOf(st, step));
    PathsDistinct(SlotOf(st, step), slot);
  }

  /** What a step does to the bookkeeping. */
  lemma {:induction false} Bookkeeping(tools: Tools, st: State, step: Step)
    requires Enabled(st, step)
    ensures var next := Next(tools, st, step);
            && (forall i :: i != step.id ==> (i in next.jobs <==> i in st.jobs))
            && (forall i :: i != step.id && i in st.jobs ==> next.jobs[i] == st.jobs[i])
            && (step.id in next.jobs ==> next.jobs[step.id].save.slot == SlotOf(st, step))
            && next.begun == (if step.Begin? then st.begun + {step.save.slot} else st.begun)
            && next.done == (if step.FinishManifest? then st.done + [st.jobs[step.id].save] else st.done)
            && (step.FinishManifest? ==> step.id !in next.jobs)
            && (!step.Begin? ==> step.id in st.jobs)
  {
    hide ArtifactPath, ManifestPath, MetaOf, BytesOf;
  }

  lemma {:induction false} JobsApartStep(tools: Tools, st: State, step: Step)
    requires JobsApart(st.jobs, st.begun) && Enabled(st, step) && Fresh(st, step)
    ensures var next := Next(tools, st, step); JobsApart(next.jobs, next.begun)
  {
    hide ArtifactPath, ManifestPath, MetaOf, BytesOf;
    Bookkeeping(tools, st, step);
    var next, own := Next(tools, st, step), SlotOf(st, step);
    hide Next, SlotOf;
  }

  lemma {:induction false} DoneApartStep(tools: Tools, st: State, step: Step)
    requires JobsApart(st.jobs, st.begun) && DoneApart(st.done, st.begun) && NotDone(st.jobs, st.done)
    requires Enabled(st, step)
    ensures var next := Next(tools, st, step); DoneApart(next.done, next.begun)
  {
    hide ArtifactPath, ManifestPath, MetaOf, BytesOf;
    Bookkeeping(tools, st, step);
    var next, own := Next(tools, st, step), SlotOf(st, step);
    hide Next, SlotOf;
  }

  lemma {:induction false} NotDoneStep(tools: Tools, st: State, step: Step)
    requires JobsApart(st.jobs, st.begun) && DoneApart(st.done, st.begun) && NotDone(st.jobs, st.done)
    requires Enabled(st, step) && Fresh(st, step)
    ensures var next := Next(tools, st, step); NotDone(next.jobs, next.done)
  {
    hide ArtifactPath, ManifestPath, MetaOf, BytesOf;
    Bookkeeping(tools, st, step);
    var next, own := Next(tools, st, step), SlotOf(st, step);
    hide Next, SlotOf;
  }

  lemma {:induction false} OwnedStep(tools: Tools, st: State, step: Step)
    requires AllOwned(st.files, st.begun) && JobsApart(st.jobs, st.begun) && Enabled(st, step)
    ensures var next := Next(tools, st, step); AllOwned(next.files, next.begun)
  {
    hide ArtifactPath, ManifestPath, MetaOf, BytesOf, Owned;
    var next, own := Next(tools, st, step), SlotOf(st, step);
    OwnPaths(own, next.begun);
    forall p | p in next.files
      ensures Owned(p, next.begun)
    {
      if p in st.files {
        OwnedStays(p, st.begun, next.begun);
      }
    }
  }

  lemma OwnPaths(slot: Slot, begun: set<Slot>)
    requires slot in begun
    ensures Owned(ArtifactPath(slot), begun) && Owned(ManifestPath(slot), begun)
  {
  }

  lemma OwnedStays(p: Path, begun: set<Slot>, later: set<Slot>)
    requires Owned(p, begun) && begun <= later
    ensures Owned(p, later)
  {
  }

  lemma {:induction false} SlotFilesStep(tools: Tools, st: State, step: Step, slot: Slot)
    requires SlotFiles(st.files, st.done, st.begun, slot) && JobsApart(st.jobs, st.begun) && Enabled(st, step)
    ensures var next := Next(tools, st, step); SlotFiles(next.files, next.done, next.begun, slot)
  {
    hide ArtifactPath, ManifestPath, MetaOf, BytesOf;
    var next := Next(tools, st, step);
    PathsDistinct(slot, slot);
    Bookkeeping(tools, st, step);
    if SlotDone(st.done, slot) {
      var k :| 0 <= k < |st.done| && st.done[k].slot == slot;
      assert next.done[k].slot == slot;
    }
    if slot != SlotOf(st, step) {
      OthersSame(tools, st, step, slot);
    } else if step.FinishManifest? {
      assert next.done[|st.done|].slot == slot;
    }
  }

  /** A job whose files no one else touches keeps what is true of them. */
  lemma JobFilesSame(tools: Tools, files: Files, later: Files, job: Job)
    requires JobFiles(tools, files, job) && Same(files, later, job.save.slot)
    ensures JobFiles(tools, later, job)
  {
    hide ArtifactPath, ManifestPath;
  }

  lemma DoneFilesSame(tools: Tools, files: Files, later: Files, save: Save)
    requires DoneFiles(tools, files, save) && Same(files, later, save.slot)
    ensures DoneFiles(tools, later, save)
  {
    hide ArtifactPath, ManifestPath, CompleteMeta;
  }

  /** The files of the job that takes the step. */
  lemma {:induction false} OwnFiles(tools: Tools, st: State, step: Step)
    requires Enabled(st, step) && Fresh(st, step) && AllJobFiles(tools, st.files, st.jobs)
    requires SlotFiles(st.files, st.done, st.begun, SlotOf(st, step))
    ensures var next := Next(tools, st, step);
            && (step.id in next.jobs ==> JobFiles(tools, next.files, next.jobs[step.id]))
            && (step.FinishManifest? ==> DoneFiles(tools, next.files, st.jobs[step.id].save))
  {
    hide ArtifactPath, ManifestPath;
    PathsDistinct(SlotOf(st, step), SlotOf(st, step));
  }

  lemma {:induction false} JobFilesStep(tools: Tools, st: State, step: Step)
    requires Inv(tools, st) && Enabled(st, step) && Fresh(st, step)
    ensures var next := Next(tools, st, step); AllJobFiles(tools, next.files, next.jobs)
  {
    hide SlotFiles, AllOwned, JobFiles;
    OwnFiles(tools, st, step);
    Bookkeeping(tools, st, step);
    hide Next, Same, AllSlotFiles, AllDoneFiles, DoneApart;
    var next := Next(tools, st, step);
    forall i | i in next.jobs
      ensures JobFiles(tools, next.files, next.jobs[i])
    {
      if i != step.id {
        OthersSame(tools, st, step, st.jobs[i].save.slot);
        JobFilesSame(tools, st.files, next.files, st.jobs[i]);
      }
    }
  }

  lemma {:induction false} DoneFilesStep(tools: Tools, st: State, step: Step)
    requires Inv(tools, st) && Enabled(st, step) && Fresh(st, step)
    ensures var next := Next(tools, st, step); AllDoneFiles(tools, next.files, next.done)
  {
    hide SlotFiles, AllOwned, DoneFiles, JobFiles;
    OwnFiles(tools, st, step);
    Bookkeeping(tools, st, step);
    hide Next, Same, AllSlotFiles, AllJobFiles;
    var next := Next(tools, st, step);
    forall k | 0 <= k < |st.done|
      ensures DoneFiles(tools, next.files, st.done[k])
    {
      OthersSame(tools, st, step, st.done[k].slot);
      DoneFilesSame(tools, st.files, next.files, st.done[k]);
    }
  }

  /** MAIN: every step of every save, finished or crashed, keeps the registry consistent. */
  lemma {:induction false} StepInv(tools: Tools, st: State, step: Step)
    requires Inv(tools, st) && Enabled(st, step) && Fresh(st, step)
    ensures Inv(tools, Next(tools, st, step))
  {
    hide Next, JobsApart, DoneApart, NotDone, AllOwned, SlotFiles, AllJobFiles, AllDoneFiles;
    JobsApartStep(tools, st, step);
    DoneApartStep(tools, st, step);
    NotDoneStep(tools, st, step);
    OwnedStep(tools, st, step);
    JobFilesStep(tools, st, step);
    DoneFilesStep(tools, st, step);
    forall slot: Slot
      ensures SlotFiles(Next(tools, st, step).files, Next(tools, st, step).done, Next(tools, st, step).begun, slot)
    {
      SlotFilesStep(tools, st, step, slot);
    }
  }

  lemma InitInv(tools: Tools)
    ensures Inv(tools, INIT)
  {
  }

  /** A run: every step is possible, and no timestamp is used twice. */
  predicate Legal(tools: Tools, st: State, steps: seq<Step>)
    decreases |steps|
  {
    steps == [] || (Enabled(st, steps[0]) && Fresh(st, steps[0]) && Legal(tools, Next(tools, st, steps[0]), steps[1..]))
  }

  function Run(tools: Tools, st: State, steps: seq<Step>): State
    requires Legal(tools, st, steps)
    decreases |steps|
  {
    if steps == [] then st else Run(tools, Next(tools, st, steps[0]), steps[1..])
  }

  lemma {:induction false} RunInv(tools: Tools, st: State, steps: seq<Step>)
    requires Inv(tools, st) && Legal(tools, st, steps)
    ensures Inv(tools, Run(tools, st, steps))
    decreases |steps|
  {
    hide Inv, Next;
    if steps != [] {
      StepInv(tools, st, steps[0]);
      RunInv(tools, Next(tools, st, steps[0]), steps[1..]);
    }
  }

  // ---------------------------------------------------------------- what `latest` finds

  /** A manifest in `place` that `latest` accepts: it parses, is of the asked kind, and its
      artifact exists. */
  predicate Usable(files: Files, place: Place, kind: Option<Kind>, p: Path) {
    && p.place == place && IsManifestName(p.name)
    && p in files && files[p].Manifest? && files[p].meta.Some?
    && (kind.Some? ==> files[p].meta.value.kind == KindName(kind.value))
    && ArtifactOf(p) in files
  }

  /** The first usable manifest in descending name order. */
  ghost predicate IsLatest(files: Files, place: Place, kind: Option<Kind>, found: Option<Path>) {
    match found
    case None => forall p :: !Usable(files, place, kind, p)
    case Some(p) => Usable(files, place, kind, p)
                    && forall q :: Usable(files, place, kind, q) ==> q == p || Before(q.name, p.name)
  }

  predicate Of(save: Save, place: Place, kind: Kind) {
    save.slot.place == place && save.slot.kind == kind
  }

  predicate Has(done: seq<Save>, place: Place, kind: Kind) {
    exists k :: 0 <= k < |done| && Of(done[k], place, kind)
  }

  /** `save` is the newest complete save of its place and kind. */
  predicate NewestOf(done: seq<Save>, place: Place, kind: Kind, save: Save) {
    && save in done && Of(save, place, kind)
    && forall k :: 0 <= k < |done| && Of(done[k], place, kind) ==>
        done[k] == save || Earlier(done[k].slot.at, save.slot.at)
  }

  /** What the registry promises: the newest complete save of the asked kind; without a kind, the
      newest Prophet before any ARIMA. */
  predicate IsNewest(done: seq<Save>, place: Place, kind: Option<Kind>, save: Option<Save>) {
    match save
    case None => forall k: Kind :: (kind.Some? ==> k == kind.value) ==> !Has(done, place, k)
    case Some(d) =>
      if kind.Some? then NewestOf(done, place, kind.value, d)
      else NewestOf(done, place, Prophet, d) || (!Has(done, place, Prophet) && NewestOf(done, place, Arima, d))
  }

  lemma {:induction false} UsableIffDone(tools: Tools, st: State, place: Place, kind: Option<Kind>, p: Path)
    requires Inv(tools, st)
    ensures Usable(st.files, place, kind, p) <==>
            exists k :: 0 <= k < |st.done| && ManifestPath(st.done[k].slot) == p && st.done[k].slot.place == place
                        && (kind.Some? ==> st.done[k].slot.kind == kind.value)
  {
    hide ManifestPath, ArtifactPath, ArtifactOf, IsManifestName, AllJobFiles, JobsApart, DoneApart, NotDone;
    if Usable(st.files, place, kind, p) {
      assert Owned(p, st.begun);
      var slot :| slot in st.begun && (p == ArtifactPath(slot) || p == ManifestPath(slot));
      NamesInvert(slot);
      PlaceOf(slot);
      assert SlotFiles(st.files, st.done, st.begun, slot);
      var k :| 0 <= k < |st.done| && st.done[k].slot == slot;
      KindNamesDiffer(slot.kind);
    }
    forall k | 0 <= k < |st.done| && ManifestPath(st.done[k].slot) == p && st.done[k].slot.place == place
               && (kind.Some? ==> st.done[k].slot.kind == kind.value)
      ensures Usable(st.files, place, kind, p)
    {
      NamesInvert(st.done[k].slot);
      PlaceOf(st.done[k].slot);
    }
  }

  lemma KindNamesDiffer(a: Kind)
    ensures forall b: Kind :: KindName(a) == KindName(b) <==> a == b
  {
    assert KindName(Prophet)[0] != KindName(Arima)[0];
  }

  function PathOf(save: Option<Save>): Option<Path> {
    match save case None => None case Some(d) => Some(ManifestPath(d.slot))
  }

  lemma {:induction false} NewestIsLatest(tools: Tools, st: State, place: Place, kind: Option<Kind>, save: Option<Save>)
    requires Inv(tools, st) && IsNewest(st.done, place, kind, save)
    ensures IsLatest(st.files, place, kind, PathOf(save))
  {
    hide Inv, Usable, ManifestPath, Earlier, Before;
    forall q: Path
      ensures Usable(st.files, place, kind, q) ==>
              save.Some? && (q == ManifestPath(save.value.slot) || Before(q.name, ManifestPath(save.value.slot).name))
    {
      UsableIffDone(tools, st, place, kind, q);
      if Usable(st.files, place, kind, q) {
        var k :| 0 <= k < |st.done| && ManifestPath(st.done[k].slot) == q && st.done[k].slot.place == place
                 && (kind.Some? ==> st.done[k].slot.kind == kind.value);
        assert Of(st.done[k], place, st.done[k].slot.kind);
        assert Has(st.done, place, st.done[k].slot.kind);
        assert save.Some?;
        ManifestOrder(st.done[k].slot, save.value.slot);
      }
    }
    if save.Some? {
      UsableIffDone(tools, st, place, kind, ManifestPath(save.value.slot));
    }
  }

  lemma {:induction false} LatestExists(tools: Tools, st: State, place: Place, kind: Option<Kind>, p: Path)
    requires Inv(tools, st) && IsLatest(st.files, place, kind, Some(p))
    ensures exists k :: 0 <= k < |st.done| && ManifestPath(st.done[k].slot) == p
                        && IsNewest(st.done, place, kind, Some(st.done[k]))
  {
    hide Inv, Usable, ManifestPath, Earlier, Before;
    UsableIffDone(tools, st, place, kind, p);
    var k :| 0 <= k < |st.done| && ManifestPath(st.done[k].slot) == p && st.done[k].slot.place == place
             && (kind.Some? ==> st.done[k].slot.kind == kind.value);
    var d := st.done[k];
    forall l | 0 <= l < |st.done| && st.done[l].slot.place == place
        && (kind.Some? ==> st.done[l].slot.kind == kind.value)
      ensures st.done[l].slot == d.slot || (st.done[l].slot.kind == d.slot.kind
                                            && Earlier(st.done[l].slot.at, d.slot.at))
              || (st.done[l].slot.kind == Arima && d.slot.kind == Prophet)
    {
      var q := ManifestPath(st.done[l].slot);
      UsableIffDone(tools, st, place, kind, q);
      PathsDistinct(st.done[l].slot, d.slot);
      ManifestOrder(st.done[l].slot, d.slot);
    }
    SameSlotSameSave(tools, st);
  }

  lemma SameSlotSameSave(tools: Tools, st: State)
    requires Inv(tools, st)
    ensures forall k, l :: 0 <= k < |st.done| && 0 <= l < |st.done| && st.done[k].slot == st.done[l].slot
                           ==> st.done[k] == st.done[l]
  {
  }

  /** MAIN: after any interleaving of saves and crashes, what `latest` finds on disk is exactly the
      newest save that has completed; partly written saves are never seen. */
  lemma {:induction false} LatestIffNewest(tools: Tools, st: State, place: Place, kind: Option<Kind>,
                                           found: Option<Path>)
    requires Inv(tools, st)
    ensures IsLatest(st.files, place, kind, found) <==>
            exists save :: IsNewest(st.done, place, kind, save) && found == PathOf(save)
  {
    hide Inv, Usable, ManifestPath, Earlier, Before;
    if IsLatest(st.files, place, kind, found) {
      match found
      case None =>
        forall l | 0 <= l < |st.done| && st.done[l].slot.place == place
          ensures kind.Some? && st.done[l].slot.kind != kind.value
        {
          UsableIffDone(tools, st, place, kind, ManifestPath(st.done[l].slot));
        }
        assert IsNewest(st.done, place, kind, None);
        assert PathOf(None) == found;
      case Some(p) =>
        LatestExists(tools, st, place, kind, p);
        var k :| 0 <= k < |st.done| && ManifestPath(st.done[k].slot) == p
                 && IsNewest(st.done, place, kind, Some(st.done[k]));
        assert PathOf(Some(st.done[k])) == found;
    }
    forall save | IsNewest(st.done, place, kind, save) && found == PathOf(save)
      ensures IsLatest(st.files, place, kind, found)
    {
      NewestIsLatest(tools, st, place, kind, save);
    }
  }

  /** MAIN: until the last write of its manifest a save changes nothing that `latest` can see,
      wherever it stops. */
  lemma {:induction false} PartialSavesAreInvisible(tools: Tools, st: State, step: Step, place: Place,
                                                    kind: Option<Kind>, found: Option<Path>)
    requires Inv(tools, st) && Enabled(st, step) && Fresh(st, step) && !step.FinishManifest?
    ensures IsLatest(Next(tools, st, step).files, place, kind, found) <==> IsLatest(st.files, place, kind, found)
  {
    StepInv(tools, st, step);
    Bookkeeping(tools, st, step);
    hide Inv, Next, IsLatest, IsNewest;
    LatestIffNewest(tools, st, place, kind, found);
    LatestIffNewest(tools, Next(tools, st, step), place, kind, found);
  }

  // ---------------------------------------------------------------- loading

  datatype Ref = Ref(artifact: Path, manifest: Path, meta: Meta)

  /** `load`: the bytes must still have the hash of the manifest. */
  function Load(tools: Tools, files: Files, ref: Ref): Result<Model> {
    if ref.artifact !in files || tools.sha(BytesOf(files[ref.artifact])) != ref.meta.sha then Raised
    else
      match tools.undump(BytesOf(files[ref.artifact]))
      case None => Raised
      case Some(model) => Ok(model)
  }

  function RefTo(tools: Tools, save: Save): Ref {
    Ref(ArtifactPath(save.slot), ManifestPath(save.slot), CompleteMeta(tools, save))
  }

  /** What `latest` returns: the reference read from the manifest it found. */
  ghost predicate Finds(files: Files, place: Place, kind: Option<Kind>, ref: Option<Ref>) {
    match ref
    case None => IsLatest(files, place, kind, None)
    case Some(r) => IsLatest(files, place, kind, Some(r.manifest)) && r.artifact == ArtifactOf(r.manifest)
                    && r.manifest in files && files[r.manifest] == Manifest(Some(r.meta))
  }

  /** What a manifest says of its save: the workspace and metric, the kind by name, the time in ISO
      form, the hash of the artifact, the error measure and the training window. */
  predicate Describes(tools: Tools, meta: Meta, save: Save) {
    && meta.place == save.slot.place && meta.kind == (if save.slot.kind == Arima then "arima" else "prophet")
    && meta.fittedAt == IsoFormat(save.slot.at) && meta.sha == tools.sha(tools.dump(save.model))
    && meta.mape == save.mape && meta.windowDays == save.windowDays
  }

  lemma MetaDescribes(tools: Tools, save: Save)
    ensures Describes(tools, CompleteMeta(tools, save), save)
  {
  }

  /** MAIN: the reference `latest` returns is that of the newest complete save, field by field. */
  lemma {:induction false} FindsNewest(tools: Tools, st: State, place: Place, kind: Option<Kind>, ref: Option<Ref>)
    requires Inv(tools, st) && Finds(st.files, place, kind, ref)
    ensures ref.None? ==> IsNewest(st.done, place, kind, None)
    ensures ref.Some? ==> exists k :: 0 <= k < |st.done| && IsNewest(st.done, place, kind, Some(st.done[k]))
                                      && ref.value == RefTo(tools, st.done[k])
                                      && Describes(tools, ref.value.meta, st.done[k])
  {
    hide IsLatest, IsNewest, ManifestPath, ArtifactPath, ArtifactOf, CompleteMeta;
    hide AllOwned, AllSlotFiles, JobsApart, DoneApart, NotDone, AllJobFiles;
    match ref
    case None =>
      LatestIffNewest(tools, st, place, kind, None);
    case Some(r) =>
      LatestExists(tools, st, place, kind, r.manifest);
      var k :| 0 <= k < |st.done| && ManifestPath(st.done[k].slot) == r.manifest
               && IsNewest(st.done, place, kind, Some(st.done[k]));
      assert DoneFiles(tools, st.files, st.done[k]);
      NamesInvert(st.done[k].slot);
      MetaDescribes(tools, st.done[k]);
  }

  /** MAIN: a completed save loads back exactly the saved model, and with a collision-free hash it
      does so if and only if its artifact was left untouched. */
  lemma {:induction false} LoadsIffUntouched(tools: Tools, st: State, k: nat, bytes: string)
    requires Inv(tools, st) && RoundTrips(tools) && k < |st.done|
    requires tools.sha(bytes) == tools.sha(tools.dump(st.done[k].model)) ==> bytes == tools.dump(st.done[k].model)
    ensures Load(tools, st.files, RefTo(tools, st.done[k])) == Ok(st.done[k].model)
    ensures var later := st.files[ArtifactPath(st.done[k].slot) := Artifact(bytes)];
            Load(tools, later, RefTo(tools, st.done[k])) ==
              (if bytes == tools.dump(st.done[k].model) then Ok(st.done[k].model) else Raised)
  {
    hide ArtifactPath, ManifestPath, AllOwned, AllSlotFiles, JobsApart, DoneApart, NotDone, AllJobFiles;
    assert DoneFiles(tools, st.files, st.done[k]);
  }

  /** MAIN: without its artifact a complete save is passed over, and nothing else is: the usable
      manifests are those of the other saves. */
  lemma {:induction false} MissingArtifactHidesOne(tools: Tools, st: State, k: nat, place: Place, kind: Option<Kind>,
                                                   p: Path)
    requires Inv(tools, st) && k < |st.done|
    ensures Usable(st.files - {ArtifactPath(st.done[k].slot)}, place, kind, p) <==>
            Usable(st.files, place, kind, p) && p != ManifestPath(st.done[k].slot)
  {
    hide ManifestPath, ArtifactPath, ArtifactOf, IsManifestName, Inv;
    UsableIffDone(tools, st, place, kind, p);
    NamesInvert(st.done[k].slot);
    forall l | 0 <= l < |st.done|
      ensures ArtifactOf(ManifestPath(st.done[l].slot)) == ArtifactPath(st.done[l].slot)
      ensures ManifestPath(st.done[l].slot) != ArtifactPath(st.done[k].slot)
      ensures ArtifactPath(st.done[l].slot) == ArtifactPath(st.done[k].slot) <==>
              ManifestPath(st.done[l].slot) == ManifestPath(st.done[k].slot)
    {
      NamesInvert(st.done[l].slot);
      PathsDistinct(st.done[k].slot, st.done[l].slot);
      PathsDistinct(st.done[l].slot, st.done[k].slot);
    }
  }

  // ---------------------------------------------------------------- the module as code

  function InsertDown(name: string, names: seq<string>): (r: seq<string>)
    ensures forall n :: n in r <==> n == name || n in names
  {
    if names == [] then [name]
    else if Before(names[0], name) then [name] + names
    else [names[0]] + InsertDown(name, names[1..])
  }

  predicate Descending(names: seq<string>) {
    forall i, j :: 0 <= i < j < |names| ==> Before(names[j], names[i])
  }

  lemma {:induction false} InsertDownSorts(name: string, names: seq<string>)
    requires Descending(names) && name !in names
    ensures Descending(InsertDown(name, names))
  {
    hide Before;
    if names == [] {
    } else if Before(names[0], name) {
      forall j | 0 <= j < |names|
        ensures Before(names[j], name)
      {
        if j > 0 { BeforeTransitive(names[j], names[0], name); }
      }
    } else {
      BeforeTotal(names[0], name);
      InsertDownSorts(name, names[1..]);
      forall n | n in InsertDown(name, names[1..])
        ensures Before(n, names[0])
      {
      }
    }
  }

  /** `sorted(..., reverse=True)`. */
  method SortedDescending(names: set<string>) returns (r: seq<string>)
    ensures Descending(r) && forall n :: n in r <==> n in names
  {
    r := [];
    var left := names;
    while left != {}
      invariant left <= names && Descending(r)
      invariant forall n :: n in r <==> n in names && n !in left
      decreases |left|
    {
      var name :| name in left;
      InsertDownSorts(name, r);
      r := InsertDown(name, r);
      left := left - {name};
    }
  }

  /** The files after an uninterrupted save. */
  function Saved(tools: Tools, files: Files, save: Save): Files {
    files[ArtifactPath(save.slot) := Artifact(tools.dump(save.model))]
         [ManifestPath(save.slot) := Manifest(Some(CompleteMeta(tools, save)))]
  }

  class ModelRegistry {
    const tools: Tools
    var files: Files

    constructor (tools: Tools)
      ensures this.tools == tools && files == map[]
    {
      this.tools := tools;
      files := map[];
    }

    /** `_sha256_of`: the hash absorbs the file in chunks. */
    method Sha256Of(path: Path) returns (digest: Option<string>)
      ensures digest == (if path in files then Some(tools.sha(BytesOf(files[path]))) else None)
    {
      if path !in files {
        return None;
      }
      var bytes, absorbed := BytesOf(files[path]), "";
      var at := 0;
      while at < |bytes|
        invariant 0 <= at <= |bytes| && absorbed == bytes[..at]
      {
        var size := Min(65_536, |bytes| - at);
        var chunk := bytes[at..at + size];
        absorbed := absorbed + chunk;
        at := at + size;
        assert absorbed == bytes[..at];
      }
      assert absorbed == bytes;
      return Some(tools.sha(absorbed));
    }

    /** `save`, when nothing interrupts it: both files are written, the manifest last, and no
        other file is touched. */
    method Save(save: Save) returns (ref: Ref)
      modifies this
      ensures ref == RefTo(tools, save) && Describes(tools, ref.meta, save)
      ensures files == Saved(tools, old(files), save)
    {
      hide ArtifactPath, ManifestPath;
      var artifact, manifest := ArtifactPath(save.slot), ManifestPath(save.slot);
      files := files[artifact := Artifact(tools.dump(save.model))];
      var digest := Sha256Of(artifact);
      var meta := MetaOf(save, digest.value);
      files := files[manifest := Manifest(None)];
      files := files[manifest := Manifest(Some(meta))];
      return Ref(artifact, manifest, meta);
    }

    /** `latest`: the manifests of the directory in descending name order, the first usable one. */
    method Latest(place: Place, kind: Option<Kind>) returns (ref: Option<Ref>)
      ensures Finds(files, place, kind, ref)
    {
      hide ArtifactOf, Before, IsManifestName;
      var names := set p | p in files && p.place == place && IsManifestName(p.name) :: p.name;
      var candidates := SortedDescending(names);
      var i := 0;
      while i < |candidates|
        invariant 0 <= i <= |candidates|
        invariant forall j :: 0 <= j < i ==> !Usable(files, place, kind, Path(place, candidates[j]))
      {
        var manifest := Path(place, candidates[i]);
        i := i + 1;
        assert candidates[i - 1] in names;
        var file := files[manifest];
        if !file.Manifest? || file.meta.None? {
          continue;
        }
        var meta := file.meta.value;
        if kind.Some? && meta.kind != KindName(kind.value) {
          continue;
        }
        var artifact := ArtifactOf(manifest);
        if artifact !in files {
          continue;
        }
        forall q | Usable(files, place, kind, q)
          ensures q == manifest || Before(q.name, manifest.name)
        {
          assert q.name in names && q.name in candidates;
        }
        return Some(Ref(artifact, manifest, meta));
      }
      forall q
        ensures !Usable(files, place, kind, q)
      {
        assert Usable(files, place, kind, q) ==> q.name in names;
        assert q.name in names <==> q.name in candidates;
      }
      return None;
    }
  }

  /** An uninterrupted `Save` is the five steps of a save in a row. */
  lemma {:induction false} SaveIsItsSteps(tools: Tools, st: State, id: nat, save: Save, part: string)
    requires id !in st.jobs && save.slot !in st.begun
    ensures var steps := [Begin(id, save, part), FinishDump(id), Hash(id), OpenManifest(id), FinishManifest(id)];
            && Legal(tools, st, steps)
            && var end := Run(tools, st, steps);
               && end.files == Saved(tools, st.files, save)
               && end.done == st.done + [save] && end.jobs == st.jobs
  {
    hide ArtifactPath, ManifestPath, Legal, Run, MetaOf;
    PathsDistinct(save.slot, save.slot);
    var s1 := Next(tools, st, Begin(id, save, part));
    var s2 := Next(tools, s1, FinishDump(id));
    var s3 := Next(tools, s2, Hash(id));
    var s4 := Next(tools, s3, OpenManifest(id));
    var s5 := Next(tools, s4, FinishManifest(id));
    FiveSteps(tools, [st, s1, s2, s3, s4, s5],
              [Begin(id, save, part), FinishDump(id), Hash(id), OpenManifest(id), FinishManifest(id)]);
    assert s5.jobs == st.jobs;
  }

  lemma {:induction false} FiveSteps(tools: Tools, states: seq<State>, steps: seq<Step>)
    requires |steps| == 5 && |states| == 6
    requires forall i :: 0 <= i < 5 ==> Enabled(states[i], steps[i]) && Fresh(states[i], steps[i])
                                        && states[i + 1] == Next(tools, states[i], steps[i])
    ensures Legal(tools, states[0], steps) && Run(tools, states[0], steps) == states[5]
  {
    hide Enabled, Fresh, Next;
    assert steps[4..][1..] == [] && steps[3..][1..] == steps[4..] && steps[2..][1..] == steps[3..];
    assert steps[1..][1..] == steps[2..];
    assert Legal(tools, states[4], steps[4..]) && Run(tools, states[4], steps[4..]) == states[5];
    assert Legal(tools, states[3], steps[3..]) && Run(tools, states[3], steps[3..]) == states[5];
    assert Legal(tools, states[2], steps[2..]) && Run(tools, states[2], steps[2..]) == states[5];
    assert Legal(tools, states[1], steps[1..]) && Run(tools, states[1], steps[1..]) == states[5];
  }
}

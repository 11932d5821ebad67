/** `latest` of the model registry (forecast/app/services/registry.py) as it runs beside saves in
    other threads: one listing of the directory, then one manifest after the other. */
module Lookup {
  import opened Prelude
  import opened Text
  import opened RegistryNames
  import opened Registry

  /** A save the request may be answered with. */
  predicate Fits(save: Save, place: Place, kind: Option<Kind>) {
    save.slot.place == place && (kind.Some? ==> save.slot.kind == kind.value)
  }

  /** The order in which `latest` prefers: any Prophet to any ARIMA, then the newer one. */
  predicate Precedes(a: Slot, b: Slot) {
    (a.kind == Arima && b.kind == Prophet) || (a.kind == b.kind && Earlier(a.at, b.at))
  }

  /** No save of `done` is preferred to `slot`. */
  predicate NoneBetter(done: seq<Save>, place: Place, kind: Option<Kind>, slot: Slot) {
    forall l :: 0 <= l < |done| && Fits(done[l], place, kind) ==> done[l].slot == slot || Precedes(done[l].slot, slot)
  }

  /** Manifests of one directory in descending name order. */
  predicate DescendingPaths(left: seq<Path>, place: Place) {
    && (forall i :: 0 <= i < |left| ==> left[i].place == place)
    && (forall i, j :: 0 <= i < j < |left| ==> Before(left[j].name, left[i].name))
  }

  /** `sorted(d.glob("*.manifest.json"), reverse=True)`. */
  ghost predicate Listing(files: Files, place: Place, left: seq<Path>) {
    && DescendingPaths(left, place)
    && (forall p :: p in left <==> p in files && p.place == place && IsManifestName(p.name))
  }

  /** Every save of `start` is still among the manifests to try. */
  predicate Covers(left: seq<Path>, start: seq<Save>, place: Place, kind: Option<Kind>) {
    forall l :: 0 <= l < |start| && Fits(start[l], place, kind) ==> ManifestPath(start[l].slot) in left
  }

  function RefOf(files: Files, place: Place, kind: Option<Kind>, p: Path): Ref
    requires Usable(files, place, kind, p)
  {
    Ref(ArtifactOf(p), p, files[p].meta.value)
  }

  lemma {:induction false} ListingCovers(tools: Tools, st: State, place: Place, kind: Option<Kind>, left: seq<Path>)
    requires Inv(tools, st) && Listing(st.files, place, left)
    ensures Covers(left, st.done, place, kind)
  {
    hide Inv, ManifestPath, IsManifestName, Before, ArtifactOf;
    forall l | 0 <= l < |st.done| && Fits(st.done[l], place, kind)
      ensures ManifestPath(st.done[l].slot) in left
    {
      UsableIffDone(tools, st, place, kind, ManifestPath(st.done[l].slot));
    }
  }

  /** A manifest that can be used when it is read is that of a save complete by then, and no save
      that was complete at the listing is preferred to it. */
  lemma {:induction false} UsableIsNoOlder(tools: Tools, st: State, start: seq<Save>, place: Place, kind: Option<Kind>,
                                           left: seq<Path>) returns (k: nat)
    requires Inv(tools, st) && DescendingPaths(left, place) && Covers(left, start, place, kind)
    requires left != [] && Usable(st.files, place, kind, left[0])
    ensures k < |st.done| && Fits(st.done[k], place, kind) && NoneBetter(start, place, kind, st.done[k].slot)
    ensures RefOf(st.files, place, kind, left[0]) == RefTo(tools, st.done[k])
  {
    hide ManifestPath, ArtifactPath, ArtifactOf, Before, Earlier, CompleteMeta, IsManifestName;
    UsableIffDone(tools, st, place, kind, left[0]);
    k :| 0 <= k < |st.done| && ManifestPath(st.done[k].slot) == left[0] && st.done[k].slot.place == place
         && (kind.Some? ==> st.done[k].slot.kind == kind.value);
    assert DoneFiles(tools, st.files, st.done[k]);
    NamesInvert(st.done[k].slot);
    hide Inv, Usable, DoneFiles;
    forall l | 0 <= l < |start| && Fits(start[l], place, kind)
      ensures start[l].slot == st.done[k].slot || Precedes(start[l].slot, st.done[k].slot)
    {
      var i :| 0 <= i < |left| && left[i] == ManifestPath(start[l].slot);
      PathsDistinct(start[l].slot, st.done[k].slot);
      ManifestOrder(start[l].slot, st.done[k].slot);
    }
  }

  /** A manifest that cannot be used belongs to no save that was complete at the listing. */
  lemma {:induction false} SkippedIsNotDone(tools: Tools, st: State, start: seq<Save>, place: Place,
                                            kind: Option<Kind>, left: seq<Path>)
    requires Inv(tools, st) && start <= st.done && DescendingPaths(left, place) && Covers(left, start, place, kind)
    requires left != [] && !Usable(st.files, place, kind, left[0])
    ensures DescendingPaths(left[1..], place) && Covers(left[1..], start, place, kind)
  {
    hide Inv, ManifestPath, Usable, Before;
    forall l | 0 <= l < |start| && Fits(start[l], place, kind)
      ensures ManifestPath(start[l].slot) in left[1..]
    {
      UsableIffDone(tools, st, place, kind, left[0]);
      assert st.done[l] == start[l];
      var i :| 0 <= i < |left| && left[i] == ManifestPath(start[l].slot);
      assert i != 0;
      assert left[1..][i - 1] == left[i];
    }
  }

  lemma {:induction false} NothingToTry(start: seq<Save>, place: Place, kind: Option<Kind>)
    requires Covers([], start, place, kind)
    ensures IsNewest(start, place, kind, None)
  {
    hide ManifestPath;
    forall l | 0 <= l < |start| && start[l].slot.place == place
      ensures kind.Some? && start[l].slot.kind != kind.value
    {
      assert ManifestPath(start[l].slot) !in [];
    }
  }

  /** If nothing completes during the lookup, what it finds is the newest complete save. */
  lemma {:induction false} QuietLookupIsNewest(tools: Tools, st: State, place: Place, kind: Option<Kind>, k: nat)
    requires Inv(tools, st) && k < |st.done|
    requires Fits(st.done[k], place, kind) && NoneBetter(st.done, place, kind, st.done[k].slot)
    ensures IsNewest(st.done, place, kind, Some(st.done[k]))
  {
    hide Inv, Earlier;
    SameSlotSameSave(tools, st);
    var d := st.done[k];
    forall l | 0 <= l < |st.done| && Of(st.done[l], place, d.slot.kind)
      ensures st.done[l] == d || Earlier(st.done[l].slot.at, d.slot.at)
    {
      assert Fits(st.done[l], place, kind);
    }
    assert NewestOf(st.done, place, d.slot.kind, d);
    if kind.None? && d.slot.kind == Arima {
      forall l | 0 <= l < |st.done|
        ensures !Of(st.done[l], place, Prophet)
      {
        assert Fits(st.done[l], place, kind) ==> st.done[l].slot == d.slot || Precedes(st.done[l].slot, d.slot);
      }
    }
  }

  /** MAIN: beside two other saves a lookup can do worse: with the manifests of an older save `a`
      and a newer save `b` both under way, it can skip `b`, and after first `b` and then `a` have
      completed accept `a`, although `a` was at no moment the newest complete save. */
  lemma {:induction false} LookupCanMissNewer(tools: Tools, st: State, a: Save, b: Save, i: nat, j: nat,
                                              first: State, second: State)
    requires Inv(tools, st) && AboutToFinish(st, i, a) && AboutToFinish(st, j, b)
    requires a.slot.place == b.slot.place && a.slot.kind == b.slot.kind && Earlier(a.slot.at, b.slot.at)
    requires Enabled(st, FinishManifest(j)) && first == Next(tools, st, FinishManifest(j))
    requires Enabled(first, FinishManifest(i)) && second == Next(tools, first, FinishManifest(i))
    ensures var place, kind := a.slot.place, Some(a.slot.kind);
            && Before(ManifestPath(a.slot).name, ManifestPath(b.slot).name)
            && !Usable(st.files, place, kind, ManifestPath(b.slot))
            && Usable(second.files, place, kind, ManifestPath(a.slot))
            && !IsNewest(st.done, place, kind, Some(a))
            && !IsNewest(first.done, place, kind, Some(a))
            && !IsNewest(second.done, place, kind, Some(a))
  {
    hide Inv, ManifestPath, ArtifactPath, MetaOf, Earlier, Usable, Before;
    var place, kind := a.slot.place, Some(a.slot.kind);
    EarlierTotal(a.slot.at, b.slot.at);
    ManifestOrder(a.slot, b.slot);
    NotUsableYet(tools, st, j, b, kind);
    StepInv(tools, st, FinishManifest(j));
    StepInv(tools, first, FinishManifest(i));
    NotDoneYet(tools, st, i, a);
    Bookkeeping(tools, st, FinishManifest(j));
    Bookkeeping(tools, first, FinishManifest(i));
    hide Next;
    UsableIffDone(tools, second, place, kind, ManifestPath(a.slot));
    assert first.done == st.done + [b] && second.done == st.done + [b] + [a];
    assert second.done[|st.done| + 1] == a && second.done[|st.done|] == b;
    assert Of(b, place, kind.value);
  }

  /** Save `a` is running as job `i` and has opened its manifest. */
  predicate AboutToFinish(st: State, i: nat, a: Save) {
    i in st.jobs && st.jobs[i].save == a && st.jobs[i].phase.Writing?
  }

  lemma NotDoneYet(tools: Tools, st: State, i: nat, a: Save)
    requires Inv(tools, st) && AboutToFinish(st, i, a)
    ensures a !in st.done
  {
  }

  lemma NotUsableYet(tools: Tools, st: State, j: nat, b: Save, kind: Option<Kind>)
    requires Inv(tools, st) && AboutToFinish(st, j, b)
    ensures !Usable(st.files, b.slot.place, kind, ManifestPath(b.slot))
  {
    hide ManifestPath, ArtifactPath, ArtifactOf, IsManifestName, AllOwned, AllSlotFiles, AllDoneFiles;
    assert JobFiles(tools, st.files, st.jobs[j]);
  }
}

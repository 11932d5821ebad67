/** What the consumer protocol guarantees about the `events` table, over every run. */
module Delivery {
  import opened Events
  import opened EventStore
  import opened ConsumerProtocol

  /** Every well-formed message is below its partition's committed offset. */
  ghost predicate Drained(s: State)
    requires |s.committed| == |s.log|
  {
    forall p, o :: Good(s.log, p, o) ==> o < s.committed[p]
  }

  ghost predicate AllTimed(env: Env, log: seq<seq<Message>>) {
    forall p, o :: Good(log, p, o) ==> Timed(env, log[p][o])
  }

  /** Message (p, o) of the log has sort key `k`. */
  predicate HasKey(env: Env, log: seq<seq<Message>>, p: int, o: int, k: SortKey) {
    Good(log, p, o) && KeyOf(RowAt(env, log[p][o], 0)) == k
  }

  /** The rows a reader sees, after replacement. */
  function VisibleRows(t: seq<Stored>): map<SortKey, Row> {
    map k | k in View(t) :: View(t)[k].entry.row
  }

  /** Some run of the pipeline, from empty partitions and an empty table, ends in `s`. */
  ghost predicate Reachable(env: Env, s: State) {
    exists partitions, steps :: s == Run(env, Init(partitions), steps)
  }

  lemma {:induction false} ReachableInv(env: Env, s: State)
    requires Reachable(env, s)
    ensures Inv(env, s) && |s.committed| == |s.log|
  {
    var partitions, steps :| s == Run(env, Init(partitions), steps);
    InitInv(env, partitions);
    RunInv(env, Init(partitions), steps);
  }

  // ---------------------------------------------------------------- offsets

  lemma {:induction false} FlushNeverRewinds(env: Env, s: State, a: Attempt, p: nat)
    requires Inv(env, s) && s.worker.Up? && p < |s.log|
    ensures FlushState(s, a).log == s.log && |FlushState(s, a).committed| == |s.log|
    ensures s.committed[p] <= FlushState(s, a).committed[p] <= s.worker.position[p]
  {
    hide BufferExact, Routed, RowAt, EnrichRow;
    if s.worker.buffer != [] && p in s.worker.pending {
      LoadedIsExact(env, s);
      assert InFlight(s.committed, s.worker.position, p, s.worker.pending[p]);
    }
  }

  lemma {:induction false} StepNeverRewinds(env: Env, s: State, step: Step, p: nat)
    requires Inv(env, s) && p < |s.log|
    ensures |Next(env, s, step).log| == |s.log|
    ensures |Next(env, s, step).committed| == |s.log|
    ensures s.committed[p] <= Next(env, s, step).committed[p]
  {
    hide BufferExact, PendingExact, Routed, RowAt, EnrichRow, FlushState;
    StepInv(env, s, step);
    if s.worker.Up? {
      match step
      case Flush(a) => FlushNeverRewinds(env, s, a, p);
      case Finish(a) => FlushNeverRewinds(env, s, a, p);
      case _ =>
    }
  }

  /** No run ever moves a committed offset back. */
  lemma {:induction false} CommitsNeverRewind(env: Env, s: State, steps: seq<Step>, p: nat)
    requires Inv(env, s) && p < |s.log|
    ensures |s.committed| == |Run(env, s, steps).committed| == |s.log|
    ensures s.committed[p] <= Run(env, s, steps).committed[p]
    decreases |steps|
  {
    hide Next;
    if steps != [] {
      StepInv(env, s, steps[0]);
      StepNeverRewinds(env, s, steps[0], p);
      CommitsNeverRewind(env, Next(env, s, steps[0]), steps[1..], p);
    }
  }

  /** MAIN: in every reachable state a message below the committed offset is in the table, so
      neither failures nor malformed neighbours lose it. */
  lemma {:induction false} CommittedIsStored(env: Env, s: State, p: nat, o: nat)
    requires Reachable(env, s) && Good(s.log, p, o)
    ensures p < |s.committed| && (o < s.committed[p] ==> InTable(s.table, p, o))
  {
    ReachableInv(env, s);
  }

  /** MAIN: at every loop top the buffer and the pending offsets are exactly the well-formed
      messages in [committed, position) of each partition. */
  lemma {:induction false} LoopTopIsExact(env: Env, s: State)
    requires Reachable(env, s) && s.worker.Up? && !s.worker.failing
    ensures BufferExact(env, s.log, s.committed, s.worker.position, s.worker.buffer)
    ensures PendingExact(s.log, s.committed, s.worker.position, s.worker.pending)
  {
    ReachableInv(env, s);
  }

  // ---------------------------------------------------------------- the deduplicated view

  /** MAIN: in every reachable state the view shows a message with a parseable time at most
      once, however often it was inserted. */
  lemma {:induction false} NeverShownTwice(env: Env, s: State, i: nat, j: nat)
    requires Reachable(env, s) && i < |s.table| && j < |s.table|
    requires Visible(s.table, i) && Visible(s.table, j)
    requires s.table[i].entry.part == s.table[j].entry.part && s.table[i].entry.off == s.table[j].entry.off
    requires forall p, o :: Good(s.log, p, o) && p == s.table[i].entry.part && o == s.table[i].entry.off ==>
               Timed(env, s.log[p][o])
    ensures i == j
  {
    ReachableInv(env, s);
    var a, b := s.table[i].entry, s.table[j].entry;
    assert FromLog(env, s.log, a) && FromLog(env, s.log, b);
    RowFixed(env, s.log[a.part][a.off], a.now, b.now);
    assert Prefers(s.table, i, j) && Prefers(s.table, j, i);
  }

  /** Once everything is committed, the key of every timed message is in the table. */
  lemma {:induction false} KeyIsWritten(env: Env, s: State, p: int, o: int, k: SortKey)
    requires Inv(env, s) && Drained(s) && HasKey(env, s.log, p, o, k) && Timed(env, s.log[p][o])
    ensures LastWriter(s.table, k).Some? && o <= LastWriter(s.table, k).value.off
  {
    assert Current(env, s.log, s.table, p, o);
  }

  /** Once everything is committed, the last write of a key is the newest message that has it. */
  lemma {:induction false} WriterIsNewest(env: Env, s: State, k: SortKey)
    requires Inv(env, s) && Drained(s) && AllTimed(env, s.log) && LastWriter(s.table, k).Some?
    ensures var e := LastWriter(s.table, k).value;
            && HasKey(env, s.log, e.part, e.off, k) && Timed(env, s.log[e.part][e.off])
            && e.row == RowAt(env, s.log[e.part][e.off], 0)
            && forall p, o :: HasKey(env, s.log, p, o, k) ==> p == e.part && o <= e.off
  {
    hide RowAt, EnrichRow, Exact, LastWriter;
    var i := LastWriterAt(s.table, k);
    var e := s.table[i].entry;
    assert FromLog(env, s.log, e);
    RowFixed(env, s.log[e.part][e.off], e.now, 0);
    forall p, o | HasKey(env, s.log, p, o, k)
      ensures p == e.part && o <= e.off
    {
      SameKeySamePart(env, s.log, e, p, o, 0);
      KeyIsWritten(env, s, p, o, k);
    }
  }

  /** What one drained run shows under a key, another drained run of the same log shows too. */
  lemma {:induction false} DrainedKeyAgrees(env: Env, s: State, r: State, k: SortKey)
    requires Inv(env, s) && Inv(env, r) && s.log == r.log
    requires Drained(s) && Drained(r) && AllTimed(env, s.log)
    requires k in View(s.table)
    ensures k in View(r.table) && View(s.table)[k].entry.row == View(r.table)[k].entry.row
  {
    hide Exact, View, LastWriter, Shape, Routed, NoLoss, UpToDate, RowAt, EnrichRow, Timed;
    ViewIsLastWriter(s.table, k);
    WriterIsNewest(env, s, k);
    var e := LastWriter(s.table, k).value;
    KeyIsWritten(env, r, e.part, e.off, k);
    WriterIsNewest(env, r, k);
    ViewIsLastWriter(r.table, k);
    var f := LastWriter(r.table, k).value;
    assert HasKey(env, s.log, f.part, f.off, k);
  }

  /** MAIN: two runs that end with the same log and everything committed show the same rows,
      whatever failed on the way: in particular both show what a failure-free run shows. */
  lemma {:induction false} DrainedViewsAgree(env: Env, s: State, r: State)
    requires Inv(env, s) && Inv(env, r) && s.log == r.log
    requires Drained(s) && Drained(r) && AllTimed(env, s.log)
    ensures VisibleRows(s.table) == VisibleRows(r.table)
  {
    hide Inv, Drained, AllTimed, View;
    forall k
      ensures k in View(s.table) <==> k in View(r.table)
      ensures k in View(s.table) ==> View(s.table)[k].entry.row == View(r.table)[k].entry.row
    {
      if k in View(s.table) {
        DrainedKeyAgrees(env, s, r, k);
      }
      if k in View(r.table) {
        DrainedKeyAgrees(env, r, s, k);
      }
    }
  }

  /** The same for reachable states: `DrainedViewsAgree` with the invariant discharged. */
  lemma {:induction false} OutcomeIgnoresFailures(env: Env, s: State, r: State)
    requires Reachable(env, s) && Reachable(env, r) && s.log == r.log && AllTimed(env, s.log)
    requires |s.committed| == |s.log| && |r.committed| == |r.log| && Drained(s) && Drained(r)
    ensures VisibleRows(s.table) == VisibleRows(r.table)
  {
    hide Inv;
    ReachableInv(env, s);
    ReachableInv(env, r);
    DrainedViewsAgree(env, s, r);
  }

  // ---------------------------------------------------------------- recovery

  lemma {:induction false} TakeBatchMoves(env: Env, log: seq<seq<Message>>, w: Worker, p: nat, times: seq<int>)
    requires w.Up? && p < |log| == |w.position| && w.position[p] + |times| <= |log[p]|
    ensures TakeBatch(env, log, w, p, times).position == w.position[p := w.position[p] + |times|]
    ensures TakeBatch(env, log, w, p, times).failing == w.failing
    decreases |times|
  {
    if times != [] {
      TakeBatchMoves(env, log, TakeOne(env, log, w, p, times[0]), p, times[1..]);
    }
  }

  /** A clean flush at the end of the log leaves nothing uncommitted. */
  lemma {:induction false} CleanFlushDrains(env: Env, s: State)
    requires Inv(env, s) && s.worker.Up? && !s.worker.failing
    requires forall p :: 0 <= p < |s.log| ==> s.worker.position[p] == |s.log[p]|
    ensures var r := FlushState(s, Attempt(Inserted, Committed, 0));
            r.log == s.log && |r.committed| == |r.log| && Drained(r)
  {
    hide BufferExact, PendingExact, RowAt, EnrichRow, LastWriter;
    var r := FlushState(s, Attempt(Inserted, Committed, 0));
    forall p, o | Good(s.log, p, o)
      ensures o < r.committed[p]
    {
      if s.worker.buffer == [] {
        EmptyBufferNothingInFlight(env, s, p, o);
      } else {
        NothingInFlight(env, s, p, o);
      }
    }
  }

  lemma {:induction false} EmptyBufferNothingInFlight(env: Env, s: State, p: int, o: int)
    requires s.worker.Up? && Exact(env, s) && s.worker.buffer == [] && Good(s.log, p, o)
    ensures !InFlight(s.committed, s.worker.position, p, o)
  {
    assert InFlight(s.committed, s.worker.position, p, o) ==> Buffered(s.worker.buffer, p, o);
  }

  // ---------------------------------------------------------------- messages without a time

  predicate ShownTwice(t: seq<Stored>, p: int, o: int) {
    exists i, j :: 0 <= i < j < |t| && Visible(t, i) && Visible(t, j) &&
      t[i].entry.part == t[j].entry.part == p && t[i].entry.off == t[j].entry.off == o
  }

  /** Read `m` and insert it, fail to commit, restart, and read it again a millisecond later. */
  function RedeliverySteps(p: nat, m: Message): seq<Step> {
    [Append(p, m), Start, Poll([Batch(p, [0])]), Flush(Attempt(Inserted, CommitFailed({}), 0)),
     Crash, Start, Poll([Batch(p, [1000])]), Flush(Attempt(Inserted, Committed, 0))]
  }

  /** MAIN: redelivery can make the view show a well-formed message twice if and only if its
      `occurred_at` does not parse. */
  lemma {:induction false} RedeliveryDuplicatesIffUntimed(env: Env, m: Message)
    requires WellFormed(m)
    ensures var p := env.route(m.workspaceId.value);
            ShownTwice(Run(env, Init(p + 1), RedeliverySteps(p, m)).table, p, 0) <==> !Timed(env, m)
  {
    var p := env.route(m.workspaceId.value);
    var steps := RedeliverySteps(p, m);
    var s := Run(env, Init(p + 1), steps);
    RedeliveryRun(env, m);
    if Timed(env, m) {
      RowFixed(env, m, 0, 1000);
    } else {
      assert Visible(s.table, 0) && Visible(s.table, 1);
    }
  }

  lemma {:induction false} PollOne(env: Env, log: seq<seq<Message>>, w: Worker, p: nat, now: int)
    requires w.Up?
    ensures TakeAll(env, log, w, [Batch(p, [now])]) == TakeOne(env, log, w, p, now)
  {
    hide TakeOne;
    var b := Batch(p, [now]);
    assert [b][1..] == [] && [now][1..] == [];
    var one := TakeOne(env, log, w, p, now);
    assert TakeBatch(env, log, w, p, [now]) == TakeBatch(env, log, one, p, []) == one;
    assert TakeAll(env, log, w, [b]) == TakeAll(env, log, one, []) == one;
  }

  lemma {:induction false} RedeliveryRun(env: Env, m: Message)
    requires WellFormed(m)
    ensures var p := env.route(m.workspaceId.value);
            Run(env, Init(p + 1), RedeliverySteps(p, m)).table ==
            [Stored(Entry(p, 0, 0, RowAt(env, m, 0)), 0), Stored(Entry(p, 0, 1000, RowAt(env, m, 1000)), 0)]
  {
    hide RowAt, EnrichRow, TakeAll;
    var p := env.route(m.workspaceId.value);
    var steps := RedeliverySteps(p, m);
    var s0 := Init(p + 1);
    var s1 := Next(env, s0, steps[0]);
    var s2 := Next(env, s1, Start);
    var s3 := Next(env, s2, steps[2]);
    assert s1.log[p] == [m];
    var e0, e1 := Entry(p, 0, 0, RowAt(env, m, 0)), Entry(p, 0, 1000, RowAt(env, m, 1000));
    PollOne(env, s2.log, s2.worker, p, 0);
    assert s3.worker.buffer == [e0];
    var s4 := Next(env, s3, steps[3]);
    assert s4.table == [Stored(e0, 0)];
    var s5 := Next(env, s4, Crash);
    var s6 := Next(env, s5, Start);
    var s7 := Next(env, s6, steps[6]);
    PollOne(env, s6.log, s6.worker, p, 1000);
    assert s7.worker.buffer == [e1];
    var s8 := Next(env, s7, steps[7]);
    assert s8.table == [Stored(e0, 0), Stored(e1, 0)];
    RunFromTo(env, s0, steps, [s0, s1, s2, s3, s4, s5, s6, s7, s8]);
  }

  /** A run is determined by its successive states. */
  lemma {:induction false} RunFromTo(env: Env, s: State, steps: seq<Step>, states: seq<State>)
    requires |states| == |steps| + 1 && states[0] == s
    requires forall i :: 0 <= i < |steps| ==> states[i + 1] == Next(env, states[i], steps[i])
    ensures Run(env, s, steps) == states[|steps|]
    decreases |steps|
  {
    hide Next;
    if steps != [] {
      RunFromTo(env, states[1], steps[1..], states[1..]);
    }
  }
}

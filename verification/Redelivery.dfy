/** How far the KPI roll-up, which sees every inserted row, is from the deduplicated table:
    exactly one contribution per superseded row, and nothing for unique users. */
module Redelivery {
  import opened Events
  import opened EventStore
  import opened ConsumerProtocol
  import opened Delivery
  import opened Kpi

  /** The aggregate over the first `n` rows that are visible (or that are superseded). */
  function Portion(t: seq<Stored>, n: nat, cells: set<Cell>, visible: bool): Agg
    requires n <= |t|
  {
    if n == 0 then ZERO
    else
      var rest := Portion(t, n - 1, cells, visible);
      if Visible(t, n - 1) == visible && CellOf(t[n - 1].entry.row) in cells
      then Merge(rest, One(t[n - 1].entry.row)) else rest
  }

  /** What a reader of the deduplicated table counts. */
  function Deduplicated(t: seq<Stored>, cells: set<Cell>): Agg {
    Portion(t, |t|, cells, true)
  }

  /** What repeated inserts add. */
  function Repeated(t: seq<Stored>, cells: set<Cell>): Agg {
    Portion(t, |t|, cells, false)
  }

  lemma {:induction false} DirectOfPrefix(t: seq<Stored>, n: nat, cells: set<Cell>)
    requires n <= |t|
    ensures Direct(RowsOf(t)[..n], cells) == Merge(Portion(t, n, cells, true), Portion(t, n, cells, false))
  {
    hide Merge, Visible;
    if n == 0 {
      MergeLaws(ZERO, ZERO, ZERO);
    } else {
      var x := t[n - 1].entry.row;
      var a, b := Portion(t, n - 1, cells, true), Portion(t, n - 1, cells, false);
      DirectOfPrefix(t, n - 1, cells);
      assert RowsOf(t)[..n] == RowsOf(t)[..n - 1] + [x];
      DirectConcat(RowsOf(t)[..n - 1], [x], cells);
      DirectOne(x, cells);
      MergeLaws(Merge(a, b), ZERO, ZERO);
      MergeLaws(a, b, One(x));
      MergeLaws(b, One(x), ZERO);
      MergeLaws(a, One(x), b);
    }
  }

  lemma {:induction false} DirectOne(row: Row, cells: set<Cell>)
    ensures Direct([row], cells) == if CellOf(row) in cells then One(row) else ZERO
  {
    hide Merge;
    assert [row][1..] == [];
    MergeLaws(if CellOf(row) in cells then One(row) else ZERO, ZERO, ZERO);
  }

  /** MAIN: whatever parts `kpi_hourly` holds of the inserted rows, it answers any cells with the
      deduplicated aggregate plus what was inserted again: counts and revenue add, user sets unite. */
  lemma {:induction false} RollupIsDeduplicatedPlusRepeated(t: seq<Stored>, parts: seq<Part>, cells: set<Cell>)
    requires Represents(parts, RowsOf(t))
    ensures Total(parts, cells) == Merge(Deduplicated(t, cells), Repeated(t, cells))
  {
    DirectOfPrefix(t, |t|, cells);
    assert RowsOf(t)[..|t|] == RowsOf(t);
  }

  /** The keys of the visible rows among the first `n`. */
  function VisibleKeys(t: seq<Stored>, n: nat, cells: set<Cell>): set<SortKey>
    requires n <= |t|
  {
    set i | 0 <= i < n && Visible(t, i) && CellOf(t[i].entry.row) in cells :: Key(t[i])
  }

  lemma {:induction false} CountVisible(t: seq<Stored>, n: nat, cells: set<Cell>)
    requires n <= |t|
    ensures Portion(t, n, cells, true).count == |VisibleKeys(t, n, cells)|
  {
    hide Visible, View, CellOf, Key;
    if n > 0 {
      CountVisible(t, n - 1, cells);
      var k := Key(t[n - 1]);
      if Visible(t, n - 1) && CellOf(t[n - 1].entry.row) in cells {
        assert VisibleKeys(t, n, cells) == VisibleKeys(t, n - 1, cells) + {k};
        assert forall i :: 0 <= i < n - 1 && Visible(t, i) ==> Key(t[i]) != k by {
          forall i | 0 <= i < n - 1 && Visible(t, i) ensures Key(t[i]) != k {
            ViewIsVisibleRows(t, i);
            ViewIsVisibleRows(t, n - 1);
          }
        }
        assert k !in VisibleKeys(t, n - 1, cells);
      } else {
        assert VisibleKeys(t, n, cells) == VisibleKeys(t, n - 1, cells);
      }
    }
  }

  /** The deduplicated event count is the number of distinct sort keys. */
  lemma {:induction false} DeduplicatedCountsKeys(t: seq<Stored>, cells: set<Cell>)
    ensures Deduplicated(t, cells).count == |set k | k in View(t) && CellOfKey(k) in cells|
  {
    CountVisible(t, |t|, cells);
    var keys := set k | k in View(t) && CellOfKey(k) in cells;
    forall k | k in keys
      ensures k in VisibleKeys(t, |t|, cells)
    {
      ViewHoldsWinner(t, k);
      var w := Winner(t, k);
      assert Visible(t, w) && Key(t[w]) == k;
    }
    forall k | k in VisibleKeys(t, |t|, cells)
      ensures k in keys
    {
      var i :| 0 <= i < |t| && Visible(t, i) && Key(t[i]) == k;
      ViewIsVisibleRows(t, i);
    }
    assert keys == VisibleKeys(t, |t|, cells);
  }

  /** Rows that replace one another belong to one user and session. */
  predicate SameUserPerKey(t: seq<Stored>) {
    forall i, j :: 0 <= i < |t| && 0 <= j < |t| && Key(t[i]) == Key(t[j]) ==>
      t[i].entry.row.userId == t[j].entry.row.userId && t[i].entry.row.sessionId == t[j].entry.row.sessionId
  }

  lemma {:induction false} VisibleHasUser(t: seq<Stored>, n: nat, cells: set<Cell>, i: nat)
    requires i < n <= |t| && Visible(t, i) && CellOf(t[i].entry.row) in cells
    ensures t[i].entry.row.userId in Portion(t, n, cells, true).users
    ensures t[i].entry.row.sessionId in Portion(t, n, cells, true).sessions
  {
    if i < n - 1 {
      VisibleHasUser(t, n - 1, cells, i);
    }
  }

  lemma {:induction false} RepeatedUsersAreVisible(t: seq<Stored>, n: nat, cells: set<Cell>)
    requires n <= |t| && SameUserPerKey(t)
    ensures Portion(t, n, cells, false).users <= Deduplicated(t, cells).users
    ensures Portion(t, n, cells, false).sessions <= Deduplicated(t, cells).sessions
  {
    hide Visible;
    if n > 0 {
      RepeatedUsersAreVisible(t, n - 1, cells);
      var k := Key(t[n - 1]);
      var w := Winner(t, k);
      assert w != -1;
      if CellOf(t[n - 1].entry.row) in cells {
        VisibleHasUser(t, |t|, cells, w);
      }
    }
  }

  /** Unique users and sessions of the roll-up are those of the deduplicated table. */
  lemma {:induction false} UniqueUsersUnaffected(t: seq<Stored>, parts: seq<Part>, cells: set<Cell>)
    requires SameUserPerKey(t) && Represents(parts, RowsOf(t))
    ensures Total(parts, cells).users == Deduplicated(t, cells).users
    ensures Total(parts, cells).sessions == Deduplicated(t, cells).sessions
  {
    RollupIsDeduplicatedPlusRepeated(t, parts, cells);
    RepeatedUsersAreVisible(t, |t|, cells);
  }

  // ---------------------------------------------------------------- when nothing is counted twice

  lemma {:induction false} RepeatedNone(t: seq<Stored>, n: nat, cells: set<Cell>)
    requires n <= |t|
    ensures Portion(t, n, cells, false).count == 0 <==>
            forall i :: 0 <= i < n && CellOf(t[i].entry.row) in cells ==> Visible(t, i)
  {
    hide Visible, CellOf;
    if n > 0 {
      RepeatedNone(t, n - 1, cells);
    }
  }

  /** Two inserted rows of these cells share a sort key. */
  predicate KeyRepeats(t: seq<Stored>, cells: set<Cell>) {
    exists i, j :: 0 <= i < j < |t| && Key(t[i]) == Key(t[j]) && CellOfKey(Key(t[i])) in cells
  }

  lemma CellFromKey(row: Row)
    ensures CellOf(row) == CellOfKey(KeyOf(row))
  {
  }

  /** MAIN: the roll-up counts an event more than once if and only if two inserted rows of its cells
      share a sort key: a replay is not double-counted exactly when it inserts nothing again. */
  lemma {:induction false} CountsTwiceIff(t: seq<Stored>, parts: seq<Part>, cells: set<Cell>)
    requires Represents(parts, RowsOf(t))
    ensures Total(parts, cells).count == |set k | k in View(t) && CellOfKey(k) in cells| <==> !KeyRepeats(t, cells)
  {
    RollupIsDeduplicatedPlusRepeated(t, parts, cells);
    DeduplicatedCountsKeys(t, cells);
    RepeatedNone(t, |t|, cells);
    SupersededIffRepeated(t, cells);
  }

  lemma {:induction false} SupersededIffRepeated(t: seq<Stored>, cells: set<Cell>)
    ensures (forall i :: 0 <= i < |t| && CellOf(t[i].entry.row) in cells ==> Visible(t, i)) <==> !KeyRepeats(t, cells)
  {
    hide Visible, CellOf, CellOfKey, View, Winner;
    forall i | 0 <= i < |t| && CellOf(t[i].entry.row) in cells && !Visible(t, i)
      ensures KeyRepeats(t, cells)
    {
      var w := Winner(t, Key(t[i]));
      CellFromKey(t[i].entry.row);
      var a, b := if w < i then w else i, if w < i then i else w;
      assert Key(t[a]) == Key(t[b]);
    }
    if KeyRepeats(t, cells) {
      var i, j :| 0 <= i < j < |t| && Key(t[i]) == Key(t[j]) && CellOfKey(Key(t[i])) in cells;
      CellFromKey(t[i].entry.row);
      CellFromKey(t[j].entry.row);
      ViewIsVisibleRows(t, i);
      ViewIsVisibleRows(t, j);
    }
  }

  /** A timed message that is read again after a failed commit and a crash: one event, counted twice. */
  lemma {:induction false} RedeliveryIsCountedTwice(env: Env, m: Message, parts: seq<Part>)
    requires WellFormed(m) && Timed(env, m)
    requires Represents(parts, RowsOf(Run(env, Init(env.route(m.workspaceId.value) + 1),
                                          RedeliverySteps(env.route(m.workspaceId.value), m)).table))
    ensures var t := Run(env, Init(env.route(m.workspaceId.value) + 1),
                         RedeliverySteps(env.route(m.workspaceId.value), m)).table;
            var cells := {CellOf(RowAt(env, m, 0))};
            && Total(parts, cells).count == 2
            && (set k | k in View(t) && CellOfKey(k) in cells) == {KeyOf(RowAt(env, m, 0))}
  {
    var t := Run(env, Init(env.route(m.workspaceId.value) + 1),
                 RedeliverySteps(env.route(m.workspaceId.value), m)).table;
    RedeliveryRun(env, m);
    RowFixed(env, m, 0, 1000);
    hide RowAt, EnrichRow, WellFormed, Timed, Run, RedeliverySteps;
    var row := RowAt(env, m, 0);
    TwoCopies(t, row);
    CellFromKey(row);
    forall k
      ensures k in View(t) <==> k == KeyOf(row)
    {
      ViewHoldsWinner(t, k);
    }
  }

  lemma {:induction false} TwoCopies(t: seq<Stored>, row: Row)
    requires |t| == 2 && t[0].entry.row == row && t[1].entry.row == row
    ensures Direct(RowsOf(t), {CellOf(row)}).count == 2
  {
    hide CellOf;
    assert RowsOf(t) == [row, row];
    assert [row, row][1..] == [row] && [row][1..] == [];
    DirectOne(row, {CellOf(row)});
  }

  /** Messages with one sort key name one user and session. */
  ghost predicate OneUserPerKey(env: Env, log: seq<seq<Message>>) {
    forall p, o, p', o' ::
      (Good(log, p, o) && Good(log, p', o') &&
       KeyOf(RowAt(env, log[p][o], 0)) == KeyOf(RowAt(env, log[p'][o'], 0))) ==>
        log[p][o].userId == log[p'][o'].userId && log[p][o].sessionId == log[p'][o'].sessionId
  }

  lemma {:induction false} TableHasOneUserPerKey(env: Env, s: State)
    requires TableOk(env, s) && AllTimed(env, s.log) && OneUserPerKey(env, s.log)
    ensures SameUserPerKey(s.table)
  {
    forall i, j | 0 <= i < |s.table| && 0 <= j < |s.table| && Key(s.table[i]) == Key(s.table[j])
      ensures s.table[i].entry.row.userId == s.table[j].entry.row.userId
      ensures s.table[i].entry.row.sessionId == s.table[j].entry.row.sessionId
    {
      var a, b := s.table[i].entry, s.table[j].entry;
      assert FromLog(env, s.log, a) && FromLog(env, s.log, b);
      RowFixed(env, s.log[a.part][a.off], a.now, 0);
      RowFixed(env, s.log[b.part][b.off], b.now, 0);
    }
  }

  // ---------------------------------------------------------------- the consumer and the roll-up together

  /** No step of the consumer removes rows. */
  lemma {:induction false} TableGrows(env: Env, s: State, step: Step)
    ensures s.table <= Next(env, s, step).table
  {
    hide TakeAll, CommitAt;
  }

  /** The block a step inserts, which feeds the materialized view. */
  function InsertedRows(env: Env, s: State, step: Step): seq<Row> {
    TableGrows(env, s, step);
    RowsOf(Next(env, s, step).table[|s.table|..])
  }

  /** The consumer, its table, and the parts of `kpi_hourly`. */
  datatype Pipeline = Pipeline(consumer: State, parts: seq<Part>)

  /** A step of the consumer with the parts its block is grouped into, or a background merge. */
  datatype PipelineStep =
    | Consume(step: Step, block: seq<Part>)
    | Background(i: nat, j: nat, at: nat)

  predicate CanStep(env: Env, p: Pipeline, step: PipelineStep) {
    match step
    case Consume(inner, block) => IsGrouping(block, InsertedRows(env, p.consumer, inner))
    case Background(i, j, at) => Enabled(KpiState(RowsOf(p.consumer.table), p.parts), MergeParts(i, j, at))
  }

  function PipelineNext(env: Env, p: Pipeline, step: PipelineStep): Pipeline
    requires CanStep(env, p, step)
  {
    match step
    case Consume(inner, block) => Pipeline(Next(env, p.consumer, inner), p.parts + block)
    case Background(i, j, at) =>
      p.(parts := KpiNext(KpiState(RowsOf(p.consumer.table), p.parts), MergeParts(i, j, at)).parts)
  }

  predicate CanRun(env: Env, p: Pipeline, steps: seq<PipelineStep>)
    decreases |steps|
  {
    steps == [] || (CanStep(env, p, steps[0]) && CanRun(env, PipelineNext(env, p, steps[0]), steps[1..]))
  }

  function PipelineRun(env: Env, p: Pipeline, steps: seq<PipelineStep>): Pipeline
    requires CanRun(env, p, steps)
    decreases |steps|
  {
    if steps == [] then p else PipelineRun(env, PipelineNext(env, p, steps[0]), steps[1..])
  }

  ghost predicate PipelineInv(env: Env, p: Pipeline) {
    Inv(env, p.consumer) && Represents(p.parts, RowsOf(p.consumer.table))
  }

  lemma {:induction false} PipelineStepInv(env: Env, p: Pipeline, step: PipelineStep)
    requires PipelineInv(env, p) && CanStep(env, p, step)
    ensures PipelineInv(env, PipelineNext(env, p, step))
  {
    hide Inv, Represents, IsGrouping, Next, KpiNext;
    var rows := RowsOf(p.consumer.table);
    match step
    case Consume(inner, block) =>
      StepInv(env, p.consumer, inner);
      TableGrows(env, p.consumer, inner);
      InsertRepresents(KpiState(rows, p.parts), InsertedRows(env, p.consumer, inner), block);
      assert RowsOf(Next(env, p.consumer, inner).table) == rows + InsertedRows(env, p.consumer, inner);
    case Background(i, j, at) =>
      MergeRepresents(KpiState(rows, p.parts), i, j, at);
  }

  lemma {:induction false} PipelineRunInv(env: Env, p: Pipeline, steps: seq<PipelineStep>)
    requires PipelineInv(env, p) && CanRun(env, p, steps)
    ensures PipelineInv(env, PipelineRun(env, p, steps))
    decreases |steps|
  {
    hide PipelineInv, CanStep, PipelineNext;
    if steps != [] {
      PipelineStepInv(env, p, steps[0]);
      PipelineRunInv(env, PipelineNext(env, p, steps[0]), steps[1..]);
    }
  }

  /** An empty pipeline of `n` partitions. */
  function Empty(n: nat): Pipeline {
    Pipeline(Init(n), [])
  }

  lemma {:induction false} EmptyInv(env: Env, n: nat)
    ensures PipelineInv(env, Empty(n))
  {
    InitInv(env, n);
    hide Inv;
  }

  /** MAIN: over every run of the consumer and every merge order in the background, whatever was
      redelivered, the count `kpi_hourly` answers exceeds the number of distinct events by exactly
      the number of superseded rows, and its revenue exceeds theirs by exactly those rows'. */
  lemma {:induction false} RollupInEveryRun(env: Env, n: nat, steps: seq<PipelineStep>, cells: set<Cell>)
    requires CanRun(env, Empty(n), steps)
    ensures var r := PipelineRun(env, Empty(n), steps);
            var t := r.consumer.table;
            var rollup, dedup, repeated := Total(r.parts, cells), Deduplicated(t, cells), Repeated(t, cells);
            && rollup.count == |set k | k in View(t) && CellOfKey(k) in cells| + repeated.count
            && rollup.revenue == dedup.revenue + repeated.revenue
  {
    EmptyInv(env, n);
    PipelineRunInv(env, Empty(n), steps);
    var r := PipelineRun(env, Empty(n), steps);
    hide PipelineRun, CanRun, Inv;
    RollupIsDeduplicatedPlusRepeated(r.consumer.table, r.parts, cells);
    DeduplicatedCountsKeys(r.consumer.table, cells);
  }

  /** MAIN: where messages carry their time and those of one key name one user and session, the
      unique users and sessions of `kpi_hourly` are exact in every run. */
  lemma {:induction false} UsersInEveryRun(env: Env, n: nat, steps: seq<PipelineStep>, cells: set<Cell>)
    requires CanRun(env, Empty(n), steps)
    requires AllTimed(env, PipelineRun(env, Empty(n), steps).consumer.log)
    requires OneUserPerKey(env, PipelineRun(env, Empty(n), steps).consumer.log)
    ensures var r := PipelineRun(env, Empty(n), steps);
            var rollup, dedup := Total(r.parts, cells), Deduplicated(r.consumer.table, cells);
            rollup.users == dedup.users && rollup.sessions == dedup.sessions
  {
    EmptyInv(env, n);
    PipelineRunInv(env, Empty(n), steps);
    var r := PipelineRun(env, Empty(n), steps);
    TableHasOneUserPerKey(env, r.consumer);
    hide PipelineRun, CanRun, Inv, AllTimed, OneUserPerKey;
    UniqueUsersUnaffected(r.consumer.table, r.parts, cells);
  }

  /** MAIN: and so does the KPI read, bucket by bucket: count and revenue are those of the distinct
      events of the bucket plus the superseded rows, the count is exact if and only if no key of
      the bucket was inserted twice, and unique users are exact. */
  lemma {:induction false} ReadInEveryRun(env: Env, n: nat, steps: seq<PipelineStep>, q: Query, ts: int)
    requires CanRun(env, Empty(n), steps) && ts in Read(q, PipelineRun(env, Empty(n), steps).parts)
    ensures var r := PipelineRun(env, Empty(n), steps);
            var t, cells := r.consumer.table, Selected(q, PartCells(r.parts), ts);
            var answer, dedup, repeated := Read(q, r.parts)[ts], Deduplicated(t, cells), Repeated(t, cells);
            && dedup.count == |set k | k in View(t) && CellOfKey(k) in cells|
            && answer.count == dedup.count + repeated.count
            && answer.revenue == dedup.revenue + repeated.revenue
            && (answer.count == dedup.count <==> !KeyRepeats(t, cells))
            && (AllTimed(env, r.consumer.log) && OneUserPerKey(env, r.consumer.log) ==> answer.users == dedup.users)
  {
    EmptyInv(env, n);
    PipelineRunInv(env, Empty(n), steps);
    var r := PipelineRun(env, Empty(n), steps);
    var t, cells := r.consumer.table, Selected(q, PartCells(r.parts), ts);
    ReadIsTotal(q, r.parts, ts);
    if AllTimed(env, r.consumer.log) && OneUserPerKey(env, r.consumer.log) {
      UsersInEveryRun(env, n, steps, cells);
    }
    hide PipelineRun, CanRun, Inv, Read, Selected, AllTimed, OneUserPerKey;
    RollupIsDeduplicatedPlusRepeated(t, r.parts, cells);
    DeduplicatedCountsKeys(t, cells);
    CountsTwiceIff(t, r.parts, cells);
  }

  lemma ReadIsTotal(q: Query, parts: seq<Part>, ts: int)
    requires ts in Read(q, parts)
    ensures Read(q, parts)[ts] == Total(parts, Selected(q, PartCells(parts), ts))
  {
    hide Total, Matches, Bucket;
  }

  // ---------------------------------------------------------------- which runs count nothing twice

  /** No row of the step's block is one of a message that has a row already. */
  predicate InsertsNothingAgain(env: Env, s: State, step: Step) {
    var t := Next(env, s, step).table;
    forall i :: |s.table| <= i < |t| ==> !InTable(s.table, t[i].entry.part, t[i].entry.off)
  }

  /** No step of the run inserts a message again. */
  predicate NothingAgain(env: Env, s: State, steps: seq<Step>)
    decreases |steps|
  {
    steps == [] || (InsertsNothingAgain(env, s, steps[0]) && NothingAgain(env, Next(env, s, steps[0]), steps[1..]))
  }

  /** Every message has at most one row. */
  predicate OneRowEach(t: seq<Stored>) {
    forall i, j :: 0 <= i < j < |t| ==> !(t[i].entry.part == t[j].entry.part && t[i].entry.off == t[j].entry.off)
  }

  predicate DifferentMessages(entries: seq<Entry>) {
    forall i, j :: 0 <= i < j < |entries| ==> !(entries[i].part == entries[j].part && entries[i].off == entries[j].off)
  }

  lemma {:induction false} LandedDiffer(entries: seq<Entry>, landed: set<nat>)
    requires DifferentMessages(entries)
    ensures DifferentMessages(Landed(entries, landed))
  {
    if entries != [] {
      var n := |entries| - 1;
      LandedDiffer(entries[..n], landed);
      var rest := Landed(entries[..n], landed);
      forall i | 0 <= i < |rest|
        ensures !(rest[i].part == entries[n].part && rest[i].off == entries[n].off)
      {
        assert rest[i] in entries[..n];
      }
    }
  }

  /** The entries a step inserts: nothing, the buffer, or what landed of it. */
  lemma {:induction false} BlockDiffers(env: Env, s: State, step: Step) returns (block: seq<Entry>, at: int)
    requires Inv(env, s)
    ensures Next(env, s, step).table == s.table + Stamp(block, at) && DifferentMessages(block)
  {
    hide TakeAll, CommitAt, Routed, TableOk, NoLoss, UpToDate, FromLog, InFlight, Good;
    block, at := [], 0;
    assert s.table + Stamp([], 0) == s.table;
    if s.worker.Up? && s.worker.buffer != [] && ((step.Flush? && !s.worker.failing) || step.Finish?) {
      var attempt := step.attempt;
      assert DifferentMessages(s.worker.buffer);
      at := s.clock + attempt.tick;
      match attempt.insert
      case Inserted => block := s.worker.buffer;
      case InsertFailed(landed) =>
        LandedDiffer(s.worker.buffer, landed);
        block := Landed(s.worker.buffer, landed);
    }
  }

  lemma {:induction false} OneRowStep(env: Env, s: State, step: Step)
    requires Inv(env, s)
    ensures OneRowEach(Next(env, s, step).table) <==> OneRowEach(s.table) && InsertsNothingAgain(env, s, step)
  {
    var block, at := BlockDiffers(env, s, step);
    hide Next, Inv;
    AppendBlock(s.table, Stamp(block, at));
    assert OneRowEach(Stamp(block, at));
  }

  lemma {:induction false} AppendBlock(t: seq<Stored>, u: seq<Stored>)
    ensures OneRowEach(t + u) <==>
            && OneRowEach(t) && OneRowEach(u)
            && forall i :: |t| <= i < |t + u| ==> !InTable(t, (t + u)[i].entry.part, (t + u)[i].entry.off)
  {
    var all := t + u;
    if OneRowEach(all) {
      assert forall i :: 0 <= i < |t| ==> all[i] == t[i];
      forall i | |t| <= i < |all|
        ensures !InTable(t, all[i].entry.part, all[i].entry.off)
      {
        assert forall j :: 0 <= j < |t| ==> all[j] == t[j];
      }
      forall i, j | 0 <= i < j < |u|
        ensures !(u[i].entry.part == u[j].entry.part && u[i].entry.off == u[j].entry.off)
      {
        assert all[|t| + i] == u[i] && all[|t| + j] == u[j];
      }
    }
  }

  lemma {:induction false} OneRowRun(env: Env, s: State, steps: seq<Step>)
    requires Inv(env, s)
    ensures OneRowEach(Run(env, s, steps).table) <==> OneRowEach(s.table) && NothingAgain(env, s, steps)
    decreases |steps|
  {
    hide Inv, Next, OneRowEach, InsertsNothingAgain;
    if steps != [] {
      StepInv(env, s, steps[0]);
      OneRowStep(env, s, steps[0]);
      OneRowRun(env, Next(env, s, steps[0]), steps[1..]);
    }
  }

  /** No two messages of the log have one sort key. */
  ghost predicate KeysDiffer(env: Env, log: seq<seq<Message>>) {
    forall p, o, p', o' ::
      (Good(log, p, o) && Good(log, p', o') &&
       KeyOf(RowAt(env, log[p][o], 0)) == KeyOf(RowAt(env, log[p'][o'], 0))) ==> p == p' && o == o'
  }

  lemma {:induction false} OneRowIffKeysDiffer(env: Env, s: State, cells: set<Cell>)
    requires TableOk(env, s) && AllTimed(env, s.log) && KeysDiffer(env, s.log)
    requires forall i :: 0 <= i < |s.table| ==> CellOfKey(Key(s.table[i])) in cells
    ensures KeyRepeats(s.table, cells) <==> !OneRowEach(s.table)
  {
    forall i, j | 0 <= i < j < |s.table|
      ensures Key(s.table[i]) == Key(s.table[j]) <==>
              s.table[i].entry.part == s.table[j].entry.part && s.table[i].entry.off == s.table[j].entry.off
    {
      var a, b := s.table[i].entry, s.table[j].entry;
      assert FromLog(env, s.log, a) && FromLog(env, s.log, b);
      RowFixed(env, s.log[a.part][a.off], a.now, 0);
      RowFixed(env, s.log[b.part][b.off], b.now, 0);
    }
  }

  /** MAIN: with distinct timed messages, a run of the consumer leaves a roll-up that counts every
      event once if and only if no step of the run inserted the row of a message again: no
      half-landed insert was repeated, and no message was read again after its insert. */
  lemma {:induction false} RunCountsOnceIff(env: Env, n: nat, steps: seq<Step>, parts: seq<Part>)
    requires Represents(parts, RowsOf(Run(env, Init(n), steps).table))
    requires AllTimed(env, Run(env, Init(n), steps).log) && KeysDiffer(env, Run(env, Init(n), steps).log)
    ensures var t := Run(env, Init(n), steps).table;
            (Total(parts, PartCells(parts)).count == |set k | k in View(t) && CellOfKey(k) in PartCells(parts)|)
              <==> NothingAgain(env, Init(n), steps)
  {
    var s := Run(env, Init(n), steps);
    InitInv(env, n);
    RunInv(env, Init(n), steps);
    OneRowRun(env, Init(n), steps);
    assert Init(n).table == [];
    assert TableOk(env, s);
    hide Run, NothingAgain, Inv, TableOk, AllTimed, KeysDiffer, OneRowEach, KeyRepeats;
    forall i | 0 <= i < |s.table|
      ensures CellOfKey(Key(s.table[i])) in PartCells(parts)
    {
      assert CellOf(RowsOf(s.table)[i]) in CellsOf(RowsOf(s.table));
      CellFromKey(s.table[i].entry.row);
    }
    OneRowIffKeysDiffer(env, s, PartCells(parts));
    CountsTwiceIff(s.table, parts, PartCells(parts));
    assert OneRowEach([]) by { NoRows(); }
  }

  lemma NoRows()
    ensures OneRowEach([])
  {
  }
}

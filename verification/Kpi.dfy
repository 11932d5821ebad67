/** The hourly roll-up: a materialized view fed by every inserted block, merged in the
    background in any order, and read through merged aggregate states
    (infra/clickhouse/init.sql, api/src/events/events.service.ts: `runAggregation`). */
module Kpi {
  import opened Events

  /** The sort key of `kpi_hourly`; `hour` is the start of the hour, in seconds. */
  datatype Cell = Cell(workspaceId: string, eventName: string, hour: int)

  /** The merged states of countState, sumState and the two uniqStates (exact sets here). */
  datatype Agg = Agg(count: nat, revenue: int, users: set<string>, sessions: set<string>)

  /** One row of `kpi_hourly`. */
  datatype Part = Part(cell: Cell, agg: Agg)

  const ZERO := Agg(0, 0, {}, {})

  function HourOf(occurredMs: int): int {
    occurredMs / 3_600_000 * 3600
  }

  function CellOf(row: Row): Cell {
    Cell(row.workspaceId, row.eventName, HourOf(row.occurredMs))
  }

  function CellOfKey(k: SortKey): Cell {
    Cell(k.workspaceId, k.eventName, HourOf(k.occurredMs))
  }

  function One(row: Row): Agg {
    Agg(1, row.revenueCents, {row.userId}, {row.sessionId})
  }

  /** The -Merge combinators. */
  function Merge(a: Agg, b: Agg): Agg {
    Agg(a.count + b.count, a.revenue + b.revenue, a.users + b.users, a.sessions + b.sessions)
  }

  function Share(row: Row, cells: set<Cell>): Agg {
    if CellOf(row) in cells then One(row) else ZERO
  }

  /** The aggregate over the rows whose cell is in `cells`, computed from the rows themselves. */
  function Direct(rows: seq<Row>, cells: set<Cell>): Agg {
    if rows == [] then ZERO
    else Merge(Share(rows[0], cells), Direct(rows[1..], cells))
  }

  /** The same, computed from stored parts. */
  function Total(parts: seq<Part>, cells: set<Cell>): Agg {
    if parts == [] then ZERO
    else Merge(if parts[0].cell in cells then parts[0].agg else ZERO, Total(parts[1..], cells))
  }

  function CellsOf(rows: seq<Row>): set<Cell> {
    set i | 0 <= i < |rows| :: CellOf(rows[i])
  }

  function PartCells(parts: seq<Part>): set<Cell> {
    set i | 0 <= i < |parts| :: parts[i].cell
  }

  /** What `mv_kpi_hourly` writes for one inserted block: one part per cell, in any order. */
  predicate IsGrouping(parts: seq<Part>, rows: seq<Row>) {
    && PartCells(parts) == CellsOf(rows)
    && (forall i, j :: 0 <= i < j < |parts| ==> parts[i].cell != parts[j].cell)
    && (forall i :: 0 <= i < |parts| ==> parts[i].agg == Direct(rows, {parts[i].cell}))
  }

  /** The table answers every selection of cells as the rows would. */
  ghost predicate Represents(parts: seq<Part>, rows: seq<Row>) {
    PartCells(parts) == CellsOf(rows) && forall cells :: Total(parts, cells) == Direct(rows, cells)
  }

  // ---------------------------------------------------------------- algebra of the two folds

  /** Merging states is a commutative monoid. */
  lemma MergeLaws(a: Agg, b: Agg, c: Agg)
    ensures Merge(a, b) == Merge(b, a)
    ensures Merge(Merge(a, b), c) == Merge(a, Merge(b, c))
    ensures Merge(ZERO, a) == a
  {
    assert a.users + b.users == b.users + a.users && a.sessions + b.sessions == b.sessions + a.sessions;
    assert (a.users + b.users) + c.users == a.users + (b.users + c.users);
    assert (a.sessions + b.sessions) + c.sessions == a.sessions + (b.sessions + c.sessions);
    assert {} + a.users == a.users && {} + a.sessions == a.sessions;
  }

  lemma {:induction false} DirectConcat(a: seq<Row>, b: seq<Row>, cells: set<Cell>)
    ensures Direct(a + b, cells) == Merge(Direct(a, cells), Direct(b, cells))
  {
    hide Merge;
    if a == [] {
      assert a + b == b;
      MergeLaws(Direct(b, cells), ZERO, ZERO);
    } else {
      assert (a + b)[1..] == a[1..] + b;
      DirectConcat(a[1..], b, cells);
      MergeLaws(Share(a[0], cells), Direct(a[1..], cells), Direct(b, cells));
    }
  }

  lemma {:induction false} TotalConcat(a: seq<Part>, b: seq<Part>, cells: set<Cell>)
    ensures Total(a + b, cells) == Merge(Total(a, cells), Total(b, cells))
  {
    hide Merge;
    if a == [] {
      assert a + b == b;
      MergeLaws(Total(b, cells), ZERO, ZERO);
    } else {
      assert (a + b)[1..] == a[1..] + b;
      TotalConcat(a[1..], b, cells);
      MergeLaws(if a[0].cell in cells then a[0].agg else ZERO, Total(a[1..], cells), Total(b, cells));
    }
  }

  /** A selection splits into two disjoint ones. */
  lemma {:induction false} DirectSplit(rows: seq<Row>, cells: set<Cell>, some: set<Cell>)
    ensures Direct(rows, cells) == Merge(Direct(rows, cells * some), Direct(rows, cells - some))
  {
    hide Merge;
    if rows == [] {
      MergeLaws(ZERO, ZERO, ZERO);
    } else {
      var x, y, z := Share(rows[0], cells), Direct(rows[1..], cells * some), Direct(rows[1..], cells - some);
      DirectSplit(rows[1..], cells, some);
      MergeLaws(x, y, z);
      MergeLaws(y, x, z);
      MergeLaws(ZERO, ZERO, ZERO);
      MergeLaws(y, ZERO, ZERO);
      MergeLaws(z, ZERO, ZERO);
    }
  }

  /** Only the cells that occur matter. */
  lemma {:induction false} DirectRestrict(rows: seq<Row>, cells: set<Cell>, others: set<Cell>)
    requires cells * CellsOf(rows) == others * CellsOf(rows)
    ensures Direct(rows, cells) == Direct(rows, others)
  {
    if rows != [] {
      assert CellOf(rows[0]) in CellsOf(rows);
      forall c | c in CellsOf(rows[1..])
        ensures c in CellsOf(rows)
      {
        var i :| 0 <= i < |rows[1..]| && c == CellOf(rows[1..][i]);
        assert c == CellOf(rows[i + 1]);
      }
      assert cells * CellsOf(rows[1..]) == others * CellsOf(rows[1..]) by {
        forall c | c in CellsOf(rows[1..])
          ensures c in cells <==> c in others
        {
          assert c in cells * CellsOf(rows) <==> c in others * CellsOf(rows);
        }
      }
      assert CellOf(rows[0]) in cells * CellsOf(rows) <==> CellOf(rows[0]) in others * CellsOf(rows);
      DirectRestrict(rows[1..], cells, others);
    }
  }

  lemma {:induction false} PartCellsConcat(a: seq<Part>, b: seq<Part>)
    ensures PartCells(a + b) == PartCells(a) + PartCells(b)
  {
    forall c | c in PartCells(a) + PartCells(b)
      ensures c in PartCells(a + b)
    {
      if c in PartCells(a) {
        var i :| 0 <= i < |a| && c == a[i].cell;
        assert (a + b)[i] == a[i];
      } else {
        var i :| 0 <= i < |b| && c == b[i].cell;
        assert (a + b)[|a| + i] == b[i];
      }
    }
  }

  lemma {:induction false} PartCellsOne(p: Part)
    ensures PartCells([p]) == {p.cell}
  {
    assert [p][0].cell in PartCells([p]);
  }

  lemma {:induction false} TotalOne(p: Part, cells: set<Cell>)
    ensures Total([p], cells) == if p.cell in cells then p.agg else ZERO
  {
    hide Merge;
    assert [p][1..] == [];
    MergeLaws(if p.cell in cells then p.agg else ZERO, ZERO, ZERO);
  }

  /** Parts that each aggregate one distinct cell add up to the rows of all those cells. */
  lemma {:induction false} GroupedTotal(parts: seq<Part>, rows: seq<Row>, cells: set<Cell>)
    requires forall i, j :: 0 <= i < j < |parts| ==> parts[i].cell != parts[j].cell
    requires forall i :: 0 <= i < |parts| ==> parts[i].agg == Direct(rows, {parts[i].cell})
    ensures Total(parts, cells) == Direct(rows, cells * PartCells(parts))
  {
    hide Merge, Direct;
    DirectNone(rows);
    if parts == [] {
      assert cells * PartCells(parts) == {};
    } else {
      var c, rest := parts[0].cell, parts[1..];
      GroupedTotal(rest, rows, cells);
      assert parts == [parts[0]] + rest;
      PartCellsConcat([parts[0]], rest);
      PartCellsOne(parts[0]);
      assert c !in PartCells(rest);
      GroupedStep(parts[0], rows, cells, PartCells(rest));
    }
  }

  /** One more cell in the selection adds that cell's rows. */
  lemma {:induction false} GroupedStep(p: Part, rows: seq<Row>, cells: set<Cell>, others: set<Cell>)
    requires p.agg == Direct(rows, {p.cell}) && p.cell !in others
    ensures Direct(rows, cells * ({p.cell} + others)) ==
            Merge(if p.cell in cells then p.agg else ZERO, Direct(rows, cells * others))
  {
    hide Merge, Direct;
    var all := cells * ({p.cell} + others);
    DirectSplit(rows, all, {p.cell});
    DirectNone(rows);
    assert all - {p.cell} == cells * others;
    assert all * {p.cell} == if p.cell in cells then {p.cell} else {};
  }

  lemma {:induction false} DirectNone(rows: seq<Row>)
    ensures Direct(rows, {}) == ZERO
  {
    hide Merge;
    MergeLaws(ZERO, ZERO, ZERO);
    if rows != [] {
      DirectNone(rows[1..]);
    }
  }

  // ---------------------------------------------------------------- inserts and merges

  /** What happens to `kpi_hourly`: a block is inserted and grouped into `parts`, or two parts
      of one cell are merged into one that ends up at position `to`. */
  datatype KpiStep =
    | InsertBlock(rows: seq<Row>, parts: seq<Part>)
    | MergeParts(i: nat, j: nat, to: nat)

  datatype KpiState = KpiState(rows: seq<Row>, parts: seq<Part>)

  predicate Enabled(s: KpiState, step: KpiStep) {
    match step
    case InsertBlock(rows, parts) => IsGrouping(parts, rows)
    case MergeParts(i, j, to) => i < j < |s.parts| && s.parts[i].cell == s.parts[j].cell && to <= |s.parts| - 2
  }

  function Without(parts: seq<Part>, i: nat, j: nat): (r: seq<Part>)
    requires i < j < |parts|
    ensures |r| == |parts| - 2
  {
    parts[..i] + parts[i + 1..j] + parts[j + 1..]
  }

  function KpiNext(s: KpiState, step: KpiStep): KpiState
    requires Enabled(s, step)
  {
    match step
    case InsertBlock(rows, parts) => KpiState(s.rows + rows, s.parts + parts)
    case MergeParts(i, j, to) =>
      var rest := Without(s.parts, i, j);
      var merged := Part(s.parts[i].cell, Merge(s.parts[i].agg, s.parts[j].agg));
      s.(parts := rest[..to] + [merged] + rest[to..])
  }

  /** A history of steps, each enabled when it happens. */
  predicate Possible(s: KpiState, steps: seq<KpiStep>)
    decreases |steps|
  {
    steps == [] || (Enabled(s, steps[0]) && Possible(KpiNext(s, steps[0]), steps[1..]))
  }

  function KpiRun(s: KpiState, steps: seq<KpiStep>): KpiState
    requires Possible(s, steps)
    decreases |steps|
  {
    if steps == [] then s else KpiRun(KpiNext(s, steps[0]), steps[1..])
  }

  lemma {:induction false} InsertRepresents(s: KpiState, rows: seq<Row>, parts: seq<Part>)
    requires Represents(s.parts, s.rows) && IsGrouping(parts, rows)
    ensures Represents(s.parts + parts, s.rows + rows)
  {
    forall cells
      ensures Total(s.parts + parts, cells) == Direct(s.rows + rows, cells)
    {
      TotalConcat(s.parts, parts, cells);
      DirectConcat(s.rows, rows, cells);
      GroupedTotal(parts, rows, cells);
      DirectRestrict(rows, cells * PartCells(parts), cells);
    }
    PartCellsConcat(s.parts, parts);
    assert CellsOf(s.rows + rows) == CellsOf(s.rows) + CellsOf(rows) by {
      forall c | c in CellsOf(s.rows) + CellsOf(rows)
        ensures c in CellsOf(s.rows + rows)
      {
        if c in CellsOf(s.rows) {
          var i :| 0 <= i < |s.rows| && c == CellOf(s.rows[i]);
          assert (s.rows + rows)[i] == s.rows[i];
        } else {
          var i :| 0 <= i < |rows| && c == CellOf(rows[i]);
          assert (s.rows + rows)[|s.rows| + i] == rows[i];
        }
      }
    }
  }

  /** A part may stand anywhere: totals and cells do not change. */
  lemma {:induction false} TotalExtract(a: seq<Part>, p: Part, b: seq<Part>, cells: set<Cell>)
    ensures Total(a + [p] + b, cells) == Merge(Total([p], cells), Total(a + b, cells))
  {
    hide Merge, Total;
    TotalConcat(a + [p], b, cells);
    TotalConcat(a, [p], cells);
    TotalConcat(a, b, cells);
    MergeLaws(Total(a, cells), Total([p], cells), Total(b, cells));
    MergeLaws(Total([p], cells), Total(a, cells), Total(b, cells));
  }

  lemma {:induction false} CellsExtract(a: seq<Part>, p: Part, b: seq<Part>)
    ensures PartCells(a + [p] + b) == {p.cell} + PartCells(a + b)
  {
    hide PartCells;
    PartCellsConcat(a + [p], b);
    PartCellsConcat(a, [p]);
    PartCellsConcat(a, b);
    PartCellsOne(p);
  }

  /** Two parts of one cell, wherever they stand, weigh as much as their merge. */
  lemma {:induction false} MergeTwo(x: Part, y: Part, cells: set<Cell>, rest: Agg)
    requires x.cell == y.cell
    ensures Merge(Total([Part(x.cell, Merge(x.agg, y.agg))], cells), rest) ==
            Merge(Total([x], cells), Merge(Total([y], cells), rest))
  {
    hide Merge, Total;
    TotalOne(x, cells);
    TotalOne(y, cells);
    TotalOne(Part(x.cell, Merge(x.agg, y.agg)), cells);
    MergeLaws(x.agg, y.agg, rest);
    MergeLaws(rest, ZERO, ZERO);
  }

  lemma {:induction false} MergeRepresents(s: KpiState, i: nat, j: nat, to: nat)
    requires Represents(s.parts, s.rows) && Enabled(s, MergeParts(i, j, to))
    ensures Represents(KpiNext(s, MergeParts(i, j, to)).parts, s.rows)
  {
    hide Merge, Total, PartCells, Direct;
    var x, y, rest := s.parts[i], s.parts[j], Without(s.parts, i, j);
    var merged := Part(x.cell, Merge(x.agg, y.agg));
    var r := rest[..to] + [merged] + rest[to..];
    var left, right := s.parts[..i] + s.parts[i + 1..j], s.parts[j + 1..];
    assert s.parts == s.parts[..i] + [x] + s.parts[i + 1..];
    assert s.parts[..i] + s.parts[i + 1..] == left + [y] + right;
    assert left + right == rest == rest[..to] + rest[to..];
    CellsExtract(s.parts[..i], x, s.parts[i + 1..]);
    CellsExtract(left, y, right);
    CellsExtract(rest[..to], merged, rest[to..]);
    forall cells
      ensures Total(r, cells) == Direct(s.rows, cells)
    {
      TotalExtract(s.parts[..i], x, s.parts[i + 1..], cells);
      TotalExtract(left, y, right, cells);
      TotalExtract(rest[..to], merged, rest[to..], cells);
      MergeTwo(x, y, cells, Total(rest, cells));
      assert Total(s.parts, cells) == Direct(s.rows, cells);
    }
  }

  /** MAIN: however the stream is cut into blocks and whatever is merged when, the table
      represents exactly the rows inserted so far. */
  lemma {:induction false} AlwaysRepresents(s: KpiState, steps: seq<KpiStep>)
    requires Represents(s.parts, s.rows) && Possible(s, steps)
    ensures Represents(KpiRun(s, steps).parts, KpiRun(s, steps).rows)
    decreases |steps|
  {
    hide Represents;
    if steps != [] {
      match steps[0]
      case InsertBlock(rows, parts) =>
        InsertRepresents(s, rows, parts);
        AlwaysRepresents(KpiNext(s, steps[0]), steps[1..]);
      case MergeParts(i, j, to) =>
        MergeRepresents(s, i, j, to);
        AlwaysRepresents(KpiNext(s, steps[0]), steps[1..]);
    }
  }

  // ---------------------------------------------------------------- reading

  datatype Granularity = Hour | Day

  /** The KPI query of one metric: bounds in milliseconds, as the API parses them. */
  datatype Query = Query(workspaceId: string, eventName: string, fromMs: int, toMs: int, granularity: Granularity)

  /** toStartOfHour(hour) or toDate(hour), in seconds. */
  function Bucket(g: Granularity, hour: int): int {
    match g
    case Hour => hour / 3600 * 3600
    case Day => hour / 86400 * 86400
  }

  /** The WHERE clause: the bounds lose their milliseconds and are compared with the hour. */
  predicate Matches(q: Query, c: Cell) {
    c.workspaceId == q.workspaceId && c.eventName == q.eventName && q.fromMs / 1000 <= c.hour < q.toMs / 1000
  }

  function Selected(q: Query, cells: set<Cell>, ts: int): set<Cell> {
    set c | c in cells && Matches(q, c) && Bucket(q.granularity, c.hour) == ts
  }

  /** `runAggregation`: the merged state of every bucket that has a part. */
  function Read(q: Query, parts: seq<Part>): map<int, Agg> {
    map c | c in PartCells(parts) && Matches(q, c) :: Bucket(q.granularity, c.hour) :=
      Total(parts, Selected(q, PartCells(parts), Bucket(q.granularity, c.hour)))
  }

  function CeilHour(seconds: int): int {
    (seconds + 3599) / 3600 * 3600
  }

  /** A row falls under the query: its own time is in [ceilHour(from), ceilHour(to)), the bounds
      first cut down to whole seconds. */
  predicate InRange(q: Query, row: Row) {
    && row.workspaceId == q.workspaceId && row.eventName == q.eventName
    && CeilHour(q.fromMs / 1000) * 1000 <= row.occurredMs < CeilHour(q.toMs / 1000) * 1000
  }

  function BucketOfRow(q: Query, row: Row): int {
    Bucket(q.granularity, HourOf(row.occurredMs))
  }

  /** The aggregate of one bucket straight from the rows. */
  function RowsInBucket(q: Query, rows: seq<Row>, ts: int): Agg {
    if rows == [] then ZERO
    else
      Merge(if InRange(q, rows[0]) && BucketOfRow(q, rows[0]) == ts then One(rows[0]) else ZERO,
            RowsInBucket(q, rows[1..], ts))
  }

  /** Comparing the hour with a bound is comparing the time with the bound rounded up. */
  lemma HourBound(occurredMs: int, seconds: int)
    ensures seconds <= HourOf(occurredMs) <==> CeilHour(seconds) * 1000 <= occurredMs
  {
    var h := occurredMs / 3_600_000;
    var c := (seconds + 3599) / 3600;
    assert h * 3_600_000 <= occurredMs < (h + 1) * 3_600_000;
    assert c * 3600 <= seconds + 3599 < (c + 1) * 3600;
  }

  lemma MatchesIffInRange(q: Query, row: Row)
    ensures Matches(q, CellOf(row)) <==> InRange(q, row)
  {
    HourBound(row.occurredMs, q.fromMs / 1000);
    HourBound(row.occurredMs, q.toMs / 1000);
  }

  lemma {:induction false} SelectedRows(q: Query, rows: seq<Row>, cells: set<Cell>, ts: int)
    requires CellsOf(rows) <= cells
    ensures Direct(rows, Selected(q, cells, ts)) == RowsInBucket(q, rows, ts)
  {
    hide Merge, InRange, Matches, HourOf;
    if rows != [] {
      MatchesIffInRange(q, rows[0]);
      assert CellOf(rows[0]) in CellsOf(rows);
      assert CellsOf(rows[1..]) <= cells by {
        forall c | c in CellsOf(rows[1..]) ensures c in cells {
          var i :| 0 <= i < |rows[1..]| && c == CellOf(rows[1..][i]);
          assert CellOf(rows[i + 1]) in CellsOf(rows);
        }
      }
      SelectedRows(q, rows[1..], cells, ts);
    }
  }

  /** MAIN: the KPI read answers every bucket with the aggregate of the rows whose time is in
      [ceilHour(from), ceilHour(to)), and returns exactly the buckets that have such a row. */
  lemma {:induction false} ReadIsDirect(q: Query, s: KpiState)
    requires Represents(s.parts, s.rows)
    ensures forall ts :: ts in Read(q, s.parts) <==>
              exists i :: 0 <= i < |s.rows| && InRange(q, s.rows[i]) && BucketOfRow(q, s.rows[i]) == ts
    ensures forall ts :: ts in Read(q, s.parts) ==> Read(q, s.parts)[ts] == RowsInBucket(q, s.rows, ts)
  {
    hide Total, Direct, InRange, Matches, HourOf, Merge, Bucket;
    forall ts | ts in Read(q, s.parts)
      ensures Read(q, s.parts)[ts] == RowsInBucket(q, s.rows, ts)
      ensures exists i :: 0 <= i < |s.rows| && InRange(q, s.rows[i]) && BucketOfRow(q, s.rows[i]) == ts
    {
      SelectedRows(q, s.rows, PartCells(s.parts), ts);
      var c :| c in PartCells(s.parts) && Matches(q, c) && Bucket(q.granularity, c.hour) == ts;
      var i :| 0 <= i < |s.rows| && CellOf(s.rows[i]) == c;
      MatchesIffInRange(q, s.rows[i]);
    }
    forall i | 0 <= i < |s.rows| && InRange(q, s.rows[i])
      ensures BucketOfRow(q, s.rows[i]) in Read(q, s.parts)
    {
      MatchesIffInRange(q, s.rows[i]);
      assert CellOf(s.rows[i]) in CellsOf(s.rows);
    }
  }

  // ---------------------------------------------------------------- the values of a bucket

  /** The row is one the query asks for and belongs to the bucket that starts at second `ts`. */
  predicate Falls(q: Query, row: Row, ts: int) {
    var hour := row.occurredMs / 3_600_000 * 3600;
    && row.workspaceId == q.workspaceId && row.eventName == q.eventName
    && q.fromMs / 1000 <= hour < q.toMs / 1000
    && 0 <= row.occurredMs / 1000 - ts < (if q.granularity == Hour then 3600 else 86400)
    && ts % (if q.granularity == Hour then 3600 else 86400) == 0
  }

  /** The rows of one bucket. */
  function Falling(q: Query, rows: seq<Row>, ts: int): seq<Row> {
    if rows == [] then []
    else (if Falls(q, rows[0], ts) then [rows[0]] else []) + Falling(q, rows[1..], ts)
  }

  function TotalRevenue(rows: seq<Row>): int {
    if rows == [] then 0 else rows[0].revenueCents + TotalRevenue(rows[1..])
  }

  lemma FallsIffInBucket(q: Query, row: Row, ts: int)
    ensures Falls(q, row, ts) <==> InRange(q, row) && BucketOfRow(q, row) == ts
  {
    HourBound(row.occurredMs, q.fromMs / 1000);
    HourBound(row.occurredMs, q.toMs / 1000);
    BucketHolds(q.granularity, row.occurredMs, ts);
  }

  lemma FloorIs(s: int, width: int, ts: int)
    requires width == 3600 || width == 86400
    ensures s / width * width == ts <==> 0 <= s - ts < width && ts % width == 0
  {
  }

  /** A bucket starts at a whole hour or day and holds the times from there to the next. */
  lemma BucketHolds(g: Granularity, occurredMs: int, ts: int)
    ensures var width := if g == Hour then 3600 else 86400;
            Bucket(g, HourOf(occurredMs)) == ts <==> 0 <= occurredMs / 1000 - ts < width && ts % width == 0
  {
    var h, s := occurredMs / 3_600_000, occurredMs / 1000;
    assert h == s / 3600;
    assert h * 3600 / 86400 == s / 86400;
    assert h * 3600 / 3600 == h;
    FloorIs(s, if g == Hour then 3600 else 86400, ts);
  }

  lemma OneMoreFalling(row: Row, rest: seq<Row>)
    ensures TotalRevenue([row] + rest) == row.revenueCents + TotalRevenue(rest)
    ensures (set r | r in [row] + rest :: r.userId) == {row.userId} + (set r | r in rest :: r.userId)
    ensures (set r | r in [row] + rest :: r.sessionId) == {row.sessionId} + (set r | r in rest :: r.sessionId)
  {
    assert ([row] + rest)[1..] == rest;
    assert forall r :: r in [row] + rest <==> r == row || r in rest;
  }

  lemma {:induction false} BucketValues(q: Query, rows: seq<Row>, ts: int)
    ensures var a, falling := RowsInBucket(q, rows, ts), Falling(q, rows, ts);
            && a.count == |falling| && a.revenue == TotalRevenue(falling)
            && a.users == (set r | r in falling :: r.userId) && a.sessions == (set r | r in falling :: r.sessionId)
  {
    hide Falls, InRange, BucketOfRow;
    if rows != [] {
      var rest := Falling(q, rows[1..], ts);
      FallsIffInBucket(q, rows[0], ts);
      BucketValues(q, rows[1..], ts);
      OneMoreFalling(rows[0], rest);
      assert [] + rest == rest;
    }
  }

  lemma {:induction false} FallingIffSome(q: Query, rows: seq<Row>, ts: int)
    ensures Falling(q, rows, ts) != [] <==> exists i :: 0 <= i < |rows| && Falls(q, rows[i], ts)
  {
    hide Falls;
    if rows != [] {
      FallingIffSome(q, rows[1..], ts);
      if i :| 0 < i < |rows| && Falls(q, rows[i], ts) {
        assert rows[1..][i - 1] == rows[i];
      }
    }
  }

  /** MAIN: the answer of the KPI query on the rows themselves: it has a bucket exactly where a row
      falls, and that bucket's count is the number of these rows, its revenue the sum of their
      amounts, its users and sessions the sets of theirs. */
  lemma {:induction false} ReadValues(q: Query, s: KpiState, ts: int)
    requires Represents(s.parts, s.rows)
    ensures ts in Read(q, s.parts) <==> exists i :: 0 <= i < |s.rows| && Falls(q, s.rows[i], ts)
    ensures ts in Read(q, s.parts) ==>
              var a, falling := Read(q, s.parts)[ts], Falling(q, s.rows, ts);
              && a.count == |falling| > 0 && a.revenue == TotalRevenue(falling)
              && a.users == (set r | r in falling :: r.userId)
              && a.sessions == (set r | r in falling :: r.sessionId)
  {
    ReadIsDirect(q, s);
    hide Represents, Read, Falls, InRange, BucketOfRow;
    forall i | 0 <= i < |s.rows| {
      FallsIffInBucket(q, s.rows[i], ts);
    }
    BucketValues(q, s.rows, ts);
    FallingIffSome(q, s.rows, ts);
  }

  /** What a metric shows of a bucket: `aggSelectExpr`. */
  datatype Aggregation = SumRevenue | CountEvents | UniqueUsers

  function ValueOf(kind: Aggregation, a: Agg): int {
    match kind
    case SumRevenue => a.revenue
    case CountEvents => a.count
    case UniqueUsers => |a.users|
  }

  /** MAIN: the value of every bucket a metric returns, on the rows: the sum of the amounts, the
      number of events, or the number of different users. */
  lemma {:induction false} MetricValues(q: Query, s: KpiState, ts: int)
    requires Represents(s.parts, s.rows) && ts in Read(q, s.parts)
    ensures var a, falling := Read(q, s.parts)[ts], Falling(q, s.rows, ts);
            && ValueOf(SumRevenue, a) == TotalRevenue(falling)
            && ValueOf(CountEvents, a) == |falling|
            && ValueOf(UniqueUsers, a) == |set r | r in falling :: r.userId|
  {
    ReadValues(q, s, ts);
  }

  lemma {:induction false} RowsAddUp(q: Query, mid: int, rows: seq<Row>, ts: int)
    requires q.fromMs <= mid <= q.toMs
    ensures RowsInBucket(q, rows, ts) ==
            Merge(RowsInBucket(q.(toMs := mid), rows, ts), RowsInBucket(q.(fromMs := mid), rows, ts))
  {
    hide Merge;
    var a, b := q.(toMs := mid), q.(fromMs := mid);
    if rows == [] {
      MergeLaws(ZERO, ZERO, ZERO);
    } else {
      RowsAddUp(q, mid, rows[1..], ts);
      CeilHourMonotone(q.fromMs / 1000, mid / 1000);
      CeilHourMonotone(mid / 1000, q.toMs / 1000);
      assert InRange(q, rows[0]) <==> InRange(a, rows[0]) || InRange(b, rows[0]);
      assert !(InRange(a, rows[0]) && InRange(b, rows[0]));
      var x, y, z := One(rows[0]), RowsInBucket(a, rows[1..], ts), RowsInBucket(b, rows[1..], ts);
      MergeLaws(x, y, z);
      MergeLaws(y, x, z);
      MergeLaws(y, ZERO, ZERO);
      MergeLaws(z, ZERO, ZERO);
      MergeLaws(Merge(y, z), ZERO, ZERO);
    }
  }

  lemma CeilHourMonotone(a: int, b: int)
    requires a <= b
    ensures CeilHour(a) <= CeilHour(b)
  {
    assert (a + 3599) / 3600 <= (b + 3599) / 3600;
  }

  /** The answer for one bucket, zero where the read returns none. */
  function ReadOrZero(q: Query, parts: seq<Part>, ts: int): Agg {
    if ts in Read(q, parts) then Read(q, parts)[ts] else ZERO
  }

  lemma {:induction false} EmptyBucket(q: Query, rows: seq<Row>, ts: int)
    requires forall i :: 0 <= i < |rows| && InRange(q, rows[i]) ==> BucketOfRow(q, rows[i]) != ts
    ensures RowsInBucket(q, rows, ts) == ZERO
  {
    hide InRange, BucketOfRow, Merge;
    MergeLaws(ZERO, ZERO, ZERO);
    if rows != [] {
      EmptyBucket(q, rows[1..], ts);
    }
  }

  lemma {:induction false} ReadOrZeroIsDirect(q: Query, s: KpiState, ts: int)
    requires Represents(s.parts, s.rows)
    ensures ReadOrZero(q, s.parts, ts) == RowsInBucket(q, s.rows, ts)
  {
    ReadIsDirect(q, s);
    hide InRange, BucketOfRow, Read, Represents;
    if ts !in Read(q, s.parts) {
      EmptyBucket(q, s.rows, ts);
    }
  }

  /** MAIN: the reads of adjacent ranges add up: in every bucket counts and sums add and user sets
      unite. */
  lemma {:induction false} AdjacentRangesAddUp(q: Query, mid: int, s: KpiState, ts: int)
    requires q.fromMs <= mid <= q.toMs && Represents(s.parts, s.rows)
    ensures ReadOrZero(q, s.parts, ts) ==
            Merge(ReadOrZero(q.(toMs := mid), s.parts, ts), ReadOrZero(q.(fromMs := mid), s.parts, ts))
  {
    ReadOrZeroIsDirect(q, s, ts);
    ReadOrZeroIsDirect(q.(toMs := mid), s, ts);
    ReadOrZeroIsDirect(q.(fromMs := mid), s, ts);
    RowsAddUp(q, mid, s.rows, ts);
  }
}

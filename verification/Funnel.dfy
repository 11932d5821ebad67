/** The funnel endpoint (api/src/events/events.service.ts, `funnel`): users by the furthest step
    they reached, and the suffix sums made of the query's answer. */
module Funnel {
  import opened Events
  import opened EventStore

  /** A validated request; the bounds are in milliseconds and reach the query cut to seconds. */
  datatype Query = Query(workspaceId: string, steps: seq<string>, fromMs: int, toMs: int, windowHours: nat)

  /** /^[a-zA-Z0-9_.:-]{1,128}$/ */
  predicate StepName(s: string) {
    1 <= |s| <= 128 && forall c :: c in s ==>
      'a' <= c <= 'z' || 'A' <= c <= 'Z' || '0' <= c <= '9' || c == '_' || c == '.' || c == ':' || c == '-'
  }

  predicate ValidQuery(q: Query) {
    2 <= |q.steps| <= 8 && (forall s :: s in q.steps ==> StepName(s)) && q.fromMs < q.toMs && 1 <= q.windowHours <= 720
  }

  function ToSecond(ms: int): int {
    ms / 1000 * 1000
  }

  /** The WHERE clause. */
  predicate Selected(q: Query, row: Row) {
    && row.workspaceId == q.workspaceId && row.userId != ""
    && ToSecond(q.fromMs) <= row.occurredMs < ToSecond(q.toMs)
  }

  function UserRows(table: seq<Row>, q: Query, user: string): (rows: seq<Row>)
    ensures forall r :: r in rows <==> r in table && Selected(q, r) && r.userId == user
  {
    if table == [] then []
    else (if Selected(q, table[0]) && table[0].userId == user then [table[0]] else []) + UserRows(table[1..], q, user)
  }

  function Users(table: seq<Row>, q: Query): set<string> {
    set r | r in table && Selected(q, r) :: r.userId
  }

  // ---------------------------------------------------------------- windowFunnel

  predicate Matches(rows: seq<Row>, steps: seq<string>, picks: seq<nat>) {
    |picks| <= |steps| && forall i :: 0 <= i < |picks| ==> picks[i] < |rows| && rows[picks[i]].eventName == steps[i]
  }

  predicate Different(picks: seq<nat>) {
    forall i, j :: 0 <= i < j < |picks| ==> picks[i] != picks[j]
  }

  predicate InOrder(rows: seq<Row>, picks: seq<nat>)
    requires forall i :: 0 <= i < |picks| ==> picks[i] < |rows|
  {
    forall i, j :: 0 <= i < j < |picks| ==> rows[picks[i]].occurredMs <= rows[picks[j]].occurredMs
  }

  predicate InWindow(rows: seq<Row>, picks: seq<nat>, span: nat)
    requires forall i :: 0 <= i < |picks| ==> picks[i] < |rows|
  {
    picks != [] ==> rows[picks[|picks| - 1]].occurredMs - rows[picks[0]].occurredMs <= span
  }

  /** Different rows for the first |picks| steps, in time order, within the window. */
  predicate Chain(rows: seq<Row>, steps: seq<string>, span: nat, picks: seq<nat>) {
    Matches(rows, steps, picks) && Different(picks) && InOrder(rows, picks) && InWindow(rows, picks, span)
  }

  ghost predicate HasChain(rows: seq<Row>, steps: seq<string>, span: nat, k: nat) {
    exists picks: seq<nat> :: |picks| == k && Chain(rows, steps, span, picks)
  }

  /** The stated contract of `windowFunnel`: the length of the longest in-order prefix of the steps
      found inside the window. */
  ghost function Longest(rows: seq<Row>, steps: seq<string>, span: nat, k: nat): (level: nat)
    ensures level <= k
  {
    if k == 0 || HasChain(rows, steps, span, k) then k else Longest(rows, steps, span, k - 1)
  }

  function Span(q: Query): nat {
    q.windowHours * 3600 * 1000
  }

  ghost function Level(table: seq<Row>, q: Query, user: string): (level: nat)
    ensures level <= |q.steps|
  {
    Longest(UserRows(table, q, user), q.steps, Span(q), |q.steps|)
  }

  /** Whether the user went through the first `k` steps. */
  ghost predicate Reached(table: seq<Row>, q: Query, user: string, k: nat) {
    HasChain(UserRows(table, q, user), q.steps, Span(q), k)
  }

  lemma {:induction false} ShorterChain(rows: seq<Row>, steps: seq<string>, span: nat, k: nat, j: nat)
    requires HasChain(rows, steps, span, k) && j <= k
    ensures HasChain(rows, steps, span, j)
  {
    var picks: seq<nat> :| |picks| == k && Chain(rows, steps, span, picks);
    ChainPrefix(rows, steps, span, picks, j);
  }

  lemma ChainPrefix(rows: seq<Row>, steps: seq<string>, span: nat, picks: seq<nat>, j: nat)
    requires Chain(rows, steps, span, picks) && j <= |picks|
    ensures Chain(rows, steps, span, picks[..j])
  {
    if 0 < j < |picks| {
      assert rows[picks[j - 1]].occurredMs <= rows[picks[|picks| - 1]].occurredMs;
    }
  }

  lemma {:induction false} LongestAtLeast(rows: seq<Row>, steps: seq<string>, span: nat, k: nat, j: nat)
    requires j <= k
    ensures Longest(rows, steps, span, k) >= j <==> HasChain(rows, steps, span, j)
  {
    var none: seq<nat> := [];
    assert Chain(rows, steps, span, none);
    hide Chain;
    if HasChain(rows, steps, span, k) {
      ShorterChain(rows, steps, span, k, j);
    } else if j < k {
      LongestAtLeast(rows, steps, span, k - 1, j);
    }
  }

  lemma LevelAtLeast(table: seq<Row>, q: Query, user: string, k: nat)
    requires k <= |q.steps|
    ensures Level(table, q, user) >= k <==> Reached(table, q, user, k)
  {
    LongestAtLeast(UserRows(table, q, user), q.steps, Span(q), |q.steps|, k);
  }

  // ---------------------------------------------------------------- the query's answer

  datatype LevelRow = LevelRow(level: nat, users: nat)

  ghost function AtLevel(table: seq<Row>, q: Query, level: nat): set<string> {
    set u | u in Users(table, q) && Level(table, q, u) == level
  }

  ghost function AtLeast(table: seq<Row>, q: Query, level: nat): set<string> {
    set u | u in Users(table, q) && Level(table, q, u) >= level
  }

  /** GROUP BY funnel_level: one row per level that some user has. */
  ghost predicate Answers(rows: seq<LevelRow>, table: seq<Row>, q: Query) {
    && (forall i :: 0 <= i < |rows| ==> rows[i].users == |AtLevel(table, q, rows[i].level)| > 0)
    && (forall i, j :: 0 <= i < j < |rows| ==> rows[i].level != rows[j].level)
    && (forall u :: u in Users(table, q) ==> exists i :: 0 <= i < |rows| && rows[i].level == Level(table, q, u))
  }

  // ---------------------------------------------------------------- the suffix sums

  ghost function CountAt(table: seq<Row>, q: Query, level: nat): nat {
    |AtLevel(table, q, level)|
  }

  lemma AtLeastSplits(table: seq<Row>, q: Query, level: nat)
    ensures |AtLeast(table, q, level)| == CountAt(table, q, level) + |AtLeast(table, q, level + 1)|
    ensures level > |q.steps| ==> AtLeast(table, q, level) == {}
  {
    hide Users, Level;
    assert AtLeast(table, q, level) == AtLevel(table, q, level) + AtLeast(table, q, level + 1);
    assert AtLevel(table, q, level) !! AtLeast(table, q, level + 1);
  }

  datatype FunnelStep = FunnelStep(name: string, reached: nat, conversion: real)

  /** `levelCounts`: the counts of the query's rows by level, zero where there is no row. */
  method LevelCounts(rows: seq<LevelRow>, n: nat, ghost table: seq<Row>, ghost q: Query)
      returns (levelCounts: array<nat>)
    requires Answers(rows, table, q)
    ensures fresh(levelCounts) && levelCounts.Length == n + 1
    ensures forall l :: 0 <= l <= n ==> levelCounts[l] == CountAt(table, q, l)
  {
    hide CountAt, Answers, Named, Users, Level, AtLevel;
    levelCounts := new nat[n + 1](_ => 0);
    var r := 0;
    NamedNone(rows);
    while r < |rows|
      invariant 0 <= r <= |rows|
      invariant forall l :: 0 <= l <= n ==> levelCounts[l] == if Named(rows[..r], l) then CountAt(table, q, l) else 0
    {
      var lvl, u := rows[r].level, rows[r].users;
      NamedNext(rows, r);
      RowCounts(rows, table, q, r);
      if 0 <= lvl <= n {
        levelCounts[lvl] := u;
      }
      r := r + 1;
    }
    assert rows[..r] == rows;
    forall l | 0 <= l <= n
      ensures levelCounts[l] == CountAt(table, q, l)
    {
      AllLevelsNamed(rows, table, q, l);
    }
  }

  /** `reached`: the suffix sums of the level counts. */
  method SuffixSums(levelCounts: array<nat>, ghost table: seq<Row>, ghost q: Query) returns (reached: array<nat>)
    requires levelCounts.Length == |q.steps| + 1
    requires forall l :: 0 <= l <= |q.steps| ==> levelCounts[l] == CountAt(table, q, l)
    ensures fresh(reached) && reached.Length == levelCounts.Length - 1
    ensures forall k :: 0 <= k < reached.Length ==> reached[k] == |AtLeast(table, q, k + 1)|
  {
    hide CountAt, AtLeast, Users, Level;
    var n := levelCounts.Length - 1;
    reached := new nat[n](_ => 0);
    var i := n;
    AtLeastSplits(table, q, n + 1);
    while i >= 1
      invariant 0 <= i <= n
      invariant forall l :: 0 <= l <= n ==> levelCounts[l] == CountAt(table, q, l)
      invariant forall k :: i <= k < n ==> reached[k] == |AtLeast(table, q, k + 1)|
    {
      AtLeastSplits(table, q, i);
      reached[i - 1] := levelCounts[i] + (if i < n then reached[i] else 0);
      i := i - 1;
    }
  }

  function Conversion(reached: nat, first: nat): real {
    if first > 0 then reached as real / first as real else 0.0
  }

  /** The share of the users of the first step. */
  lemma ConversionIsShare(reached: nat, first: nat)
    requires reached <= first
    ensures 0.0 <= Conversion(reached, first) <= 1.0
    ensures Conversion(reached, first) * first as real == reached as real
    ensures first == 0 ==> Conversion(reached, first) == 0.0
  {
    if first > 0 {
      ShareOf(reached as real, first as real);
    }
  }

  lemma ShareOf(r: real, f: real)
    requires 0.0 <= r <= f && f > 0.0
    ensures 0.0 <= r / f <= 1.0 && r / f * f == r
  {
    var share := r / f;
    assert share * f == r;
    assert (share - 1.0) * f == r - f;
  }

  /** The answer of the endpoint, one entry per step. */
  method Present(steps: seq<string>, reached: seq<nat>) returns (out: seq<FunnelStep>)
    requires |steps| == |reached| > 0
    ensures |out| == |steps|
    ensures forall k :: 0 <= k < |out| ==>
              out[k] == FunnelStep(steps[k], reached[k], Conversion(reached[k], reached[0]))
  {
    var first := reached[0];
    out := [];
    var k := 0;
    while k < |steps|
      invariant 0 <= k <= |steps| && |out| == k
      invariant forall j :: 0 <= j < k ==> out[j] == FunnelStep(steps[j], reached[j], Conversion(reached[j], first))
    {
      out := out + [FunnelStep(steps[k], reached[k], if first > 0 then reached[k] as real / first as real else 0.0)];
      k := k + 1;
    }
  }

  /** What the endpoint makes of the query's answer. MAIN: `reached` of a step counts exactly the
      users that went through all steps up to it, so it never rises along the funnel, and the
      conversions are the shares of the first step, in [0, 1]. */
  method Summarise(rows: seq<LevelRow>, q: Query, ghost table: seq<Row>) returns (out: seq<FunnelStep>)
    requires ValidQuery(q) && Answers(rows, table, q)
    ensures |out| == |q.steps| >= 2
    ensures forall i :: 0 <= i < |out| ==> out[i].name == q.steps[i] && out[i].reached == |AtLeast(table, q, i + 1)|
    ensures forall i :: 0 <= i < |out| ==> 0.0 <= out[i].conversion <= 1.0
    ensures forall i :: 0 <= i < |out| ==> out[i].conversion * out[0].reached as real == out[i].reached as real
    ensures forall i, j :: 0 <= i <= j < |out| ==> out[j].reached <= out[i].reached
    ensures out[0].reached == 0 ==> forall i :: 0 <= i < |out| ==> out[i].conversion == 0.0
  {
    hide Answers, AtLeast, CountAt, ValidQuery, Conversion;
    assert |q.steps| >= 2 by { AtLeastTwo(q); }
    var levelCounts := LevelCounts(rows, |q.steps|, table, q);
    var reached := SuffixSums(levelCounts, table, q);
    out := Present(q.steps, reached[..]);
    forall i | 0 <= i < |out|
      ensures out[i].reached <= out[0].reached && 0.0 <= out[i].conversion <= 1.0
      ensures out[i].conversion * out[0].reached as real == out[i].reached as real
      ensures out[0].reached == 0 ==> out[i].conversion == 0.0
    {
      AtLeastShrinks(table, q, 1, i + 1);
      ConversionIsShare(out[i].reached, out[0].reached);
    }
    forall i, j | 0 <= i <= j < |out|
      ensures out[j].reached <= out[i].reached
    {
      AtLeastShrinks(table, q, i + 1, j + 1);
    }
  }

  lemma AtLeastTwo(q: Query)
    requires ValidQuery(q)
    ensures |q.steps| >= 2
  {
  }

  lemma RowCounts(rows: seq<LevelRow>, table: seq<Row>, q: Query, r: nat)
    requires Answers(rows, table, q) && r < |rows|
    ensures rows[r].users == CountAt(table, q, rows[r].level)
  {
  }

  predicate Named(rows: seq<LevelRow>, level: nat) {
    exists i :: 0 <= i < |rows| && rows[i].level == level
  }

  lemma NamedNone(rows: seq<LevelRow>)
    ensures forall l :: !Named(rows[..0], l)
  {
  }

  lemma NamedNext(rows: seq<LevelRow>, r: nat)
    requires r < |rows|
    ensures forall l :: Named(rows[..r + 1], l) <==> Named(rows[..r], l) || l == rows[r].level
  {
    assert rows[..r + 1] == rows[..r] + [rows[r]];
    assert rows[..r + 1][r] == rows[r];
    forall l | Named(rows[..r], l)
      ensures Named(rows[..r + 1], l)
    {
      var i :| 0 <= i < r && rows[..r][i].level == l;
      assert rows[..r + 1][i].level == l;
    }
  }

  lemma AllLevelsNamed(rows: seq<LevelRow>, table: seq<Row>, q: Query, l: nat)
    requires Answers(rows, table, q)
    ensures !Named(rows, l) ==> CountAt(table, q, l) == 0
  {
    hide Users, Level;
    if !Named(rows, l) {
      assert AtLevel(table, q, l) == {};
    }
  }

  lemma AtLeastShrinks(table: seq<Row>, q: Query, a: nat, b: nat)
    requires a <= b
    ensures |AtLeast(table, q, b)| <= |AtLeast(table, q, a)|
  {
    hide Users, Level;
    assert AtLeast(table, q, b) <= AtLeast(table, q, a);
    Smaller(AtLeast(table, q, b), AtLeast(table, q, a));
  }

  lemma Smaller<T>(a: set<T>, b: set<T>)
    requires a <= b
    ensures |a| <= |b|
  {
    assert b == a + (b - a);
  }

  /** The rows of the table at `at` show `user` going through the first steps: different rows of
      that user in the workspace, in the range cut down to seconds, named like the steps, in
      time order, the last within the window from the first. */
  predicate WentThrough(table: seq<Row>, q: Query, user: string, at: seq<nat>) {
    && |at| <= |q.steps|
    && (forall i :: 0 <= i < |at| ==> at[i] < |table| && IsStep(table[at[i]], q, user, i))
    && (forall i, j :: 0 <= i < j < |at| ==> at[i] != at[j] && table[at[i]].occurredMs <= table[at[j]].occurredMs)
    && (at != [] ==> table[at[|at| - 1]].occurredMs <= table[at[0]].occurredMs + 3_600_000 * q.windowHours)
  }

  predicate IsStep(row: Row, q: Query, user: string, i: nat)
    requires i < |q.steps|
  {
    && row.workspaceId == q.workspaceId && row.userId == user && user != "" && row.eventName == q.steps[i]
    && q.fromMs / 1000 <= row.occurredMs / 1000 < q.toMs / 1000
  }

  /** The same in the terms of a chain. */
  predicate OnTable(table: seq<Row>, q: Query, user: string, at: seq<nat>) {
    && Matches(table, q.steps, at) && Different(at) && InOrder(table, at) && InWindow(table, at, Span(q))
    && (forall i :: 0 <= i < |at| ==> OfUser(table[at[i]], q, user))
  }

  predicate OfUser(row: Row, q: Query, user: string) {
    Selected(q, row) && row.userId == user
  }

  lemma StepIff(row: Row, q: Query, user: string, i: nat)
    requires i < |q.steps|
    ensures IsStep(row, q, user, i) <==> OfUser(row, q, user) && row.eventName == q.steps[i]
  {
  }

  lemma {:induction false} OnTableIff(table: seq<Row>, q: Query, user: string, at: seq<nat>)
    ensures WentThrough(table, q, user, at) <==> OnTable(table, q, user, at)
  {
    forall i | 0 <= i < |at| && at[i] < |table| && |at| <= |q.steps|
      ensures IsStep(table[at[i]], q, user, i) <==>
              OfUser(table[at[i]], q, user) && table[at[i]].eventName == q.steps[i]
    {
      StepIff(table[at[i]], q, user, i);
    }
    hide IsStep, OfUser;
  }

  /** `pos` says where `rows` stand in the table, in ascending order. */
  predicate Stand(table: seq<Row>, q: Query, user: string, rows: seq<Row>, pos: seq<nat>) {
    && |pos| == |rows|
    && (forall j :: 0 <= j < |pos| ==>
          pos[j] < |table| && table[pos[j]] == rows[j] && OfUser(table[pos[j]], q, user))
    && (forall i, j :: 0 <= i < j < |pos| ==> pos[i] < pos[j])
  }

  /** `place` says which of them a row of the user in the table is. */
  predicate Placed(table: seq<Row>, q: Query, user: string, pos: seq<nat>, place: seq<nat>) {
    && |place| == |table|
    && forall p :: 0 <= p < |table| && OfUser(table[p], q, user) ==> place[p] < |pos| && pos[place[p]] == p
  }

  function Shifted(xs: seq<nat>): (r: seq<nat>)
    ensures |r| == |xs| && forall i :: 0 <= i < |xs| ==> r[i] == xs[i] + 1
  {
    seq(|xs|, i requires 0 <= i < |xs| => xs[i] + 1)
  }

  lemma {:induction false} Places(table: seq<Row>, q: Query, user: string) returns (pos: seq<nat>, place: seq<nat>)
    ensures Stand(table, q, user, UserRows(table, q, user), pos) && Placed(table, q, user, pos, place)
  {
    pos, place := [], [];
    if table != [] {
      var rows := UserRows(table[1..], q, user);
      var first := OfUser(table[0], q, user);
      assert UserRows(table, q, user) == (if first then [table[0]] else []) + rows;
      pos, place := Places(table[1..], q, user);
      hide UserRows, OfUser;
      if first {
        StandMore(table, q, user, rows, pos);
        PlacedMore(table, q, user, pos, place);
        pos, place := [0] + Shifted(pos), [0] + Shifted(place);
      } else {
        assert [] + rows == rows;
        StandSame(table, q, user, rows, pos);
        PlacedSame(table, q, user, pos, place);
        pos, place := Shifted(pos), [0] + place;
      }
    }
  }

  lemma StandMore(table: seq<Row>, q: Query, user: string, rows: seq<Row>, pos: seq<nat>)
    requires table != [] && Stand(table[1..], q, user, rows, pos) && OfUser(table[0], q, user)
    ensures Stand(table, q, user, [table[0]] + rows, [0] + Shifted(pos))
  {
    hide OfUser;
    assert forall j :: 0 <= j < |pos| ==> table[pos[j] + 1] == table[1..][pos[j]];
  }

  lemma StandSame(table: seq<Row>, q: Query, user: string, rows: seq<Row>, pos: seq<nat>)
    requires table != [] && Stand(table[1..], q, user, rows, pos)
    ensures Stand(table, q, user, rows, Shifted(pos))
  {
    hide OfUser;
    assert forall j :: 0 <= j < |pos| ==> table[pos[j] + 1] == table[1..][pos[j]];
  }

  lemma PlacedMore(table: seq<Row>, q: Query, user: string, pos: seq<nat>, place: seq<nat>)
    requires table != [] && Placed(table[1..], q, user, pos, place)
    ensures Placed(table, q, user, [0] + Shifted(pos), [0] + Shifted(place))
  {
    hide OfUser;
    var pos', place' := [0] + Shifted(pos), [0] + Shifted(place);
    forall p | 0 <= p < |table| && OfUser(table[p], q, user)
      ensures place'[p] < |pos'| && pos'[place'[p]] == p
    {
      if p > 0 {
        assert table[1..][p - 1] == table[p];
      }
    }
  }

  lemma PlacedSame(table: seq<Row>, q: Query, user: string, pos: seq<nat>, place: seq<nat>)
    requires table != [] && Placed(table[1..], q, user, pos, place) && !OfUser(table[0], q, user)
    ensures Placed(table, q, user, Shifted(pos), [0] + place)
  {
    hide OfUser;
    var pos', place' := Shifted(pos), [0] + place;
    forall p | 0 <= p < |table| && OfUser(table[p], q, user)
      ensures place'[p] < |pos'| && pos'[place'[p]] == p
    {
      assert p > 0 && table[1..][p - 1] == table[p];
    }
  }

  lemma {:induction false} ChainOnTable(table: seq<Row>, q: Query, user: string, rows: seq<Row>, pos: seq<nat>,
                                        picks: seq<nat>) returns (at: seq<nat>)
    requires Stand(table, q, user, rows, pos) && Chain(rows, q.steps, Span(q), picks)
    ensures |at| == |picks| && OnTable(table, q, user, at)
  {
    hide OfUser, Span;
    at := seq(|picks|, i requires 0 <= i < |picks| => pos[picks[i]]);
    CopiesInTime(rows, table, picks, at, Span(q));
    hide InOrder, InWindow;
    assert Different(at) by {
      assert forall i, j :: 0 <= i < j < |at| ==> picks[i] < picks[j] || picks[j] < picks[i];
    }
    hide Different;
  }

  lemma {:induction false} ChainFromTable(table: seq<Row>, q: Query, user: string, rows: seq<Row>, pos: seq<nat>,
                                          place: seq<nat>, at: seq<nat>) returns (picks: seq<nat>)
    requires Stand(table, q, user, rows, pos) && Placed(table, q, user, pos, place) && OnTable(table, q, user, at)
    ensures |picks| == |at| && Chain(rows, q.steps, Span(q), picks)
  {
    hide OfUser, Span;
    picks := seq(|at|, i requires 0 <= i < |at| => place[at[i]]);
    assert forall i :: 0 <= i < |at| ==> picks[i] < |pos| && pos[picks[i]] == at[i];
    CopiesInTime(table, rows, at, picks, Span(q));
    hide InOrder, InWindow;
  }

  /** MAIN: what `reached` of a step counts, on the rows of the table: exactly the users whose rows
      show them going through all steps up to it. */
  lemma {:induction false} CountedIffWentThrough(table: seq<Row>, q: Query, user: string, k: nat)
    requires 1 <= k <= |q.steps|
    ensures user in AtLeast(table, q, k) <==> exists at: seq<nat> :: |at| == k && WentThrough(table, q, user, at)
  {
    LevelAtLeast(table, q, user, k);
    hide Level, Chain, WentThrough, OnTable, UserRows, Users, Stand, Placed;
    var rows := UserRows(table, q, user);
    var pos, place := Places(table, q, user);
    if Reached(table, q, user, k) {
      var picks: seq<nat> :| |picks| == k && Chain(rows, q.steps, Span(q), picks);
      var at := ChainOnTable(table, q, user, rows, pos, picks);
      OnTableIff(table, q, user, at);
      FirstIsUser(table, q, user, at);
    }
    if at: seq<nat> :| |at| == k && WentThrough(table, q, user, at) {
      OnTableIff(table, q, user, at);
      var picks := ChainFromTable(table, q, user, rows, pos, place, at);
      FirstIsUser(table, q, user, at);
    }
  }

  lemma FirstIsUser(table: seq<Row>, q: Query, user: string, at: seq<nat>)
    requires OnTable(table, q, user, at) && at != []
    ensures user in Users(table, q)
  {
    hide Selected;
    assert OfUser(table[at[0]], q, user) && table[at[0]] in table;
  }

  /** What `reached` counts, user by user. */
  lemma {:induction false} AtLeastIsReached(table: seq<Row>, q: Query, k: nat)
    requires k <= |q.steps|
    ensures AtLeast(table, q, k) == set u | u in Users(table, q) && Reached(table, q, u, k)
  {
    hide Level, Reached, Users;
    forall u: string
      ensures Level(table, q, u) >= k <==> Reached(table, q, u, k)
    {
      LevelAtLeast(table, q, u, k);
    }
  }

  // ---------------------------------------------------------------- duplicate rows

  predicate DistinctSteps(steps: seq<string>) {
    forall i, j :: 0 <= i < j < |steps| ==> steps[i] != steps[j]
  }

  /** Both tables hold the same rows, each any number of times. */
  ghost predicate SameRows(a: seq<Row>, b: seq<Row>) {
    forall r :: r in a <==> r in b
  }

  function IndexOf(rows: seq<Row>, row: Row): (i: nat)
    requires row in rows
    ensures i < |rows| && rows[i] == row
  {
    if rows[0] == row then 0 else 1 + IndexOf(rows[1..], row)
  }

  /** A chain for distinct steps can be found again among copies of its rows. */
  lemma {:induction false} ChainTransfers(rows: seq<Row>, others: seq<Row>, steps: seq<string>, span: nat, k: nat)
    requires DistinctSteps(steps) && HasChain(rows, steps, span, k) && forall r :: r in rows ==> r in others
    ensures HasChain(others, steps, span, k)
  {
    var picks: seq<nat> :| |picks| == k && Chain(rows, steps, span, picks);
    var copies := Copies(rows, others, picks);
    hide IndexOf;
    CopiesDiffer(others, steps, copies);
    CopiesInTime(rows, others, picks, copies, span);
    assert Chain(others, steps, span, copies);
  }

  function Copies(rows: seq<Row>, others: seq<Row>, picks: seq<nat>): (copies: seq<nat>)
    requires forall i :: 0 <= i < |picks| ==> picks[i] < |rows|
    requires forall r :: r in rows ==> r in others
    ensures |copies| == |picks|
    ensures forall i :: 0 <= i < |picks| ==> copies[i] < |others| && others[copies[i]] == rows[picks[i]]
  {
    seq(|picks|, i requires 0 <= i < |picks| => IndexOf(others, rows[picks[i]]))
  }

  lemma CopiesDiffer(others: seq<Row>, steps: seq<string>, copies: seq<nat>)
    requires DistinctSteps(steps) && Matches(others, steps, copies)
    ensures Different(copies)
  {
    forall i, j | 0 <= i < j < |copies|
      ensures copies[i] != copies[j]
    {
      assert others[copies[i]].eventName == steps[i] && others[copies[j]].eventName == steps[j];
    }
  }

  lemma CopiesInTime(rows: seq<Row>, others: seq<Row>, picks: seq<nat>, copies: seq<nat>, span: nat)
    requires |copies| == |picks|
    requires forall i :: 0 <= i < |picks| ==>
               picks[i] < |rows| && copies[i] < |others| && others[copies[i]] == rows[picks[i]]
    requires InOrder(rows, picks) && InWindow(rows, picks, span)
    ensures InOrder(others, copies) && InWindow(others, copies, span)
  {
    forall i, j | 0 <= i < j < |copies|
      ensures others[copies[i]].occurredMs <= others[copies[j]].occurredMs
    {
      assert rows[picks[i]].occurredMs <= rows[picks[j]].occurredMs;
    }
  }

  /** MAIN: with distinct step names duplicate rows do not matter: unmerged copies of rows change
      neither who is counted nor how far anyone got. */
  lemma {:induction false} DuplicatesUnobservable(table: seq<Row>, others: seq<Row>, q: Query, user: string)
    requires DistinctSteps(q.steps) && SameRows(table, others)
    ensures Users(table, q) == Users(others, q)
    ensures Level(table, q, user) == Level(others, q, user)
  {
    hide Longest, HasChain, Selected;
    var rows, copies := UserRows(table, q, user), UserRows(others, q, user);
    assert forall r :: r in rows <==> r in copies;
    SameLongest(rows, copies, q.steps, Span(q));
  }

  lemma {:induction false} SameLongest(rows: seq<Row>, copies: seq<Row>, steps: seq<string>, span: nat)
    requires DistinctSteps(steps) && SameRows(rows, copies)
    ensures Longest(rows, steps, span, |steps|) == Longest(copies, steps, span, |steps|)
  {
    var level, other := Longest(rows, steps, span, |steps|), Longest(copies, steps, span, |steps|);
    LongestAtLeast(rows, steps, span, |steps|, level);
    LongestAtLeast(copies, steps, span, |steps|, level);
    LongestAtLeast(rows, steps, span, |steps|, other);
    LongestAtLeast(copies, steps, span, |steps|, other);
    hide Longest, HasChain, DistinctSteps;
    ChainTransfers(rows, copies, steps, span, level);
    ChainTransfers(copies, rows, steps, span, other);
  }

  /** Replacing a superseded copy in the background does not move the funnel, as long as rows with
      equal sort keys are equal, as they are for messages that carry their time. */
  lemma {:induction false} MergeKeepsFunnel(t: seq<Stored>, i: nat, q: Query, user: string)
    requires DistinctSteps(q.steps) && i < |t| && !Visible(t, i)
    requires forall j, k :: 0 <= j < |t| && 0 <= k < |t| && Key(t[j]) == Key(t[k]) ==> t[j].entry.row == t[k].entry.row
    ensures var u := t[..i] + t[i + 1..];
            Users(RowsOf(u), q) == Users(RowsOf(t), q) && Level(RowsOf(u), q, user) == Level(RowsOf(t), q, user)
  {
    MergeKeepsRows(t, i);
    DuplicatesUnobservable(RowsOf(t), RowsOf(t[..i] + t[i + 1..]), q, user);
  }

  lemma {:induction false} MergeKeepsRows(t: seq<Stored>, i: nat)
    requires i < |t| && !Visible(t, i)
    requires forall j, k :: 0 <= j < |t| && 0 <= k < |t| && Key(t[j]) == Key(t[k]) ==> t[j].entry.row == t[k].entry.row
    ensures SameRows(RowsOf(t), RowsOf(t[..i] + t[i + 1..]))
  {
    var u := t[..i] + t[i + 1..];
    var j :| 0 <= j < |t| && Key(t[j]) == Key(t[i]) && !Prefers(t, i, j);
    assert j != i && t[j].entry.row == t[i].entry.row;
    hide Key;
    assert RowsOf(u) == RowsOf(t)[..i] + RowsOf(t)[i + 1..];
    RemoveCopy(RowsOf(t), i, j);
  }

  lemma RemoveCopy(rows: seq<Row>, i: nat, j: nat)
    requires i < |rows| && j < |rows| && i != j && rows[i] == rows[j]
    ensures SameRows(rows, rows[..i] + rows[i + 1..])
  {
    var a, b := rows[..i], rows[i + 1..];
    assert rows == a + [rows[i]] + b;
    assert rows[j] in a + b by {
      assert rows[j] == if j < i then a[j] else b[j - i - 1];
    }
  }

  // Why the names must be distinct.

  function StepRow(q: Query, name: string): Row {
    Row(q.workspaceId, name, name, "user", "", ToSecond(q.fromMs), map[], 0, "", "", "", "", "", "", [])
  }

  /** One row for every step. */
  function EachStep(q: Query, n: nat): (rows: seq<Row>)
    requires n <= |q.steps|
    ensures |rows| == n && forall i :: 0 <= i < n ==> rows[i] == StepRow(q, q.steps[i])
    ensures forall r :: r in rows ==> r == StepRow(q, r.eventName)
  {
    if n == 0 then [] else EachStep(q, n - 1) + [StepRow(q, q.steps[n - 1])]
  }

  /** The same rows, each only once. */
  function OnceEach(q: Query, n: nat): (rows: seq<Row>)
    requires n <= |q.steps|
    ensures forall i :: 0 <= i < n ==> StepRow(q, q.steps[i]) in rows
    ensures forall r :: r in rows ==> r.eventName in q.steps && r == StepRow(q, r.eventName)
    ensures forall i, j :: 0 <= i < j < |rows| ==> rows[i].eventName != rows[j].eventName
  {
    if n == 0 then []
    else
      var rows := OnceEach(q, n - 1);
      if StepRow(q, q.steps[n - 1]) in rows then rows else rows + [StepRow(q, q.steps[n - 1])]
  }

  lemma {:induction false} AllSelected(rows: seq<Row>, q: Query)
    requires ToSecond(q.fromMs) < ToSecond(q.toMs) && forall r :: r in rows ==> r == StepRow(q, r.eventName)
    ensures UserRows(rows, q, "user") == rows
  {
    if rows != [] {
      assert rows[0] in rows && Selected(q, rows[0]) && rows[0].userId == "user";
      hide Selected, StepRow;
      AllSelected(rows[1..], q);
      assert rows == [rows[0]] + rows[1..];
    }
  }

  /** MAIN: the condition is exact: whenever a step name repeats and the range is not empty, there
      are rows whose duplicates alone complete the funnel. */
  lemma {:induction false} RepeatedStepsCountDuplicates(q: Query)
    requires !DistinctSteps(q.steps) && ToSecond(q.fromMs) < ToSecond(q.toMs)
    ensures var once, each := OnceEach(q, |q.steps|), EachStep(q, |q.steps|);
            && SameRows(once, each)
            && Level(each, q, "user") == |q.steps|
            && Level(once, q, "user") < |q.steps|
  {
    var once, each := OnceEach(q, |q.steps|), EachStep(q, |q.steps|);
    SameStepRows(q);
    AllSelected(once, q);
    AllSelected(each, q);
    assert forall i :: 0 <= i < |each| ==> each[i].eventName == q.steps[i] && each[i].occurredMs == ToSecond(q.fromMs);
    hide UserRows, Longest, OnceEach, EachStep, StepRow, SameRows;
    EachCompletes(each, q.steps, Span(q));
    OnceFallsShort(once, q.steps, Span(q));
  }

  lemma {:induction false} SameStepRows(q: Query)
    ensures SameRows(OnceEach(q, |q.steps|), EachStep(q, |q.steps|))
  {
    var once, each := OnceEach(q, |q.steps|), EachStep(q, |q.steps|);
    hide StepRow;
    assert forall i :: 0 <= i < |q.steps| ==> each[i] in once;
    forall r | r in once
      ensures r in each
    {
      var i :| 0 <= i < |q.steps| && q.steps[i] == r.eventName;
      assert each[i] == r;
    }
  }

  lemma {:induction false} EachCompletes(rows: seq<Row>, steps: seq<string>, span: nat)
    requires |rows| == |steps| && forall i :: 0 <= i < |steps| ==> rows[i].eventName == steps[i]
    requires forall i, j :: 0 <= i < |rows| && 0 <= j < |rows| ==> rows[i].occurredMs == rows[j].occurredMs
    ensures Longest(rows, steps, span, |steps|) == |steps|
  {
    var n := |steps|;
    var all: seq<nat> := seq(n, i requires 0 <= i < n => i);
    assert Matches(rows, steps, all) && Different(all) && InOrder(rows, all) && InWindow(rows, all, span);
    assert Chain(rows, steps, span, all);
    hide Chain;
    LongestAtLeast(rows, steps, span, n, n);
  }

  /** A repeated step needs two rows of its name. */
  lemma {:induction false} OnceFallsShort(rows: seq<Row>, steps: seq<string>, span: nat)
    requires !DistinctSteps(steps)
    requires forall i, j :: 0 <= i < j < |rows| ==> rows[i].eventName != rows[j].eventName
    ensures Longest(rows, steps, span, |steps|) < |steps|
  {
    var n := |steps|;
    var a, b :| 0 <= a < b < n && steps[a] == steps[b];
    forall picks: seq<nat> | |picks| == n && Matches(rows, steps, picks)
      ensures !Different(picks)
    {
      assert rows[picks[a]].eventName == rows[picks[b]].eventName;
    }
    assert !HasChain(rows, steps, span, n);
    LongestAtLeast(rows, steps, span, n, n);
  }
}

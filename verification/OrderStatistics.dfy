/** Sorted windows and interpolated quantiles (the part of NumPy the detectors rely on). */
module OrderStatistics {

  function Insert(v: real, s: seq<real>): (r: seq<real>)
    ensures |r| == |s| + 1
  {
    if s == [] then [v]
    else if v <= s[0] then [v] + s
    else [s[0]] + Insert(v, s[1..])
  }

  function Sort(xs: seq<real>): (s: seq<real>)
    ensures |s| == |xs|
  {
    if xs == [] then [] else Insert(xs[0], Sort(xs[1..]))
  }

  predicate IsSorted(s: seq<real>) {
    forall i, j :: 0 <= i < j < |s| ==> s[i] <= s[j]
  }

  predicate AtLeast(s: seq<real>, low: real) {
    forall i :: 0 <= i < |s| ==> low <= s[i]
  }

  lemma {:induction false} InsertAtLeast(v: real, s: seq<real>, low: real)
    requires AtLeast(s, low) && low <= v
    ensures AtLeast(Insert(v, s), low)
  {
    if s != [] && v > s[0] {
      InsertAtLeast(v, s[1..], low);
    }
  }

  lemma {:induction false} InsertSorts(v: real, s: seq<real>)
    requires IsSorted(s)
    ensures IsSorted(Insert(v, s))
  {
    if s != [] && v > s[0] {
      InsertSorts(v, s[1..]);
      InsertAtLeast(v, s[1..], s[0]);
    }
  }

  lemma {:induction false} SortSorts(xs: seq<real>)
    ensures IsSorted(Sort(xs))
  {
    if xs != [] {
      SortSorts(xs[1..]);
      InsertSorts(xs[0], Sort(xs[1..]));
    }
  }

  lemma {:induction false} InsertMultiset(v: real, s: seq<real>)
    ensures multiset(Insert(v, s)) == multiset{v} + multiset(s)
  {
    if s != [] {
      assert s == [s[0]] + s[1..];
      if v > s[0] {
        InsertMultiset(v, s[1..]);
      }
    }
  }

  /** Sorting only moves points. */
  lemma {:induction false} SortPermutes(xs: seq<real>)
    ensures multiset(Sort(xs)) == multiset(xs)
  {
    if xs != [] {
      SortPermutes(xs[1..]);
      InsertMultiset(xs[0], Sort(xs[1..]));
      assert xs == [xs[0]] + xs[1..];
    }
  }

  lemma {:induction false} InsertCommutes(a: real, b: real, s: seq<real>)
    ensures Insert(a, Insert(b, s)) == Insert(b, Insert(a, s))
  {
    if s != [] && a > s[0] && b > s[0] {
      InsertCommutes(a, b, s[1..]);
    }
  }

  lemma {:induction false} SortOfMiddle(p: seq<real>, x: real, q: seq<real>)
    ensures Sort(p + [x] + q) == Insert(x, Sort(p + q))
  {
    if p == [] {
      assert p + [x] + q == [x] + q && p + q == q;
    } else {
      assert (p + [x] + q)[1..] == p[1..] + [x] + q && (p + q)[1..] == p[1..] + q;
      SortOfMiddle(p[1..], x, q);
      InsertCommutes(p[0], x, Sort(p[1..] + q));
    }
  }

  /** The order of the window does not matter. */
  lemma {:induction false} SortIgnoresOrder(xs: seq<real>, ys: seq<real>)
    requires multiset(xs) == multiset(ys)
    ensures Sort(xs) == Sort(ys)
  {
    if xs == [] {
      assert |multiset(ys)| == 0;
    } else {
      assert xs == [xs[0]] + xs[1..];
      assert xs[0] in multiset(ys);
      var i :| 0 <= i < |ys| && ys[i] == xs[0];
      var rest := ys[..i] + ys[i + 1..];
      assert ys == ys[..i] + [xs[0]] + ys[i + 1..];
      assert multiset(rest) == multiset(ys) - multiset{xs[0]};
      assert multiset(xs[1..]) == multiset(xs) - multiset{xs[0]};
      SortIgnoresOrder(xs[1..], rest);
      SortOfMiddle(ys[..i], xs[0], ys[i + 1..]);
    }
  }

  // ---------------------------------------------------------------- quantiles

  /** The point `quarters`/4 of the way from x to y. */
  function Mix(x: real, y: real, quarters: nat): real
    requires 1 <= quarters <= 3
  {
    x + (quarters as real / 4.0) * (y - x)
  }

  lemma MixCases(x: real, y: real, quarters: nat)
    requires 1 <= quarters <= 3
    ensures quarters == 1 ==> Mix(x, y, quarters) == 0.75 * x + 0.25 * y
    ensures quarters == 2 ==> Mix(x, y, quarters) == 0.5 * x + 0.5 * y
    ensures quarters == 3 ==> Mix(x, y, quarters) == 0.25 * x + 0.75 * y
  {
  }

  /** Reading a sorted sequence at rank/4, linearly interpolated between neighbours. */
  function AtRank(s: seq<real>, rank: nat): real
    requires rank <= 4 * (|s| - 1)
  {
    if rank % 4 == 0 then s[rank / 4] else Mix(s[rank / 4], s[rank / 4 + 1], rank % 4)
  }

  /** The rank of the quantile num/4 in a window of `n` points, in quarters. */
  function RankOf(num: nat, n: nat): (rank: nat)
    requires n > 0 && num <= 4
    ensures rank <= 4 * (n - 1) && rank + (4 - num) * (n - 1) == 4 * (n - 1)
  {
    num * (n - 1)
  }

  /** numpy.quantile(window, num/4). */
  function Quantile(window: seq<real>, num: nat): real
    requires window != [] && num <= 4
  {
    AtRank(Sort(window), RankOf(num, |window|))
  }

  lemma {:induction false} SortedIsFixed(s: seq<real>)
    requires IsSorted(s)
    ensures Sort(s) == s
  {
    if s != [] {
      SortedIsFixed(s[1..]);
    }
  }

  /** MAIN: numpy.quantile, on numbers: with the points in ascending order `ys`, the quantile num/4
      stands num * (n - 1) / 4 places after the first, and between two places in proportion. */
  lemma {:induction false} QuantileOnPoints(window: seq<real>, ys: seq<real>, num: nat, place: nat, over: nat)
    requires window != [] && num <= 4 && multiset(ys) == multiset(window)
    requires forall i, j :: 0 <= i < j < |ys| ==> ys[i] <= ys[j]
    requires num * (|ys| - 1) == 4 * place + over && over < 4
    ensures |ys| == |window| && place < |ys| && (over > 0 ==> place + 1 < |ys|)
    ensures over == 0 ==> Quantile(window, num) == ys[place]
    ensures over == 1 ==> 4.0 * Quantile(window, num) == 3.0 * ys[place] + ys[place + 1]
    ensures over == 2 ==> 2.0 * Quantile(window, num) == ys[place] + ys[place + 1]
    ensures over == 3 ==> 4.0 * Quantile(window, num) == ys[place] + 3.0 * ys[place + 1]
  {
    hide Mix;
    SortIgnoresOrder(window, ys);
    SortedIsFixed(ys);
    var rank := RankOf(num, |window|);
    assert rank / 4 == place && rank % 4 == over;
    if over > 0 {
      MixCases(ys[place], ys[place + 1], over);
    }
  }

  lemma NonNegativeProduct(x: real, y: real)
    requires x >= 0.0 && y >= 0.0
    ensures x * y >= 0.0
  {
  }

  lemma {:induction false} RankBounds(s: seq<real>, rank: nat)
    requires rank <= 4 * (|s| - 1) && IsSorted(s)
    ensures s[rank / 4] <= AtRank(s, rank) <= s[(rank + 3) / 4]
  {
    hide Mix;
    if rank % 4 != 0 {
      MixCases(s[rank / 4], s[rank / 4 + 1], rank % 4);
    }
  }

  lemma {:induction false} RankMonotone(s: seq<real>, i: nat, j: nat)
    requires i <= j <= 4 * (|s| - 1) && IsSorted(s)
    ensures AtRank(s, i) <= AtRank(s, j)
  {
    hide Mix;
    RankBounds(s, i);
    RankBounds(s, j);
    if i / 4 == j / 4 {
      if i % 4 != 0 {
        MixCases(s[i / 4], s[i / 4 + 1], i % 4);
        MixCases(s[j / 4], s[j / 4 + 1], j % 4);
      }
    } else {
      assert (i + 3) / 4 <= j / 4;
    }
  }

  lemma RankOfMonotone(m: nat, k: nat, n: nat)
    requires n > 0 && m <= k <= 4
    ensures RankOf(m, n) <= RankOf(k, n)
  {
    assert (k - m) * (n - 1) >= 0;
  }

  /** Quantiles of one window are ordered. */
  lemma {:induction false} QuantilesOrdered(window: seq<real>, m: nat, k: nat)
    requires window != [] && m <= k <= 4
    ensures Quantile(window, m) <= Quantile(window, k)
  {
    hide RankOf, AtRank, Sort, IsSorted;
    SortSorts(window);
    RankOfMonotone(m, k, |window|);
    RankMonotone(Sort(window), RankOf(m, |window|), RankOf(k, |window|));
  }

  // ---------------------------------------------------------------- affine maps

  function Line(a: real, b: real, x: real): real {
    a * x + b
  }

  function Affine(a: real, b: real, xs: seq<real>): (r: seq<real>)
    ensures |r| == |xs|
    ensures forall i :: 0 <= i < |xs| ==> r[i] == Line(a, b, xs[i])
  {
    seq(|xs|, i requires 0 <= i < |xs| => Line(a, b, xs[i]))
  }

  function Negated(xs: seq<real>): (r: seq<real>)
    ensures |r| == |xs|
    ensures forall i :: 0 <= i < |xs| ==> r[i] == -xs[i]
  {
    seq(|xs|, i requires 0 <= i < |xs| => -xs[i])
  }

  /** The negated sequence, read from its end. */
  function Mirror(s: seq<real>): (r: seq<real>)
    ensures |r| == |s|
  {
    if s == [] then [] else Mirror(s[1..]) + [-s[0]]
  }

  lemma {:induction false} MirrorAt(s: seq<real>, i: nat)
    requires i < |s|
    ensures Mirror(s)[i] == -s[|s| - 1 - i]
  {
    if i < |s| - 1 {
      MirrorAt(s[1..], i);
    }
  }

  lemma PositiveProduct(x: real, y: real)
    requires x > 0.0 && y > 0.0
    ensures x * y > 0.0
  {
  }

  lemma LineOrder(a: real, b: real, x: real, y: real)
    requires a > 0.0
    ensures x <= y <==> Line(a, b, x) <= Line(a, b, y)
  {
    if x <= y {
      NonNegativeProduct(a, y - x);
    } else {
      PositiveProduct(a, x - y);
    }
  }

  lemma {:induction false} InsertAffine(a: real, b: real, v: real, s: seq<real>)
    requires a > 0.0
    ensures Insert(Line(a, b, v), Affine(a, b, s)) == Affine(a, b, Insert(v, s))
  {
    hide Line;
    if s != [] {
      LineOrder(a, b, v, s[0]);
      InsertAffine(a, b, v, s[1..]);
      assert Affine(a, b, s)[1..] == Affine(a, b, s[1..]);
      assert Affine(a, b, [s[0]] + Insert(v, s[1..])) == [Line(a, b, s[0])] + Affine(a, b, Insert(v, s[1..]));
    }
  }

  /** A rising map commutes with sorting. */
  lemma {:induction false} SortAffine(a: real, b: real, xs: seq<real>)
    requires a > 0.0
    ensures Sort(Affine(a, b, xs)) == Affine(a, b, Sort(xs))
  {
    hide Line;
    if xs != [] {
      SortAffine(a, b, xs[1..]);
      InsertAffine(a, b, xs[0], Sort(xs[1..]));
      assert Affine(a, b, xs)[1..] == Affine(a, b, xs[1..]);
    }
  }

  /** Inserting into a sorted sequence, seen from its end. */
  lemma {:induction false} InsertFromEnd(u: real, p: seq<real>, q: real)
    requires IsSorted(p + [q])
    ensures Insert(u, p + [q]) == if u >= q then p + [q] + [u] else Insert(u, p) + [q]
  {
    var s := p + [q];
    if p == [] {
      assert s == [q] && s[1..] == [] && s + [u] == [q] + [u] && Insert(u, p) + [q] == [u] + [q];
    } else {
      assert s[0] == p[0] && s[1..] == p[1..] + [q];
      assert p[0] <= s[|p|] == q;
      if u <= p[0] {
        if u >= q {
          AllEqual(s, u);
        } else {
          assert [u] + s == Insert(u, p) + [q];
        }
      } else {
        InsertFromEnd(u, p[1..], q);
        assert u < q ==> [p[0]] + (Insert(u, p[1..]) + [q]) == Insert(u, p) + [q];
        assert [p[0]] + (s[1..] + [u]) == s + [u];
      }
    }
  }

  /** A sorted sequence whose ends are equal is constant; one more point of that value may go
      at either end. */
  lemma {:induction false} AllEqual(s: seq<real>, u: real)
    requires s != [] && IsSorted(s) && s[0] == u == s[|s| - 1]
    ensures [u] + s == s + [u]
  {
    forall i | 0 <= i < |s| ensures s[i] == u {
      assert s[0] <= s[i] <= s[|s| - 1];
    }
  }

  lemma {:induction false} MirrorSorted(s: seq<real>)
    requires IsSorted(s)
    ensures IsSorted(Mirror(s))
  {
    forall i, j | 0 <= i < j < |s|
      ensures Mirror(s)[i] <= Mirror(s)[j]
    {
      MirrorAt(s, i);
      MirrorAt(s, j);
    }
  }

  lemma {:induction false} MirrorOfCons(x: real, s: seq<real>)
    ensures Mirror([x] + s) == Mirror(s) + [-x]
  {
    assert ([x] + s)[1..] == s;
  }

  lemma {:induction false} InsertMirrored(v: real, s: seq<real>)
    requires IsSorted(s)
    ensures Insert(-v, Mirror(s)) == Mirror(Insert(v, s))
  {
    if s != [] {
      var x, rest := s[0], s[1..];
      assert s == [x] + rest;
      MirrorSorted(s);
      MirrorOfCons(x, rest);
      MirrorOfCons(v, s);
      MirrorOfCons(x, Insert(v, rest));
      assert IsSorted(rest);
      hide Mirror, IsSorted;
      InsertFromEnd(-v, Mirror(rest), -x);
      if v > x {
        InsertMirrored(v, rest);
      }
    }
  }

  /** Negation turns the sorted window around. */
  lemma {:induction false} SortNegated(xs: seq<real>)
    ensures Sort(Negated(xs)) == Mirror(Sort(xs))
  {
    if xs != [] {
      SortNegated(xs[1..]);
      SortSorts(xs[1..]);
      InsertMirrored(xs[0], Sort(xs[1..]));
      assert Negated(xs)[1..] == Negated(xs[1..]);
    }
  }

  lemma MixLine(a: real, b: real, x: real, y: real, quarters: nat)
    requires 1 <= quarters <= 3
    ensures Mix(Line(a, b, x), Line(a, b, y), quarters) == Line(a, b, Mix(x, y, quarters))
  {
    hide Mix;
    MixCases(x, y, quarters);
    MixCases(Line(a, b, x), Line(a, b, y), quarters);
  }

  lemma {:induction false} RankAffine(a: real, b: real, s: seq<real>, rank: nat)
    requires rank <= 4 * (|s| - 1)
    ensures AtRank(Affine(a, b, s), rank) == Line(a, b, AtRank(s, rank))
  {
    hide Line, Mix;
    if rank % 4 != 0 {
      MixLine(a, b, s[rank / 4], s[rank / 4 + 1], rank % 4);
    }
  }

  lemma {:induction false} QuantileRising(window: seq<real>, a: real, b: real, num: nat)
    requires window != [] && num <= 4 && a > 0.0
    ensures Quantile(Affine(a, b, window), num) == Line(a, b, Quantile(window, num))
  {
    hide Line, RankOf, Sort, AtRank;
    SortAffine(a, b, window);
    RankAffine(a, b, Sort(window), RankOf(num, |window|));
  }

  lemma MixMirrored(x: real, y: real, quarters: nat)
    requires 1 <= quarters <= 3
    ensures Mix(-y, -x, quarters) == -Mix(x, y, 4 - quarters)
  {
    hide Mix;
    MixCases(-y, -x, quarters);
    MixCases(x, y, 4 - quarters);
  }

  lemma QuarterFromEnd(n: nat, rank: nat)
    requires rank <= 4 * (n - 1) && rank % 4 != 0
    ensures var back := 4 * (n - 1) - rank;
            back / 4 == n - 2 - rank / 4 && back % 4 == 4 - rank % 4
  {
  }

  /** Reading the mirror image from the other end. */
  lemma {:induction false} RankMirrored(s: seq<real>, t: seq<real>, rank: nat)
    requires rank <= 4 * (|s| - 1) && t == Mirror(s)
    ensures AtRank(t, rank) == -AtRank(s, 4 * (|s| - 1) - rank)
  {
    hide Mix;
    var n, lo, back := |s|, rank / 4, 4 * (|s| - 1) - rank;
    MirrorAt(s, lo);
    if rank % 4 == 0 {
      assert back / 4 == n - 1 - lo && back % 4 == 0;
    } else {
      QuarterFromEnd(n, rank);
      MirrorAt(s, lo + 1);
      MixMirrored(s[n - 2 - lo], s[n - 1 - lo], rank % 4);
    }
  }

  lemma {:induction false} QuantileNegated(window: seq<real>, num: nat)
    requires window != [] && num <= 4
    ensures Quantile(Negated(window), num) == -Quantile(window, 4 - num)
  {
    hide AtRank, Sort;
    SortNegated(window);
    RankMirrored(Sort(window), Sort(Negated(window)), RankOf(num, |window|));
  }

  /** A falling map exchanges a quantile with its mirror image. */
  lemma {:induction false} QuantileFalling(window: seq<real>, a: real, b: real, num: nat)
    requires window != [] && num <= 4 && a < 0.0
    ensures Quantile(Affine(a, b, window), num) == Line(a, b, Quantile(window, 4 - num))
  {
    hide Quantile;
    assert Affine(a, b, window) == Affine(-a, b, Negated(window)) by {
      forall i | 0 <= i < |window|
        ensures Affine(a, b, window)[i] == Affine(-a, b, Negated(window))[i]
      {
        assert a * window[i] == (-a) * (-window[i]);
      }
    }
    QuantileRising(Negated(window), -a, b, num);
    QuantileNegated(window, num);
    assert (-a) * (-Quantile(window, 4 - num)) == a * Quantile(window, 4 - num);
  }

  // ---------------------------------------------------------------- robustness

  function Below(xs: seq<real>, bound: real): nat {
    if xs == [] then 0 else (if xs[0] < bound then 1 else 0) + Below(xs[1..], bound)
  }

  /** The number of positions at which two windows differ. */
  function Changed(xs: seq<real>, ys: seq<real>): nat
    requires |xs| == |ys|
  {
    if xs == [] then 0 else (if xs[0] != ys[0] then 1 else 0) + Changed(xs[1..], ys[1..])
  }

  lemma {:induction false} BelowInsert(v: real, s: seq<real>, bound: real)
    ensures Below(Insert(v, s), bound) == (if v < bound then 1 else 0) + Below(s, bound)
  {
    if s != [] && v > s[0] {
      BelowInsert(v, s[1..], bound);
    }
  }

  lemma {:induction false} BelowSort(xs: seq<real>, bound: real)
    ensures Below(Sort(xs), bound) == Below(xs, bound)
  {
    if xs != [] {
      BelowSort(xs[1..], bound);
      BelowInsert(xs[0], Sort(xs[1..]), bound);
    }
  }

  /** Only replaced points can lie below a bound of the untouched ones. */
  lemma {:induction false} BelowAtMostChanged(xs: seq<real>, ys: seq<real>, bound: real)
    requires |xs| == |ys|
    requires forall i :: 0 <= i < |xs| && xs[i] == ys[i] ==> bound <= ys[i]
    ensures Below(ys, bound) <= Changed(xs, ys)
  {
    if xs != [] {
      BelowAtMostChanged(xs[1..], ys[1..], bound);
    }
  }

  /** In a sorted sequence, with at most k elements below a bound, element k is not. */
  lemma {:induction false} SortedNotBelow(s: seq<real>, bound: real, k: nat)
    requires IsSorted(s) && Below(s, bound) <= k < |s|
    ensures bound <= s[k]
  {
    if s[0] < bound {
      SortedNotBelow(s[1..], bound, k - 1);
    } else {
      assert s[0] <= s[k];
    }
  }

  /** No order statistic from rank `k` on can be pushed below the untouched points by
      replacing `k` of them. */
  lemma {:induction false} StatisticHoldsLow(xs: seq<real>, ys: seq<real>, low: real, k: nat)
    requires |xs| == |ys| && Changed(xs, ys) <= k < |ys|
    requires forall i :: 0 <= i < |xs| && xs[i] == ys[i] ==> low <= ys[i]
    ensures low <= Sort(ys)[k]
  {
    SortSorts(ys);
    BelowSort(ys, low);
    BelowAtMostChanged(xs, ys, low);
    SortedNotBelow(Sort(ys), low, k);
  }

  lemma {:induction false} ChangedNegated(xs: seq<real>, ys: seq<real>)
    requires |xs| == |ys|
    ensures Changed(Negated(xs), Negated(ys)) == Changed(xs, ys)
  {
    if xs != [] {
      ChangedNegated(xs[1..], ys[1..]);
      assert Negated(xs)[1..] == Negated(xs[1..]);
      assert Negated(ys)[1..] == Negated(ys[1..]);
    }
  }

  /** MAIN: replacing up to floor((w-1)/4) points of a window by anything leaves every quantile
      from the first to the third quartile between the bounds of the untouched points. */
  lemma {:induction false} QuartilesResist(xs: seq<real>, ys: seq<real>, low: real, high: real, num: nat)
    requires |xs| == |ys| > 0 && Changed(xs, ys) <= (|xs| - 1) / 4 && 1 <= num <= 3
    requires forall i :: 0 <= i < |xs| && xs[i] == ys[i] ==> low <= ys[i] <= high
    ensures low <= Quantile(ys, num) <= high
  {
    QuartileHoldsLow(xs, ys, low, num);
    ChangedNegated(xs, ys);
    QuartileHoldsLow(Negated(xs), Negated(ys), -high, 4 - num);
    QuantileNegated(ys, 4 - num);
  }

  lemma {:induction false} QuartileHoldsLow(xs: seq<real>, ys: seq<real>, low: real, num: nat)
    requires |xs| == |ys| > 0 && Changed(xs, ys) <= (|xs| - 1) / 4 && 1 <= num <= 3
    requires forall i :: 0 <= i < |xs| && xs[i] == ys[i] ==> low <= ys[i]
    ensures low <= Quantile(ys, num)
  {
    hide Sort, AtRank;
    var rank := RankOf(num, |ys|);
    SortSorts(ys);
    RankBounds(Sort(ys), rank);
    RankOfMonotone(1, num, |ys|);
    assert (|ys| - 1) / 4 <= rank / 4;
    StatisticHoldsLow(xs, ys, low, rank / 4);
  }

  /** The window of `n` zeros with its first `k` points replaced by -1. */
  function Step(n: nat, k: nat): (s: seq<real>)
    ensures |s| == n
    ensures forall i :: 0 <= i < n ==> s[i] == if i < k then -1.0 else 0.0
  {
    seq(n, i => if i < k then -1.0 else 0.0)
  }

  lemma {:induction false} SortOfSorted(s: seq<real>)
    requires IsSorted(s)
    ensures Sort(s) == s
  {
    if |s| > 1 {
      SortOfSorted(s[1..]);
    }
  }

  lemma {:induction false} ChangedStep(n: nat, k: nat)
    requires k <= n
    ensures Changed(Step(n, 0), Step(n, k)) == k
  {
    if n > 0 {
      assert Step(n, 0)[1..] == Step(n - 1, 0);
      assert Step(n, k)[1..] == Step(n - 1, if k > 0 then k - 1 else 0);
      ChangedStep(n - 1, if k > 0 then k - 1 else 0);
    }
  }

  /** One more replaced point is too many, for every window size: all untouched points are zero
      and the first quartile is below them. */
  lemma {:induction false} BreakdownIsTight(n: nat)
    requires n > 0
    ensures var xs, ys := Step(n, 0), Step(n, (n - 1) / 4 + 1);
            && Changed(xs, ys) == (n - 1) / 4 + 1
            && (forall i :: 0 <= i < n && xs[i] == ys[i] ==> ys[i] == 0.0)
            && Quantile(ys, 1) < 0.0
  {
    var k := (n - 1) / 4 + 1;
    var ys := Step(n, k);
    ChangedStep(n, k);
    SortOfSorted(ys);
    if (n - 1) % 4 != 0 {
      MixCases(ys[k - 1], ys[k], (n - 1) % 4);
    }
  }
}

/** The cache keys of the read API (api/src/events/events.service.ts, `kpi` and `funnel`). */
module CacheKeys {
  import opened Text
  import Kpi
  import opened Funnel

  function GranularityName(g: Kpi.Granularity): string {
    match g case Hour => "hour" case Day => "day"
  }

  /** A JavaScript Date by its UTC fields, in a year of four digits. */
  datatype Date = Date(year: nat, month: nat, day: nat, hour: nat, minute: nat, second: nat, milli: nat)

  type FourDigitDate = d: Date |
      && d.year < 10000 && d.month < 100 && d.day < 100
      && d.hour < 100 && d.minute < 100 && d.second < 100 && d.milli < 1000
    witness Date(1970, 1, 1, 0, 0, 0, 0)

  /** `toISOString()`. */
  function IsoString(d: FourDigitDate): (s: string)
    ensures |s| == 24
  {
    Digits(d.year, 4) + ("-" + (Digits(d.month, 2) + ("-" + (Digits(d.day, 2) + ("T" +
      (Digits(d.hour, 2) + (":" + (Digits(d.minute, 2) + (":" + (Digits(d.second, 2) + ("." +
      (Digits(d.milli, 3) + "Z"))))))))))))
  }

  /** A number, one character and the rest. */
  lemma {:induction false} CutNumber(m: nat, n: nat, width: nat, mark: string, a: string, b: string)
    requires m < Pow10(width) && n < Pow10(width)
    requires Digits(m, width) + (mark + a) == Digits(n, width) + (mark + b)
    ensures m == n && a == b
  {
    var x, y := mark + a, mark + b;
    assert Digits(m, width) == (Digits(m, width) + x)[..width];
    assert Digits(n, width) == (Digits(n, width) + y)[..width];
    DigitsInjective(m, n, width);
    assert x == (Digits(m, width) + x)[width..] && y == (Digits(n, width) + y)[width..];
    assert a == x[|mark|..] && b == y[|mark|..];
  }

  lemma {:induction false} IsoStringInjective(d: FourDigitDate, e: FourDigitDate)
    requires IsoString(d) == IsoString(e)
    ensures d == e
  {
    assert Pow10(2) == 100 && Pow10(3) == 1000 && Pow10(4) == 10000 by { assert Pow10(1) == 10; }
    hide Digits, Pow10;
    var d6, e6 := Digits(d.milli, 3) + ("Z" + ""), Digits(e.milli, 3) + ("Z" + "");
    assert "Z" + "" == "Z";
    var d5, e5 := Digits(d.second, 2) + ("." + d6), Digits(e.second, 2) + ("." + e6);
    var d4, e4 := Digits(d.minute, 2) + (":" + d5), Digits(e.minute, 2) + (":" + e5);
    var d3, e3 := Digits(d.hour, 2) + (":" + d4), Digits(e.hour, 2) + (":" + e4);
    var d2, e2 := Digits(d.day, 2) + ("T" + d3), Digits(e.day, 2) + ("T" + e3);
    var d1, e1 := Digits(d.month, 2) + ("-" + d2), Digits(e.month, 2) + ("-" + e2);
    CutNumber(d.year, e.year, 4, "-", d1, e1);
    CutNumber(d.month, e.month, 2, "-", d2, e2);
    CutNumber(d.day, e.day, 2, "T", d3, e3);
    CutNumber(d.hour, e.hour, 2, ":", d4, e4);
    CutNumber(d.minute, e.minute, 2, ":", d5, e5);
    CutNumber(d.second, e.second, 2, ".", d6, e6);
    CutNumber(d.milli, e.milli, 3, "Z", "", "");
  }

  /** Both keys end with the two bounds of the range. */
  function Bounded(head: string, from: FourDigitDate, to: FourDigitDate): string {
    head + ":" + IsoString(from) + ":" + IsoString(to)
  }

  lemma {:induction false} BoundedInjective(a: string, f: FourDigitDate, t: FourDigitDate, b: string, g: FourDigitDate,
                                            u: FourDigitDate)
    requires Bounded(a, f, t) == Bounded(b, g, u)
    ensures a == b && f == g && t == u
  {
    hide IsoString;
    SplitSuffix(a + ":" + IsoString(f) + ":", IsoString(t), b + ":" + IsoString(g) + ":", IsoString(u));
    SplitSuffix(a + ":" + IsoString(f), ":", b + ":" + IsoString(g), ":");
    SplitSuffix(a + ":", IsoString(f), b + ":", IsoString(g));
    SplitSuffix(a, ":", b, ":");
    IsoStringInjective(f, g);
    IsoStringInjective(t, u);
  }

  function KpiKey(workspaceId: string, metric: string, g: Kpi.Granularity, from: FourDigitDate,
                  to: FourDigitDate): string {
    Bounded("kpi:" + workspaceId + ":" + metric + ":" + GranularityName(g), from, to)
  }

  function FunnelKey(workspaceId: string, windowHours: nat, steps: seq<string>, from: FourDigitDate,
                     to: FourDigitDate): string {
    Bounded("funnel:" + workspaceId + ":" + Decimal(windowHours) + ":" + Join(steps, ','), from, to)
  }

  /** MAIN: equal KPI keys mean equal requests, down to the millisecond of the bounds. */
  lemma {:induction false} KpiKeyInjective(w: string, m: string, g: Kpi.Granularity, f: FourDigitDate, t: FourDigitDate,
                                           x: string, n: string, h: Kpi.Granularity, e: FourDigitDate, u: FourDigitDate)
    requires ':' !in w && ':' !in x && KpiKey(w, m, g, f, t) == KpiKey(x, n, h, e, u)
    ensures w == x && m == n && g == h && f == e && t == u
  {
    hide Bounded;
    var a, b := "kpi:" + w + ":" + m, "kpi:" + x + ":" + n;
    BoundedInjective(a + ":" + GranularityName(g), f, t, b + ":" + GranularityName(h), e, u);
    assert ':' !in GranularityName(g) && ':' !in GranularityName(h);
    assert GranularityName(Kpi.Hour)[0] != GranularityName(Kpi.Day)[0];
    hide GranularityName;
    SplitLast(a, GranularityName(g), b, GranularityName(h), ':');
    AfterPrefix("kpi:", w + ":" + m, x + ":" + n, a, b);
    SplitFirst(w, m, x, n, ':');
  }

  /** MAIN: equal funnel keys mean equal requests, although step names may contain colons. */
  lemma {:induction false} FunnelKeyInjective(w: string, h: nat, s: seq<string>, f: FourDigitDate, t: FourDigitDate,
                                              x: string, i: nat, r: seq<string>, g: FourDigitDate, u: FourDigitDate)
    requires ':' !in w && ':' !in x && s != [] && r != []
    requires forall n :: n in s || n in r ==> StepName(n)
    requires FunnelKey(w, h, s, f, t) == FunnelKey(x, i, r, g, u)
    ensures w == x && h == i && s == r && f == g && t == u
  {
    assert forall n :: n in s || n in r ==> ',' !in n;
    hide Bounded, Join, Decimal, StepName;
    var j, k := Join(s, ','), Join(r, ',');
    BoundedInjective("funnel:" + w + ":" + Decimal(h) + ":" + j, f, t,
                     "funnel:" + x + ":" + Decimal(i) + ":" + k, g, u);
    HeadInjective("funnel:", w, Decimal(h), j, x, Decimal(i), k);
    DecimalInjective(h, i);
    JoinInjective(s, r, ',');
  }

  lemma {:induction false} HeadInjective(scheme: string, w: string, h: string, j: string, x: string, i: string,
                                         k: string)
    requires scheme + w + ":" + h + ":" + j == scheme + x + ":" + i + ":" + k
    requires ':' !in w && ':' !in x && ':' !in h && ':' !in i
    ensures w == x && h == i && j == k
  {
    Regrouped(scheme, w, h, j);
    Regrouped(scheme, x, i, k);
    var a, b := h + ":" + j, i + ":" + k;
    AfterPrefix(scheme, w + ":" + a, x + ":" + b, scheme + (w + ":" + a), scheme + (x + ":" + b));
    SplitFirst(w, a, x, b, ':');
    SplitFirst(h, j, i, k, ':');
  }

  lemma Regrouped(scheme: string, w: string, h: string, j: string)
    ensures scheme + w + ":" + h + ":" + j == scheme + (w + ":" + (h + ":" + j))
  {
  }

  /** The two families of keys never meet. */
  lemma KeysNeverClash(w: string, m: string, g: Kpi.Granularity, f: FourDigitDate, t: FourDigitDate,
                       x: string, h: nat, s: seq<string>, e: FourDigitDate, u: FourDigitDate)
    ensures KpiKey(w, m, g, f, t) != FunnelKey(x, h, s, e, u)
  {
    hide IsoString, Decimal, Join, GranularityName;
    assert KpiKey(w, m, g, f, t)[0] == 'k' && FunnelKey(x, h, s, e, u)[0] == 'f';
  }
}

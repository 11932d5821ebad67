/** File names of the model registry (forecast/app/services/registry.py): stripped timestamps whose
    string order is the order of time, and suffixes that lead from a manifest to its artifact. */
module RegistryNames {
  import opened Text

  // ---------------------------------------------------------------- timestamps

  /** `datetime.now(timezone.utc)`. */
  datatype Instant = Instant(year: nat, month: nat, day: nat, hour: nat, minute: nat, second: nat, micro: nat)

  predicate Proper(t: Instant) {
    && 1 <= t.year <= 9999 && 1 <= t.month <= 12 && 1 <= t.day <= 31
    && t.hour < 24 && t.minute < 60 && t.second < 60 && t.micro < 1_000_000
  }

  type Clock = t: Instant | Proper(t) witness Instant(1970, 1, 1, 0, 0, 0, 0)

  /** The order of time. */
  predicate Earlier(t: Clock, u: Clock) {
    t.year < u.year || (t.year == u.year && (
    t.month < u.month || (t.month == u.month && (
    t.day < u.day || (t.day == u.day && (
    t.hour < u.hour || (t.hour == u.hour && (
    t.minute < u.minute || (t.minute == u.minute && (
    t.second < u.second || (t.second == u.second && t.micro < u.micro)))))))))))
  }

  /** `isoformat()` of a UTC datetime: the fraction is left out when it is zero. */
  function IsoFormat(t: Clock): string {
    IsoDate(t, "T" + IsoTime(t, (if t.micro == 0 then "" else "." + Digits(t.micro, 6)) + "+00:00"))
  }

  function IsoDate(t: Clock, rest: string): string {
    Digits(t.year, 4) + ("-" + (Digits(t.month, 2) + ("-" + (Digits(t.day, 2) + rest))))
  }

  function IsoTime(t: Clock, rest: string): string {
    Digits(t.hour, 2) + (":" + (Digits(t.minute, 2) + (":" + (Digits(t.second, 2) + rest))))
  }

  /** `.replace(":", "").replace(".", "")`. */
  function Strip(s: string): string {
    if s == "" then "" else (if s[0] == ':' || s[0] == '.' then "" else [s[0]]) + Strip(s[1..])
  }

  function SafeStamp(t: Clock): string {
    Strip(IsoFormat(t))
  }

  lemma {:induction false} StripPast(a: string, b: string)
    requires ':' !in a && '.' !in a
    ensures Strip(a + b) == a + Strip(b)
  {
    if a == "" {
      assert a + b == b;
    } else {
      assert (a + b)[1..] == a[1..] + b;
      StripPast(a[1..], b);
    }
  }

  lemma StripMark(mark: string, b: string)
    requires mark == ":" || mark == "."
    ensures Strip(mark + b) == Strip(b)
  {
    assert (mark + b)[1..] == b;
  }

  lemma {:induction false} StripRemoves(s: string)
    ensures ':' !in Strip(s) && '.' !in Strip(s)
  {
    if s != "" {
      StripRemoves(s[1..]);
    }
  }

  // A stripped stamp followed by `x`, nested the way strings are compared.

  function FromFraction(t: Clock, x: string): string {
    if t.micro == 0 then "+0000" + x else Digits(t.micro, 6) + ("+0000" + x)
  }

  function FromHour(t: Clock, x: string): string {
    Digits(t.hour, 2) + (Digits(t.minute, 2) + (Digits(t.second, 2) + FromFraction(t, x)))
  }

  function FromYear(t: Clock, x: string): string {
    IsoDate(t, "T" + FromHour(t, x))
  }

  lemma {:induction false} StripFraction(t: Clock)
    ensures Strip((if t.micro == 0 then "" else "." + Digits(t.micro, 6)) + "+00:00") == FromFraction(t, "")
  {
    hide Strip, Digits;
    assert "+00:00" == "+00" + (":" + "00") && "+0000" + "" == "+00" + ("00" + "");
    StripPast("+00", ":" + "00");
    StripMark(":", "00");
    StripPast("00", "");
    StripEmpty();
    assert "00" + "" == "00";
    if t.micro == 0 {
      assert "" + "+00:00" == "+00:00";
    } else {
      var digits := Digits(t.micro, 6);
      assert "." + digits + "+00:00" == "." + (digits + "+00:00");
      StripMark(".", digits + "+00:00");
      StripPast(digits, "+00:00");
    }
  }

  lemma StripEmpty()
    ensures Strip("") == ""
  {
  }

  lemma {:induction false} StripTime(t: Clock, rest: string)
    ensures Strip(IsoTime(t, rest)) == Digits(t.hour, 2) + (Digits(t.minute, 2) + (Digits(t.second, 2) + Strip(rest)))
  {
    hide Strip, Digits;
    var second := Digits(t.second, 2) + rest;
    var minute := Digits(t.minute, 2) + (":" + second);
    StripPast(Digits(t.hour, 2), ":" + minute);
    StripMark(":", minute);
    StripPast(Digits(t.minute, 2), ":" + second);
    StripMark(":", second);
    StripPast(Digits(t.second, 2), rest);
  }

  lemma {:induction false} StripDate(t: Clock, rest: string)
    ensures Strip(IsoDate(t, rest)) == IsoDate(t, Strip(rest))
  {
    hide Strip, Digits;
    var day := Digits(t.day, 2) + rest;
    var month := Digits(t.month, 2) + ("-" + day);
    StripPast(Digits(t.year, 4), "-" + month);
    StripPast("-", month);
    StripPast(Digits(t.month, 2), "-" + day);
    StripPast("-", day);
    StripPast(Digits(t.day, 2), rest);
  }

  lemma Regroup(a: string, b: string, c: string, d: string, x: string)
    ensures (a + (b + (c + d))) + x == a + (b + (c + (d + x)))
  {
  }

  lemma {:induction false} AppendToStamp(t: Clock, x: string)
    ensures FromYear(t, "") + x == FromYear(t, x)
  {
    hide Digits, FromHour, FromFraction;
    var year, month, day, hour := Digits(t.year, 4), Digits(t.month, 2), Digits(t.day, 2), FromHour(t, "");
    AppendToHour(t, x);
    Regroup("-", day, "T", hour, x);
    Regroup(year, "-", month, "-" + (day + ("T" + hour)), x);
  }

  lemma {:induction false} AppendToHour(t: Clock, x: string)
    ensures FromHour(t, "") + x == FromHour(t, x)
  {
    hide Digits;
    assert FromFraction(t, "") + x == FromFraction(t, x) by {
      assert ("+0000" + "") + x == "+0000" + x;
      assert (Digits(t.micro, 6) + ("+0000" + "")) + x == Digits(t.micro, 6) + ("+0000" + x);
    }
    Regroup(Digits(t.hour, 2), Digits(t.minute, 2), Digits(t.second, 2), FromFraction(t, ""), x);
  }

  /** What stripping leaves of a timestamp. */
  lemma {:induction false} SafeStampShape(t: Clock, x: string)
    ensures SafeStamp(t) + x == FromYear(t, x)
  {
    hide Strip, Digits, IsoDate, IsoTime, FromFraction;
    var zone := (if t.micro == 0 then "" else "." + Digits(t.micro, 6)) + "+00:00";
    StripDate(t, "T" + IsoTime(t, zone));
    StripPast("T", IsoTime(t, zone));
    StripTime(t, zone);
    StripFraction(t);
    AppendToStamp(t, x);
  }

  lemma {:induction false} FractionOrder(t: Clock, u: Clock, x: string)
    ensures Before(FromFraction(t, x), FromFraction(u, x)) <==> t.micro < u.micro
  {
    hide Digits;
    var zone := "+0000" + x;
    BeforeIrreflexive(zone);
    assert "" + zone == zone && zone[0] == '+';
    assert Pow10(6) == 1_000_000 by { assert Pow10(3) == 1000; }
    if t.micro > 0 && u.micro > 0 {
      DigitsOrder(t.micro, u.micro, 6, zone, zone);
    }
    assert Digits(t.micro, 6)[0] in Digits(t.micro, 6) && Digits(u.micro, 6)[0] in Digits(u.micro, 6);
    assert (Digits(t.micro, 6) + zone)[0] >= '0' && (Digits(u.micro, 6) + zone)[0] >= '0';
  }

  lemma {:induction false} HourOrder(t: Clock, u: Clock, x: string)
    ensures Before(FromHour(t, x), FromHour(u, x)) <==>
            t.hour < u.hour || (t.hour == u.hour && (t.minute < u.minute || (t.minute == u.minute &&
            (t.second < u.second || (t.second == u.second && t.micro < u.micro)))))
  {
    hide Before, Digits, FromFraction;
    assert Pow10(2) == 100;
    var tFraction, uFraction := FromFraction(t, x), FromFraction(u, x);
    FractionOrder(t, u, x);
    DigitsOrder(t.second, u.second, 2, tFraction, uFraction);
    var tSecond, uSecond := Digits(t.second, 2) + tFraction, Digits(u.second, 2) + uFraction;
    DigitsOrder(t.minute, u.minute, 2, tSecond, uSecond);
    DigitsOrder(t.hour, u.hour, 2, Digits(t.minute, 2) + tSecond, Digits(u.minute, 2) + uSecond);
  }

  /** MAIN: stripped ISO stamps, with the fraction left out when it is zero, sort exactly like
      the times they stand for, whatever the common end of the file name is. */
  lemma {:induction false} StampOrderIsTimeOrder(t: Clock, u: Clock, x: string)
    ensures Before(SafeStamp(t) + x, SafeStamp(u) + x) <==> Earlier(t, u)
  {
    hide Before, Digits, FromHour, SafeStamp;
    assert Pow10(2) == 100 && Pow10(4) == 10000 by { assert Pow10(3) == 1000; }
    SafeStampShape(t, x);
    SafeStampShape(u, x);
    HourOrder(t, u, x);
    var tHour, uHour := FromHour(t, x), FromHour(u, x);
    BeforePrefix("T", tHour, uHour);
    DigitsOrder(t.day, u.day, 2, "T" + tHour, "T" + uHour);
    var tDay, uDay := Digits(t.day, 2) + ("T" + tHour), Digits(u.day, 2) + ("T" + uHour);
    BeforePrefix("-", tDay, uDay);
    DigitsOrder(t.month, u.month, 2, "-" + tDay, "-" + uDay);
    var tMonth, uMonth := Digits(t.month, 2) + ("-" + tDay), Digits(u.month, 2) + ("-" + uDay);
    BeforePrefix("-", tMonth, uMonth);
    DigitsOrder(t.year, u.year, 4, "-" + tMonth, "-" + uMonth);
  }

  lemma EarlierTotal(t: Clock, u: Clock)
    ensures Earlier(t, u) || t == u || Earlier(u, t)
    ensures !(Earlier(t, u) && Earlier(u, t)) && !Earlier(t, t)
  {
  }

  /** A timestamp can be read back from its ISO form. */
  lemma {:induction false} IsoFormatInjective(t: Clock, u: Clock)
    requires IsoFormat(t) == IsoFormat(u)
    ensures t == u
  {
    StampOrderIsTimeOrder(t, u, "");
    StampOrderIsTimeOrder(u, t, "");
    BeforeIrreflexive(SafeStamp(t) + "");
    EarlierTotal(t, u);
  }

  /** `s` starts with the number `n` in `width` digits and the character `mark`. */
  predicate Reads(s: string, n: nat, width: nat, mark: char) {
    |s| > width && ReadDigits(s[..width]) == n && s[width] == mark
  }

  /** MAIN: the ISO form reads as the time it stands for: year, month, day, hour, minute and second
      in fixed places, the microseconds only when there are any, and the zone. */
  lemma {:induction false} IsoFormatReads(t: Clock)
    ensures var s := IsoFormat(t);
            && |s| == (if t.micro == 0 then 25 else 32)
            && Reads(s, t.year, 4, '-') && Reads(s[5..], t.month, 2, '-') && Reads(s[8..], t.day, 2, 'T')
            && Reads(s[11..], t.hour, 2, ':') && Reads(s[14..], t.minute, 2, ':')
            && (t.micro == 0 ==> Reads(s[17..], t.second, 2, '+') && s[20..] == "00:00")
            && (t.micro > 0 ==> Reads(s[17..], t.second, 2, '.') && Reads(s[20..], t.micro, 6, '+')
                                && s[27..] == "00:00")
  {
    var s := IsoFormat(t);
    IsoShape(t);
    hide Digits, Pow10, Reads, IsoFormat, IsoTime, IsoDate;
    DateReads(s, t, IsoTime(t, (if t.micro == 0 then "+" else ".") + Zone(t)));
    TimeReads(s, t, if t.micro == 0 then "+" else ".", Zone(t));
    assert t.micro == 0 ==> Zone(t) == "00:00" && |s| == 25;
    hide Zone;
    if t.micro > 0 {
      ZoneReads(s, t);
    }
  }

  /** What follows the sign or point after the seconds. */
  function Zone(t: Clock): string {
    if t.micro == 0 then "00:00" else Digits(t.micro, 6) + ("+" + "00:00")
  }

  lemma ZoneReads(s: string, t: Clock)
    requires t.micro > 0 && |s| >= 20 && s[20..] == Zone(t)
    ensures |s| == 32 && Reads(s[20..], t.micro, 6, '+') && s[27..] == "00:00"
  {
    Powers();
    hide Digits, Pow10, Reads;
    Piece(s, 20, t.micro, 6, "+", "00:00");
  }

  /** The fraction and the zone, cut after the first character. */
  lemma IsoShape(t: Clock)
    ensures IsoFormat(t) == IsoDate(t, "T" + IsoTime(t, (if t.micro == 0 then "+" else ".") + Zone(t)))
  {
    hide Digits;
    assert "+00:00" == "+" + "00:00";
    if t.micro == 0 {
      assert "" + "+00:00" == "+00:00";
    } else {
      assert "." + Digits(t.micro, 6) + "+00:00" == "." + (Digits(t.micro, 6) + "+00:00");
    }
  }

  lemma DateReads(s: string, t: Clock, rest: string)
    requires s == IsoDate(t, "T" + rest)
    ensures Reads(s, t.year, 4, '-') && |s| >= 11
    ensures Reads(s[5..], t.month, 2, '-') && Reads(s[8..], t.day, 2, 'T') && s[11..] == rest
  {
    Powers();
    hide Digits, Pow10, Reads;
    var day := Digits(t.day, 2) + ("T" + rest);
    var month := Digits(t.month, 2) + ("-" + day);
    assert s[0..] == s;
    Piece(s, 0, t.year, 4, "-", month);
    Piece(s, 5, t.month, 2, "-", day);
    Piece(s, 8, t.day, 2, "T", rest);
  }

  lemma TimeReads(s: string, t: Clock, mark: string, zone: string)
    requires |s| >= 11 && s[11..] == IsoTime(t, mark + zone) && |mark| == 1
    ensures |s| >= 20 && Reads(s[11..], t.hour, 2, ':') && Reads(s[14..], t.minute, 2, ':')
    ensures Reads(s[17..], t.second, 2, mark[0]) && s[20..] == zone
  {
    Powers();
    hide Digits, Pow10, Reads;
    var second := Digits(t.second, 2) + (mark + zone);
    var minute := Digits(t.minute, 2) + (":" + second);
    Piece(s, 11, t.hour, 2, ":", minute);
    Piece(s, 14, t.minute, 2, ":", second);
    Piece(s, 17, t.second, 2, mark, zone);
  }

  lemma Piece(s: string, at: nat, n: nat, width: nat, mark: string, rest: string)
    requires at <= |s| && s[at..] == Digits(n, width) + (mark + rest)
    requires n < Pow10(width) && |mark| == 1
    ensures Reads(s[at..], n, width, mark[0])
    ensures at + width + 1 <= |s| && s[at + width + 1..] == rest
  {
    var here := s[at..];
    DigitsRead(n, width);
    assert here[..width] == Digits(n, width);
    assert here[width + 1..] == rest;
    assert s[at + width + 1..] == here[width + 1..];
  }

  lemma Powers()
    ensures Pow10(2) == 100 && Pow10(4) == 10000 && Pow10(6) == 1_000_000
  {
    assert Pow10(1) == 10 && Pow10(3) == 1000 && Pow10(5) == 100_000;
  }

  // ---------------------------------------------------------------- file names

  datatype Kind = Prophet | Arima

  function KindName(kind: Kind): string {
    match kind case Prophet => "prophet" case Arima => "arima"
  }

  /** What names a saved model: the directory of a workspace and metric, the kind, the time. */
  datatype Place = Place(workspace: string, metric: string)
  datatype Slot = Slot(place: Place, kind: Kind, at: Clock)
  datatype Path = Path(place: Place, name: string)

  function LastDot(name: string): (i: int)
    ensures -1 <= i < |name|
    ensures i >= 0 ==> name[i] == '.'
    ensures forall j :: i < j < |name| ==> name[j] != '.'
  {
    if name == "" then -1
    else if name[|name| - 1] == '.' then |name| - 1
    else LastDot(name[..|name| - 1])
  }

  /** pathlib's `with_suffix` on a file name. */
  function WithSuffix(name: string, suffix: string): string {
    var i := LastDot(name);
    (if 0 < i < |name| - 1 then name[..i] else name) + suffix
  }

  function Stem(slot: Slot): string {
    KindName(slot.kind) + "__" + SafeStamp(slot.at)
  }

  function ArtifactPath(slot: Slot): Path {
    Path(slot.place, Stem(slot) + ".pkl")
  }

  function ManifestPath(slot: Slot): Path {
    Path(slot.place, WithSuffix(ArtifactPath(slot).name, ".manifest.json"))
  }

  /** The artifact that `latest` derives from the name of a manifest. */
  function ArtifactOf(manifest: Path): Path {
    Path(manifest.place, WithSuffix(WithSuffix(manifest.name, ""), ".pkl"))
  }

  predicate IsManifestName(name: string) {
    |name| >= |".manifest.json"| && name[|name| - |".manifest.json"|..] == ".manifest.json"
  }

  /** Replacing the last suffix. */
  lemma WithSuffixReplaces(stem: string, ending: string, suffix: string)
    requires stem != "" && |ending| > 1 && ending[0] == '.' && '.' !in ending[1..]
    ensures WithSuffix(stem + ending, suffix) == stem + suffix
  {
    var name, i := stem + ending, LastDot(stem + ending);
    assert name[|stem|] == '.';
    assert forall j :: |stem| < j < |name| ==> name[j] == ending[1..][j - |stem| - 1];
    assert i == |stem|;
    assert name[..i] == stem;
  }

  lemma {:induction false} StemClean(slot: Slot)
    ensures Stem(slot) != "" && '.' !in Stem(slot)
  {
    StripRemoves(IsoFormat(slot.at));
    assert '.' !in KindName(slot.kind) + "__";
  }

  lemma LastOfManifestName(name: string)
    ensures IsManifestName(name) ==> name[|name| - 1] == 'n'
  {
    if IsManifestName(name) {
      assert name == name[..|name| - |".manifest.json"|] + ".manifest.json";
    }
  }

  /** MAIN: the names of artifact and manifest determine each other: the manifest written beside
      an artifact leads `latest` back to exactly that artifact. */
  lemma {:induction false} NamesInvert(slot: Slot)
    ensures ManifestPath(slot).name == Stem(slot) + ".manifest.json"
    ensures IsManifestName(ManifestPath(slot).name) && !IsManifestName(ArtifactPath(slot).name)
    ensures ArtifactOf(ManifestPath(slot)) == ArtifactPath(slot)
  {
    hide Stem, WithSuffix;
    var stem := Stem(slot);
    StemClean(slot);
    WithSuffixReplaces(stem, ".pkl", ".manifest.json");
    assert stem + ".manifest.json" == (stem + ".manifest") + ".json";
    WithSuffixReplaces(stem + ".manifest", ".json", "");
    assert (stem + ".manifest") + "" == stem + ".manifest";
    WithSuffixReplaces(stem, ".manifest", ".pkl");
    var artifact := stem + ".pkl";
    assert artifact[|artifact| - 1] == 'l';
    assert (stem + ".manifest.json")[|stem|..] == ".manifest.json";
    LastOfManifestName(artifact);
  }

  /** Manifest names of one directory sort by kind and then by time. */
  lemma {:induction false} ManifestOrder(a: Slot, b: Slot)
    ensures Before(ManifestPath(a).name, ManifestPath(b).name) <==>
            (a.kind == Arima && b.kind == Prophet) || (a.kind == b.kind && Earlier(a.at, b.at))
  {
    hide SafeStamp, Earlier, ManifestPath, Before, KindName;
    NamesInvert(a);
    NamesInvert(b);
    var ending := ".manifest.json";
    var x, y := SafeStamp(a.at) + ending, SafeStamp(b.at) + ending;
    Reassociate(KindName(a.kind) + "__", SafeStamp(a.at), ending);
    Reassociate(KindName(b.kind) + "__", SafeStamp(b.at), ending);
    if a.kind == b.kind {
      BeforePrefix(KindName(a.kind) + "__", x, y);
      StampOrderIsTimeOrder(a.at, b.at, ending);
    } else {
      KindOrder(a.kind, b.kind, "__", x, y);
    }
  }

  lemma Reassociate(a: string, b: string, c: string)
    ensures (a + b) + c == a + (b + c)
  {
  }

  lemma KindOrder(a: Kind, b: Kind, mark: string, x: string, y: string)
    requires a != b
    ensures Before(KindName(a) + mark + x, KindName(b) + mark + y) <==> a == Arima
  {
    assert (KindName(a) + mark + x)[0] == KindName(a)[0];
    assert (KindName(b) + mark + y)[0] == KindName(b)[0];
  }

  /** Different saves have different files, and no artifact is a manifest. */
  lemma {:induction false} PathsDistinct(a: Slot, b: Slot)
    ensures ArtifactPath(a) != ManifestPath(b)
    ensures ManifestPath(a) == ManifestPath(b) <==> a == b
    ensures ArtifactPath(a) == ArtifactPath(b) <==> a == b
  {
    hide ManifestPath, ArtifactPath, IsManifestName;
    NamesInvert(a);
    NamesInvert(b);
    if ManifestPath(a) == ManifestPath(b) {
      ManifestOrder(a, b);
      ManifestOrder(b, a);
      BeforeIrreflexive(ManifestPath(a).name);
      EarlierTotal(a.at, b.at);
      PlaceOf(a);
      PlaceOf(b);
    }
    if ArtifactPath(a) == ArtifactPath(b) {
      PlaceOf(a);
      PlaceOf(b);
      SameStem(a, b);
    }
  }

  lemma PlaceOf(a: Slot)
    ensures ManifestPath(a).place == ArtifactPath(a).place == a.place
  {
  }

  lemma {:induction false} SameStem(a: Slot, b: Slot)
    requires ArtifactPath(a) == ArtifactPath(b)
    ensures a == b
  {
    SplitSuffix(Stem(a), ".pkl", Stem(b), ".pkl");
    hide Stem;
    NamesInvert(a);
    NamesInvert(b);
    ManifestOrder(a, b);
    ManifestOrder(b, a);
    BeforeIrreflexive(ManifestPath(a).name);
    EarlierTotal(a.at, b.at);
  }
}

/** The `events` table: what a ReplacingMergeTree(ingested_at) ordered by the four-column
    sort key shows of the rows inserted into it (infra/clickhouse/init.sql). */
module EventStore {
  import opened Prelude
  import opened Events

  /** A row the consumer built, with its provenance: message `off` of partition `part`,
      enriched at time `now`. Only statements look at the provenance; readers use `row`. */
  datatype Entry = Entry(part: nat, off: nat, now: int, row: Row)

  /** An inserted row and its `ingested_at`. */
  datatype Stored = Stored(entry: Entry, ingestedAt: int)

  function Key(s: Stored): SortKey {
    KeyOf(s.entry.row)
  }

  /** All inserted rows, in the order of their insertion. */
  function RowsOf(t: seq<Stored>): (rows: seq<Row>)
    ensures |rows| == |t|
    ensures forall i :: 0 <= i < |t| ==> rows[i] == t[i].entry.row
  {
    seq(|t|, i requires 0 <= i < |t| => t[i].entry.row)
  }

  /** Replacement prefers row `i` to row `j`: it is newer, or as new and inserted later. */
  predicate Prefers(t: seq<Stored>, i: int, j: int)
    requires 0 <= i < |t| && 0 <= j < |t|
  {
    t[j].ingestedAt < t[i].ingestedAt || (t[j].ingestedAt == t[i].ingestedAt && j <= i)
  }

  /** Row `i` survives replacement: it is preferred to every row with its key. */
  predicate Visible(t: seq<Stored>, i: int)
    requires 0 <= i < |t|
  {
    forall j :: 0 <= j < |t| && Key(t[j]) == Key(t[i]) ==> Prefers(t, i, j)
  }

  /** The table read after replacement, one row per sort key, built insert by insert. */
  function View(t: seq<Stored>): (v: map<SortKey, Stored>)
  {
    if t == [] then map[]
    else
      var v := View(t[..|t| - 1]);
      var s := t[|t| - 1];
      if Key(s) in v && v[Key(s)].ingestedAt > s.ingestedAt then v else v[Key(s) := s]
  }

  /** The position of the row the view holds under key `k`, -1 when there is none. */
  function Winner(t: seq<Stored>, k: SortKey): (w: int)
    ensures -1 <= w < |t|
    ensures w == -1 ==> forall j :: 0 <= j < |t| ==> Key(t[j]) != k
    ensures w != -1 ==> Key(t[w]) == k && Visible(t, w)
  {
    if t == [] then -1
    else
      var n := |t| - 1;
      var r := t[..n];
      assert forall j :: 0 <= j < n ==> r[j] == t[j];
      var w := Winner(r, k);
      if Key(t[n]) != k then
        assert w != -1 ==> forall j :: 0 <= j < n && Key(t[j]) == k ==> Prefers(r, w, j);
        w
      else if w != -1 && t[w].ingestedAt > t[n].ingestedAt then
        assert forall j :: 0 <= j < n && Key(t[j]) == k ==> Prefers(r, w, j);
        w
      else
        assert w != -1 ==> forall j :: 0 <= j < n && Key(t[j]) == k ==> Prefers(r, w, j);
        n
  }

  lemma {:induction false} ViewHoldsWinner(t: seq<Stored>, k: SortKey)
    ensures k in View(t) <==> Winner(t, k) != -1
    ensures k in View(t) ==> View(t)[k] == t[Winner(t, k)]
  {
    if t != [] {
      ViewHoldsWinner(t[..|t| - 1], k);
      ViewHoldsWinner(t[..|t| - 1], Key(t[|t| - 1]));
    }
  }

  /** The view holds exactly the visible rows: one for every key that was ever inserted. */
  lemma {:induction false} ViewIsVisibleRows(t: seq<Stored>, i: int)
    requires 0 <= i < |t|
    ensures Key(t[i]) in View(t)
    ensures Visible(t, i) <==> Winner(t, Key(t[i])) == i
    ensures Visible(t, i) ==> View(t)[Key(t[i])] == t[i]
  {
    var w := Winner(t, Key(t[i]));
    ViewHoldsWinner(t, Key(t[i]));
    if Visible(t, i) {
      assert Prefers(t, i, w) && Prefers(t, w, i);
    }
  }

  /** Background merging may already have dropped a superseded row; the view cannot tell. */
  lemma {:induction false} MergeIsUnobservable(t: seq<Stored>, i: int)
    requires 0 <= i < |t| && !Visible(t, i)
    ensures View(t[..i] + t[i + 1..]) == View(t)
  {
    var u := t[..i] + t[i + 1..];
    forall k
      ensures k in View(t) <==> k in View(u)
      ensures k in View(t) ==> View(u)[k] == View(t)[k]
    {
      ViewHoldsWinner(t, k);
      ViewHoldsWinner(u, k);
      WinnerAfterMerge(t, i, k);
    }
  }

  lemma {:induction false} WinnerAfterMerge(t: seq<Stored>, i: int, k: SortKey)
    requires 0 <= i < |t| && !Visible(t, i)
    ensures var u := t[..i] + t[i + 1..];
            var w, x := Winner(t, k), Winner(u, k);
            (w == -1 <==> x == -1) && (w != -1 ==> u[x] == t[w])
  {
    var u := t[..i] + t[i + 1..];
    var w, x := Winner(t, k), Winner(u, k);
    if x != -1 {
      var y := if x < i then x else x + 1;
      assert u[x] == t[y];
      assert Key(t[y]) == k && w != -1;
    }
    if w != -1 {
      var w' := if w < i then w else w - 1;
      assert u[w'] == t[w];
      assert x != -1;
      var y := if x < i then x else x + 1;
      assert u[x] == t[y];
      assert Prefers(t, w, y);
      assert Prefers(u, x, w');
    }
  }

  /** Insert times never go back. */
  predicate Monotone(t: seq<Stored>) {
    forall i, j :: 0 <= i < j < |t| ==> t[i].ingestedAt <= t[j].ingestedAt
  }

  /** The entry inserted last under key `k`. */
  function LastWriter(t: seq<Stored>, k: SortKey): (e: Option<Entry>)
    ensures e.None? <==> forall i :: 0 <= i < |t| ==> Key(t[i]) != k
    ensures e.Some? ==> KeyOf(e.value.row) == k
  {
    if t == [] then None
    else
      var n := |t| - 1;
      if Key(t[n]) == k then Some(t[n].entry)
      else
        var e := LastWriter(t[..n], k);
        assert forall i :: 0 <= i < n ==> t[..n][i] == t[i];
        e
  }

  /** With a server clock that never goes back, the view is the last insert of every key. */
  lemma {:induction false} ViewIsLastWriter(t: seq<Stored>, k: SortKey)
    requires Monotone(t)
    ensures k in View(t) <==> LastWriter(t, k).Some?
    ensures k in View(t) ==> View(t)[k].entry == LastWriter(t, k).value
  {
    if t != [] {
      var n := |t| - 1;
      ViewIsLastWriter(t[..n], k);
      ViewHoldsWinner(t[..n], k);
    }
  }

  /** What appending a block does to the last writer. */
  lemma {:induction false} LastWriterOfConcat(t: seq<Stored>, u: seq<Stored>, k: SortKey)
    ensures LastWriter(t + u, k) == if LastWriter(u, k).Some? then LastWriter(u, k) else LastWriter(t, k)
  {
    if u == [] {
      assert t + u == t;
    } else {
      var n := |u| - 1;
      assert (t + u)[..|t + u| - 1] == t + u[..n];
      assert (t + u)[|t + u| - 1] == u[n];
      LastWriterOfConcat(t, u[..n], k);
    }
  }

  /** Where the last writer stands: no later row has its key. */
  lemma {:induction false} LastWriterAt(t: seq<Stored>, k: SortKey) returns (i: nat)
    requires LastWriter(t, k).Some?
    ensures i < |t| && t[i].entry == LastWriter(t, k).value && Key(t[i]) == k
    ensures forall j :: i < j < |t| ==> Key(t[j]) != k
  {
    var n := |t| - 1;
    if Key(t[n]) == k {
      i := n;
    } else {
      i := LastWriterAt(t[..n], k);
      assert forall j :: 0 <= j < n ==> t[..n][j] == t[j];
    }
  }
}

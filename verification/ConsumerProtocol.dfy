/** The consumer between Kafka and ClickHouse as a state machine: every interleaving of
    produced messages, polls, inserts and commits that fail or half land, crashes and
    restarts (ingestion/app/consumer.py: `_flush`, `run`). */
module ConsumerProtocol {
  import opened Events
  import opened EventStore

  /** The process. `failing` is set while an exception propagates out of the loop of `run`. */
  datatype Worker =
    | Down
    | Up(position: seq<nat>, buffer: seq<Entry>, pending: map<nat, nat>, failing: bool)

  /** `log` and `committed` belong to Kafka, `table` and its `clock` to ClickHouse. */
  datatype State = State(
    log: seq<seq<Message>>, committed: seq<nat>, table: seq<Stored>, clock: int, worker: Worker)

  /** A failed insert may still have stored any of the rows of its block. */
  datatype InsertOutcome = Inserted | InsertFailed(landed: set<nat>)

  /** A failed commit may still have moved the offset of any partition it named. */
  datatype CommitOutcome = Committed | CommitFailed(landed: set<nat>)

  /** How one call of `_flush` fares; `tick` is the time ClickHouse's clock advances before it. */
  datatype Attempt = Attempt(insert: InsertOutcome, commit: CommitOutcome, tick: nat)

  /** Messages taken from one partition; `times[i]` is the clock when the i-th is enriched. */
  datatype Batch = Batch(part: nat, times: seq<int>)

  datatype Step =
    | Append(part: nat, message: Message)
    | Start
    | Poll(batches: seq<Batch>)
    | PollFails
    | Flush(attempt: Attempt)
    | Finish(attempt: Attempt)
    | Crash

  // ---------------------------------------------------------------- transitions

  function TakeOne(env: Env, log: seq<seq<Message>>, w: Worker, part: nat, now: int): Worker
    requires w.Up?
    ensures TakeOne(env, log, w, part, now).Up?
  {
    if part >= |log| || part >= |w.position| || w.position[part] >= |log[part]| then w
    else
      var off := w.position[part];
      var moved := w.(position := w.position[part := off + 1]);
      if !WellFormed(log[part][off]) then moved
      else moved.(buffer := w.buffer + [Entry(part, off, now, RowAt(env, log[part][off], now))],
                  pending := w.pending[part := off])
  }

  function TakeBatch(env: Env, log: seq<seq<Message>>, w: Worker, part: nat, times: seq<int>): (r: Worker)
    requires w.Up?
    ensures r.Up?
    decreases |times|
  {
    if times == [] then w
    else TakeBatch(env, log, TakeOne(env, log, w, part, times[0]), part, times[1..])
  }

  function TakeAll(env: Env, log: seq<seq<Message>>, w: Worker, batches: seq<Batch>): (r: Worker)
    requires w.Up?
    ensures r.Up?
    decreases |batches|
  {
    if batches == [] then w
    else TakeAll(env, log, TakeBatch(env, log, w, batches[0].part, batches[0].times), batches[1..])
  }

  function Stamp(entries: seq<Entry>, at: int): (t: seq<Stored>)
    ensures |t| == |entries|
    ensures forall i :: 0 <= i < |t| ==> t[i] == Stored(entries[i], at)
  {
    seq(|entries|, i requires 0 <= i < |entries| => Stored(entries[i], at))
  }

  /** The rows of a block at the positions in `landed`. */
  function Landed(entries: seq<Entry>, landed: set<nat>): (r: seq<Entry>)
    ensures forall e :: e in r ==> e in entries
  {
    if entries == [] then []
    else
      var n := |entries| - 1;
      Landed(entries[..n], landed) + (if n in landed then [entries[n]] else [])
  }

  function CommitAt(committed: seq<nat>, pending: map<nat, nat>, parts: set<nat>): (c: seq<nat>)
    ensures |c| == |committed|
    ensures forall p :: 0 <= p < |c| ==>
      c[p] == if p in pending && p in parts then pending[p] + 1 else committed[p]
  {
    seq(|committed|, p requires 0 <= p < |committed| =>
      if p in pending && p in parts then pending[p] + 1 else committed[p])
  }

  /** `_flush`: insert the buffer, then commit one past the highest offset of each partition. */
  function FlushState(s: State, a: Attempt): (r: State)
    requires s.worker.Up?
    ensures r.worker.Up?
  {
    var w := s.worker;
    if w.buffer == [] then s
    else
      var clock := s.clock + a.tick;
      match a.insert
      case InsertFailed(landed) =>
        s.(table := s.table + Stamp(Landed(w.buffer, landed), clock), clock := clock,
           worker := w.(failing := true))
      case Inserted =>
        var stored := s.(table := s.table + Stamp(w.buffer, clock), clock := clock);
        if w.pending == map[] || a.commit.Committed? then
          stored.(committed := CommitAt(s.committed, w.pending, w.pending.Keys),
                  worker := w.(buffer := [], pending := map[]))
        else
          stored.(committed := CommitAt(s.committed, w.pending, a.commit.landed),
                  worker := w.(buffer := [], failing := true))
  }

  /** One step; a step that is not enabled leaves the state alone. */
  function Next(env: Env, s: State, step: Step): State {
    match step
    case Append(p, m) =>
      if p < |s.log| && (WellFormed(m) ==> env.route(m.workspaceId.value) == p)
      then s.(log := s.log[p := s.log[p] + [m]]) else s
    case Start => if s.worker.Down? then s.(worker := Up(s.committed, [], map[], false)) else s
    case Poll(batches) =>
      if s.worker.Up? && !s.worker.failing then s.(worker := TakeAll(env, s.log, s.worker, batches)) else s
    case PollFails =>
      if s.worker.Up? && !s.worker.failing then s.(worker := s.worker.(failing := true)) else s
    case Flush(a) => if s.worker.Up? && !s.worker.failing then FlushState(s, a) else s
    case Finish(a) => if s.worker.Up? then FlushState(s, a).(worker := Down) else s
    case Crash => s.(worker := Down)
  }

  function Run(env: Env, s: State, steps: seq<Step>): State
    decreases |steps|
  {
    if steps == [] then s else Run(env, Next(env, s, steps[0]), steps[1..])
  }

  lemma {:induction false} RunConcat(env: Env, s: State, a: seq<Step>, b: seq<Step>)
    ensures Run(env, s, a + b) == Run(env, Run(env, s, a), b)
    decreases |a|
  {
    hide Next;
    if a == [] {
      assert a + b == b;
    } else {
      assert (a + b)[1..] == a[1..] + b;
      RunConcat(env, Next(env, s, a[0]), a[1..], b);
    }
  }

  lemma {:induction false} RunOne(env: Env, s: State, step: Step)
    ensures Run(env, s, [step]) == Next(env, s, step)
  {
    hide Next;
    assert [step][1..] == [];
    assert Run(env, Next(env, s, step), []) == Next(env, s, step);
  }

  function Init(partitions: nat): State {
    State(seq(partitions, _ => []), seq(partitions, _ => 0), [], 0, Down)
  }

  // ---------------------------------------------------------------- invariant

  /** Message `o` of partition `p` exists and is well formed. */
  predicate Good(log: seq<seq<Message>>, p: int, o: int) {
    0 <= p < |log| && 0 <= o < |log[p]| && WellFormed(log[p][o])
  }

  predicate FromLog(env: Env, log: seq<seq<Message>>, e: Entry) {
    Good(log, e.part, e.off) && e.row == RowAt(env, log[e.part][e.off], e.now)
  }

  /** The producer keys messages by workspace, so a workspace lives in one partition. */
  ghost predicate Routed(env: Env, log: seq<seq<Message>>) {
    forall p, o :: Good(log, p, o) ==> env.route(log[p][o].workspaceId.value) == p
  }

  predicate Buffered(buffer: seq<Entry>, p: int, o: int) {
    exists i :: 0 <= i < |buffer| && buffer[i].part == p && buffer[i].off == o
  }

  predicate InTable(t: seq<Stored>, p: int, o: int) {
    exists i :: 0 <= i < |t| && t[i].entry.part == p && t[i].entry.off == o
  }

  /** Position `o` of partition `p` has been read but not committed. */
  predicate InFlight(committed: seq<nat>, position: seq<nat>, p: int, o: int) {
    0 <= p < |committed| && p < |position| && committed[p] <= o < position[p]
  }

  /** The buffer holds exactly the rows of the well-formed messages in [committed, position)
      of each partition, once each and in log order. */
  ghost predicate BufferExact(env: Env, log: seq<seq<Message>>, committed: seq<nat>, position: seq<nat>,
                              buffer: seq<Entry>) {
    && (forall i :: 0 <= i < |buffer| ==>
          FromLog(env, log, buffer[i]) && InFlight(committed, position, buffer[i].part, buffer[i].off))
    && (forall i, j :: 0 <= i < j < |buffer| && buffer[i].part == buffer[j].part ==> buffer[i].off < buffer[j].off)
    && (forall p, o :: Good(log, p, o) && InFlight(committed, position, p, o) ==> Buffered(buffer, p, o))
  }

  /** Each pending offset is that of the last well-formed message in [committed, position),
      and a partition without such a message has none. */
  ghost predicate PendingExact(log: seq<seq<Message>>, committed: seq<nat>, position: seq<nat>,
                               pending: map<nat, nat>) {
    && (forall p :: p in pending ==> Good(log, p, pending[p]) && InFlight(committed, position, p, pending[p]))
    && (forall p, o :: Good(log, p, o) && InFlight(committed, position, p, o) ==> p in pending && o <= pending[p])
  }

  ghost predicate Exact(env: Env, s: State)
    requires s.worker.Up?
  {
    && BufferExact(env, s.log, s.committed, s.worker.position, s.worker.buffer)
    && PendingExact(s.log, s.committed, s.worker.position, s.worker.pending)
  }

  /** Offsets of the right shape: 0 <= committed <= position <= end of log. */
  predicate Shape(s: State) {
    && |s.committed| == |s.log|
    && (forall p :: 0 <= p < |s.log| ==> s.committed[p] <= |s.log[p]|)
    && (s.worker.Up? ==>
          && |s.worker.position| == |s.log|
          && forall p :: 0 <= p < |s.log| ==> s.committed[p] <= s.worker.position[p] <= |s.log[p]|)
  }

  ghost predicate TableOk(env: Env, s: State) {
    && (forall i :: 0 <= i < |s.table| ==> FromLog(env, s.log, s.table[i].entry))
    && (forall i :: 0 <= i < |s.table| ==> s.table[i].ingestedAt <= s.clock)
    && Monotone(s.table)
  }

  /** Nothing below the committed offset is missing from the table. */
  ghost predicate NoLoss(s: State)
    requires |s.committed| == |s.log|
  {
    forall p, o :: Good(s.log, p, o) && o < s.committed[p] ==> InTable(s.table, p, o)
  }

  /** The last write under the key of message (p, o) comes from a message no older than it. */
  ghost predicate Current(env: Env, log: seq<seq<Message>>, t: seq<Stored>, p: int, o: int)
    requires Good(log, p, o)
  {
    var e := LastWriter(t, KeyOf(RowAt(env, log[p][o], 0)));
    e.Some? && e.value.off >= o
  }

  ghost predicate UpToDate(env: Env, s: State)
    requires |s.committed| == |s.log|
  {
    forall p, o :: Good(s.log, p, o) && Timed(env, s.log[p][o]) && o < s.committed[p] ==>
      Current(env, s.log, s.table, p, o)
  }

  ghost predicate Inv(env: Env, s: State) {
    && Shape(s)
    && Routed(env, s.log)
    && TableOk(env, s)
    && NoLoss(s)
    && UpToDate(env, s)
    && (s.worker.Up? ==> Exact(env, s) || (s.worker.failing && s.worker.buffer == []))
  }

  // ---------------------------------------------------------------- the invariant is inductive

  lemma {:induction false} InitInv(env: Env, n: nat)
    ensures Inv(env, Init(n))
  {
  }

  /** Every partition of `more` starts with that of `log`. */
  ghost predicate Extends(log: seq<seq<Message>>, more: seq<seq<Message>>) {
    && |more| == |log|
    && (forall p, o :: Good(log, p, o) ==> Good(more, p, o) && more[p][o] == log[p][o])
    && (forall p, o :: Good(more, p, o) && o < |log[p]| ==> Good(log, p, o))
    && (forall p :: 0 <= p < |log| ==> |log[p]| <= |more[p]|)
  }

  lemma {:induction false} BufferExtends(env: Env, log: seq<seq<Message>>, more: seq<seq<Message>>,
                                         committed: seq<nat>, position: seq<nat>, buffer: seq<Entry>)
    requires Extends(log, more) && |position| == |log|
    requires forall p :: 0 <= p < |log| ==> position[p] <= |log[p]|
    requires BufferExact(env, log, committed, position, buffer)
    ensures BufferExact(env, more, committed, position, buffer)
  {
    forall p, o | Good(more, p, o) && InFlight(committed, position, p, o)
      ensures Buffered(buffer, p, o)
    {
      assert Good(log, p, o);
    }
    forall i | 0 <= i < |buffer|
      ensures FromLog(env, more, buffer[i])
    {
      assert FromLog(env, log, buffer[i]) && Good(log, buffer[i].part, buffer[i].off);
    }
  }

  lemma {:induction false} PendingExtends(log: seq<seq<Message>>, more: seq<seq<Message>>,
                                          committed: seq<nat>, position: seq<nat>, pending: map<nat, nat>)
    requires Extends(log, more) && |position| == |log|
    requires forall p :: 0 <= p < |log| ==> position[p] <= |log[p]|
    requires PendingExact(log, committed, position, pending)
    ensures PendingExact(more, committed, position, pending)
  {
    forall p, o | Good(more, p, o) && InFlight(committed, position, p, o)
      ensures p in pending && o <= pending[p]
    {
      assert Good(log, p, o);
    }
  }

  lemma {:induction false} TableExtends(env: Env, s: State, more: seq<seq<Message>>)
    requires Shape(s) && TableOk(env, s) && NoLoss(s) && UpToDate(env, s) && Extends(s.log, more)
    ensures var r := s.(log := more); TableOk(env, r) && NoLoss(r) && UpToDate(env, r)
  {
    var r := s.(log := more);
    assert forall p, o :: Good(more, p, o) && o < s.committed[p] ==> Good(s.log, p, o);
    forall p, o | Good(more, p, o) && Timed(env, more[p][o]) && o < s.committed[p]
      ensures Current(env, more, s.table, p, o)
    {
      assert Good(s.log, p, o) && Current(env, s.log, s.table, p, o);
    }
  }

  lemma {:induction false} AppendInv(env: Env, s: State, p: nat, m: Message)
    requires Inv(env, s)
    ensures Inv(env, Next(env, s, Append(p, m)))
  {
    var r := Next(env, s, Append(p, m));
    if r != s {
      assert r.log[p] == s.log[p] + [m];
      assert Extends(s.log, r.log);
      TableExtends(env, s, r.log);
      if s.worker.Up? && Exact(env, s) {
        BufferExtends(env, s.log, r.log, s.committed, s.worker.position, s.worker.buffer);
        PendingExtends(s.log, r.log, s.committed, s.worker.position, s.worker.pending);
      }
    }
  }

  /** The messages in flight after one more is read from `part`. */
  lemma {:induction false} InFlightAfterRead(committed: seq<nat>, position: seq<nat>, part: nat, p: int, o: int)
    requires part < |committed| == |position| && committed[part] <= position[part]
    ensures InFlight(committed, position[part := position[part] + 1], p, o) <==>
            InFlight(committed, position, p, o) || (p == part && o == position[part])
  {
  }

  /** Reading a malformed message: it is neither buffered nor pending. */
  lemma {:induction false} SkipExact(env: Env, s: State, part: nat)
    requires Shape(s) && s.worker.Up? && Exact(env, s)
    requires part < |s.log| && !Good(s.log, part, s.worker.position[part])
    ensures Exact(env, s.(worker := s.worker.(position := s.worker.position[part := s.worker.position[part] + 1])))
  {
    forall p, o {
      InFlightAfterRead(s.committed, s.worker.position, part, p, o);
    }
  }

  /** Reading a well-formed message: its row joins the buffer. */
  lemma {:induction false} TakeBuffer(env: Env, log: seq<seq<Message>>, committed: seq<nat>, position: seq<nat>,
                                      buffer: seq<Entry>, e: Entry)
    requires BufferExact(env, log, committed, position, buffer) && FromLog(env, log, e)
    requires |committed| == |position| == |log| && committed[e.part] <= position[e.part] == e.off
    ensures BufferExact(env, log, committed, position[e.part := e.off + 1], buffer + [e])
  {
    hide RowAt, WellFormed;
    var next, more := position[e.part := e.off + 1], buffer + [e];
    forall p, o | Good(log, p, o) && InFlight(committed, next, p, o)
      ensures Buffered(more, p, o)
    {
      InFlightAfterRead(committed, position, e.part, p, o);
      if InFlight(committed, position, p, o) {
        assert Buffered(buffer, p, o);
        var i :| 0 <= i < |buffer| && buffer[i].part == p && buffer[i].off == o;
        assert more[i] == buffer[i];
      } else {
        assert more[|buffer|] == e;
      }
    }
    forall i | 0 <= i < |more|
      ensures FromLog(env, log, more[i]) && InFlight(committed, next, more[i].part, more[i].off)
    {
      InFlightAfterRead(committed, position, e.part, more[i].part, more[i].off);
      if i < |buffer| {
        assert more[i] == buffer[i];
      }
    }
    forall i, j | 0 <= i < j < |more| && more[i].part == more[j].part
      ensures more[i].off < more[j].off
    {
      assert more[i] == buffer[i];
      if j < |buffer| {
        assert more[j] == buffer[j];
      }
    }
  }

  /** Reading a well-formed message: its offset becomes the pending one. */
  lemma {:induction false} TakePending(log: seq<seq<Message>>, committed: seq<nat>, position: seq<nat>,
                                       pending: map<nat, nat>, part: nat)
    requires PendingExact(log, committed, position, pending)
    requires |committed| == |position| == |log| && part < |log| && committed[part] <= position[part]
    requires Good(log, part, position[part])
    ensures PendingExact(log, committed, position[part := position[part] + 1], pending[part := position[part]])
  {
    forall p, o {
      InFlightAfterRead(committed, position, part, p, o);
    }
  }

  lemma {:induction false} TakeOneExact(env: Env, s: State, part: nat, now: int)
    requires Shape(s) && s.worker.Up? && Exact(env, s)
    ensures var r := s.(worker := TakeOne(env, s.log, s.worker, part, now));
            Shape(r) && Exact(env, r) && r.worker.failing == s.worker.failing
  {
    hide BufferExact, PendingExact, RowAt, EnrichRow;
    if part < |s.log| && s.worker.position[part] < |s.log[part]| {
      var off := s.worker.position[part];
      if WellFormed(s.log[part][off]) {
        TakeBuffer(env, s.log, s.committed, s.worker.position, s.worker.buffer,
                   Entry(part, off, now, RowAt(env, s.log[part][off], now)));
        TakePending(s.log, s.committed, s.worker.position, s.worker.pending, part);
      } else {
        SkipExact(env, s, part);
      }
    }
  }

  lemma {:induction false} TakeBatchExact(env: Env, s: State, part: nat, times: seq<int>)
    requires Shape(s) && s.worker.Up? && Exact(env, s)
    ensures var r := s.(worker := TakeBatch(env, s.log, s.worker, part, times));
            Shape(r) && Exact(env, r) && r.worker.failing == s.worker.failing
    decreases |times|
  {
    if times != [] {
      TakeOneExact(env, s, part, times[0]);
      TakeBatchExact(env, s.(worker := TakeOne(env, s.log, s.worker, part, times[0])), part, times[1..]);
    }
  }

  lemma {:induction false} TakeAllExact(env: Env, s: State, batches: seq<Batch>)
    requires Shape(s) && s.worker.Up? && Exact(env, s)
    ensures var r := s.(worker := TakeAll(env, s.log, s.worker, batches));
            Shape(r) && Exact(env, r) && r.worker.failing == s.worker.failing
    decreases |batches|
  {
    if batches != [] {
      TakeBatchExact(env, s, batches[0].part, batches[0].times);
      TakeAllExact(env, s.(worker := TakeBatch(env, s.log, s.worker, batches[0].part, batches[0].times)), batches[1..]);
    }
  }

  // ---------------------------------------------------------------- flushing

  /** Rows built from the log, each of a message that is not committed yet. */
  predicate Uncommitted(env: Env, log: seq<seq<Message>>, committed: seq<nat>, entries: seq<Entry>) {
    forall i :: 0 <= i < |entries| ==>
      FromLog(env, log, entries[i]) && entries[i].part < |committed| && committed[entries[i].part] <= entries[i].off
  }

  /** Rows of one partition stand in log order. */
  predicate InOrder(entries: seq<Entry>) {
    forall i, j :: 0 <= i < j < |entries| && entries[i].part == entries[j].part ==> entries[i].off < entries[j].off
  }

  /** Whatever part of the buffer lands, its rows are uncommitted rows of the log. */
  lemma {:induction false} LandedUncommitted(env: Env, log: seq<seq<Message>>, committed: seq<nat>,
                                             entries: seq<Entry>, landed: set<nat>)
    requires Uncommitted(env, log, committed, entries)
    ensures Uncommitted(env, log, committed, Landed(entries, landed))
  {
    var r := Landed(entries, landed);
    forall i | 0 <= i < |r|
      ensures FromLog(env, log, r[i]) && r[i].part < |committed| && committed[r[i].part] <= r[i].off
    {
      assert r[i] in entries;
    }
  }

  /** Appending a block of rows of the log keeps the table well formed. */
  lemma {:induction false} BlockOk(env: Env, s: State, entries: seq<Entry>, clock: int)
    requires TableOk(env, s) && Uncommitted(env, s.log, s.committed, entries) && s.clock <= clock
    ensures TableOk(env, s.(table := s.table + Stamp(entries, clock), clock := clock))
  {
    hide RowAt, EnrichRow;
    var u := Stamp(entries, clock);
    var t := s.table + u;
    forall i | 0 <= i < |t|
      ensures FromLog(env, s.log, t[i].entry) && t[i].ingestedAt <= clock
    {
      assert t[i] == if i < |s.table| then s.table[i] else u[i - |s.table|];
    }
    forall i, j | 0 <= i < j < |t|
      ensures t[i].ingestedAt <= t[j].ingestedAt
    {
      assert t[i] == if i < |s.table| then s.table[i] else u[i - |s.table|];
      assert t[j] == if j < |s.table| then s.table[j] else u[j - |s.table|];
    }
  }

  /** Rows of one sort key come from one partition. */
  lemma {:induction false} SameKeySamePart(env: Env, log: seq<seq<Message>>, e: Entry, p: int, o: int, now: int)
    requires Routed(env, log) && FromLog(env, log, e) && Good(log, p, o)
    requires KeyOf(e.row) == KeyOf(RowAt(env, log[p][o], now))
    ensures e.part == p
  {
    hide RowAt, EnrichRow;
  }

  /** Appending uncommitted rows never replaces the last write of a committed message by an older one. */
  lemma {:induction false} BlockKeepsCurrent(env: Env, s: State, entries: seq<Entry>, clock: int, p: int, o: int)
    requires Routed(env, s.log) && Uncommitted(env, s.log, s.committed, entries)
    requires Good(s.log, p, o) && p < |s.committed| && o < s.committed[p] && Current(env, s.log, s.table, p, o)
    ensures Current(env, s.log, s.table + Stamp(entries, clock), p, o)
  {
    hide RowAt, EnrichRow;
    var u, k := Stamp(entries, clock), KeyOf(RowAt(env, s.log[p][o], 0));
    LastWriterOfConcat(s.table, u, k);
    if LastWriter(u, k).Some? {
      var i := LastWriterAt(u, k);
      assert FromLog(env, s.log, entries[i]);
      SameKeySamePart(env, s.log, entries[i], p, o, 0);
    }
  }

  /** A complete block in log order leaves every message it holds current. */
  lemma {:induction false} BlockMakesCurrent(env: Env, log: seq<seq<Message>>, committed: seq<nat>, t: seq<Stored>,
                                             entries: seq<Entry>, clock: int, i: int)
    requires Routed(env, log) && Uncommitted(env, log, committed, entries) && InOrder(entries)
    requires 0 <= i < |entries| && Timed(env, log[entries[i].part][entries[i].off])
    ensures Current(env, log, t + Stamp(entries, clock), entries[i].part, entries[i].off)
  {
    hide RowAt, EnrichRow;
    var u, e := Stamp(entries, clock), entries[i];
    var k := KeyOf(RowAt(env, log[e.part][e.off], 0));
    assert FromLog(env, log, e);
    RowFixed(env, log[e.part][e.off], e.now, 0);
    assert Key(u[i]) == k;
    LastWriterOfConcat(t, u, k);
    var j := LastWriterAt(u, k);
    assert i <= j && FromLog(env, log, entries[j]);
    SameKeySamePart(env, log, entries[j], e.part, e.off, 0);
  }

  /** Where the buffer holds message (p, o). */
  lemma {:induction false} BufferIndex(env: Env, s: State, p: int, o: int) returns (i: nat)
    requires s.worker.Up? && Exact(env, s)
    requires Good(s.log, p, o) && InFlight(s.committed, s.worker.position, p, o)
    ensures i < |s.worker.buffer| && s.worker.buffer[i].part == p && s.worker.buffer[i].off == o
  {
    assert Buffered(s.worker.buffer, p, o);
    i :| 0 <= i < |s.worker.buffer| && s.worker.buffer[i].part == p && s.worker.buffer[i].off == o;
  }

  lemma {:induction false} BlockHolds(t: seq<Stored>, entries: seq<Entry>, clock: int, i: int)
    requires 0 <= i < |entries|
    ensures InTable(t + Stamp(entries, clock), entries[i].part, entries[i].off)
  {
    assert (t + Stamp(entries, clock))[|t| + i].entry == entries[i];
  }

  lemma {:induction false} InTableGrows(t: seq<Stored>, u: seq<Stored>, p: int, o: int)
    requires InTable(t, p, o)
    ensures InTable(t + u, p, o)
  {
    var i :| 0 <= i < |t| && t[i].entry.part == p && t[i].entry.off == o;
    assert (t + u)[i] == t[i];
  }

  /** A failed insert, whatever it left behind, loses nothing and keeps the buffer exact. */
  lemma {:induction false} InsertFailedInv(env: Env, s: State, landed: set<nat>, clock: int, r: State)
    requires Inv(env, s) && s.worker.Up? && Exact(env, s) && s.clock <= clock
    requires r == s.(table := s.table + Stamp(Landed(s.worker.buffer, landed), clock), clock := clock,
                     worker := s.worker.(failing := true))
    ensures Inv(env, r)
  {
    var entries := Landed(s.worker.buffer, landed);
    LandedUncommitted(env, s.log, s.committed, s.worker.buffer, landed);
    BlockOk(env, s, entries, clock);
    hide RowAt, WellFormed, Timed, LastWriter, Landed;
    forall p, o | Good(s.log, p, o) && o < s.committed[p]
      ensures InTable(s.table + Stamp(entries, clock), p, o)
    {
      InTableGrows(s.table, Stamp(entries, clock), p, o);
    }
    forall p, o | Good(s.log, p, o) && Timed(env, s.log[p][o]) && o < s.committed[p]
      ensures Current(env, s.log, s.table + Stamp(entries, clock), p, o)
    {
      BlockKeepsCurrent(env, s, entries, clock, p, o);
    }
  }

  /** A commit of any of the pending partitions after a complete insert is covered by the table. */
  lemma {:induction false} CommitCovered(env: Env, s: State, clock: int, parts: set<nat>)
    requires Inv(env, s) && s.worker.Up? && Exact(env, s) && s.clock <= clock
    ensures var r := s.(table := s.table + Stamp(s.worker.buffer, clock), clock := clock,
                        committed := CommitAt(s.committed, s.worker.pending, parts));
            Shape(r) && TableOk(env, r) && NoLoss(r) && UpToDate(env, r)
  {
    var u := Stamp(s.worker.buffer, clock);
    var c := CommitAt(s.committed, s.worker.pending, parts);
    BlockOk(env, s, s.worker.buffer, clock);
    forall p | 0 <= p < |s.log|
      ensures s.committed[p] <= c[p] <= s.worker.position[p]
    {
      if p in s.worker.pending {
        assert InFlight(s.committed, s.worker.position, p, s.worker.pending[p]);
      }
    }
    forall p, o | Good(s.log, p, o) && o < c[p]
      ensures InTable(s.table + u, p, o)
    {
      if o < s.committed[p] {
        InTableGrows(s.table, u, p, o);
      } else {
        var i := BufferIndex(env, s, p, o);
        BlockHolds(s.table, s.worker.buffer, clock, i);
      }
    }
    forall p, o | Good(s.log, p, o) && Timed(env, s.log[p][o]) && o < c[p]
      ensures Current(env, s.log, s.table + u, p, o)
    {
      if o < s.committed[p] {
        BlockKeepsCurrent(env, s, s.worker.buffer, clock, p, o);
      } else {
        var i := BufferIndex(env, s, p, o);
        BlockMakesCurrent(env, s.log, s.committed, s.table, s.worker.buffer, clock, i);
      }
    }
  }

  /** After a full commit no well-formed message is in flight. */
  lemma {:induction false} NothingInFlight(env: Env, s: State, p: int, o: int)
    requires Shape(s) && s.worker.Up? && Exact(env, s) && Good(s.log, p, o)
    ensures !InFlight(CommitAt(s.committed, s.worker.pending, s.worker.pending.Keys), s.worker.position, p, o)
  {
    if p in s.worker.pending {
      assert InFlight(s.committed, s.worker.position, p, s.worker.pending[p]);
    }
  }

  /** After a full commit the empty buffer and the empty pending map are exact. */
  lemma {:induction false} CommittedExact(env: Env, s: State)
    requires Shape(s) && s.worker.Up? && Exact(env, s)
    ensures var c := CommitAt(s.committed, s.worker.pending, s.worker.pending.Keys);
            BufferExact(env, s.log, c, s.worker.position, []) && PendingExact(s.log, c, s.worker.position, map[])
  {
    forall p, o | Good(s.log, p, o) {
      NothingInFlight(env, s, p, o);
    }
  }

  /** Insert and commit both succeed. */
  lemma {:induction false} CommitInv(env: Env, s: State, clock: int, r: State)
    requires Inv(env, s) && s.worker.Up? && Exact(env, s) && s.clock <= clock
    requires r == s.(table := s.table + Stamp(s.worker.buffer, clock), clock := clock,
                     committed := CommitAt(s.committed, s.worker.pending, s.worker.pending.Keys),
                     worker := s.worker.(buffer := [], pending := map[]))
    ensures Inv(env, r)
  {
    CommitCovered(env, s, clock, s.worker.pending.Keys);
    CommittedExact(env, s);
  }

  /** The insert succeeds and the commit fails, having moved any of the offsets. */
  lemma {:induction false} CommitFailedInv(env: Env, s: State, clock: int, landed: set<nat>, r: State)
    requires Inv(env, s) && s.worker.Up? && Exact(env, s) && s.clock <= clock
    requires r == s.(table := s.table + Stamp(s.worker.buffer, clock), clock := clock,
                     committed := CommitAt(s.committed, s.worker.pending, landed),
                     worker := s.worker.(buffer := [], failing := true))
    ensures Inv(env, r)
  {
    CommitCovered(env, s, clock, landed);
  }

  lemma {:induction false} LoadedIsExact(env: Env, s: State)
    requires Inv(env, s) && s.worker.Up? && s.worker.buffer != []
    ensures Exact(env, s)
  {
  }

  lemma {:induction false} FlushInv(env: Env, s: State, a: Attempt)
    requires Inv(env, s) && s.worker.Up?
    ensures Inv(env, FlushState(s, a))
  {
    hide Inv, Exact;
    var w, clock, r := s.worker, s.clock + a.tick, FlushState(s, a);
    if w.buffer != [] {
      LoadedIsExact(env, s);
      match a.insert
      case InsertFailed(landed) => InsertFailedInv(env, s, landed, clock, r);
      case Inserted =>
        if w.pending == map[] || a.commit.Committed? {
          CommitInv(env, s, clock, r);
        } else {
          CommitFailedInv(env, s, clock, a.commit.landed, r);
        }
    }
  }

  lemma {:induction false} StartInv(env: Env, s: State)
    requires Inv(env, s)
    ensures Inv(env, Next(env, s, Start))
  {
  }

  lemma {:induction false} PollInv(env: Env, s: State, batches: seq<Batch>)
    requires Inv(env, s)
    ensures Inv(env, Next(env, s, Poll(batches)))
  {
    hide BufferExact, PendingExact, RowAt, EnrichRow;
    if s.worker.Up? && !s.worker.failing {
      TakeAllExact(env, s, batches);
    }
  }

  lemma {:induction false} StepInv(env: Env, s: State, step: Step)
    requires Inv(env, s)
    ensures Inv(env, Next(env, s, step))
  {
    hide BufferExact, PendingExact, FlushState, RowAt, EnrichRow, LastWriter;
    match step
    case Append(p, m) => AppendInv(env, s, p, m);
    case Start => StartInv(env, s);
    case Poll(batches) => PollInv(env, s, batches);
    case Flush(a) =>
      if s.worker.Up? && !s.worker.failing {
        FlushInv(env, s, a);
      }
    case Finish(a) =>
      if s.worker.Up? {
        FlushInv(env, s, a);
      }
    case _ =>
  }

  /** MAIN: the invariant holds after every run of the pipeline. */
  lemma {:induction false} RunInv(env: Env, s: State, steps: seq<Step>)
    requires Inv(env, s)
    ensures Inv(env, Run(env, s, steps))
    decreases |steps|
  {
    if steps != [] {
      StepInv(env, s, steps[0]);
      RunInv(env, Next(env, s, steps[0]), steps[1..]);
    }
  }
}

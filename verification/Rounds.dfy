/** What the loop of `run` does turn by turn (ingestion/app/consumer.py): how many rows a turn
    inserts, when the loop goes on, and how a restarted worker catches up with legal polls. */
module Rounds {
  import opened Prelude
  import opened Events
  import opened EventStore
  import opened ConsumerProtocol
  import opened ConsumerWorker
  import opened Delivery

  // ---------------------------------------------------------------- how much a turn inserts

  function Taken(batches: seq<Batch>): nat {
    if batches == [] then 0 else |batches[0].times| + Taken(batches[1..])
  }

  lemma {:induction false} TakeBatchGrows(env: Env, log: seq<seq<Message>>, w: Worker, part: nat, times: seq<int>)
    requires w.Up?
    ensures |TakeBatch(env, log, w, part, times).buffer| <= |w.buffer| + |times|
    ensures TakeBatch(env, log, w, part, times).failing == w.failing
    decreases |times|
  {
    if times != [] {
      TakeBatchGrows(env, log, TakeOne(env, log, w, part, times[0]), part, times[1..]);
    }
  }

  lemma {:induction false} TakeAllGrows(env: Env, log: seq<seq<Message>>, w: Worker, batches: seq<Batch>)
    requires w.Up?
    ensures |TakeAll(env, log, w, batches).buffer| <= |w.buffer| + Taken(batches)
    ensures TakeAll(env, log, w, batches).failing == w.failing
    decreases |batches|
  {
    if batches != [] {
      TakeBatchGrows(env, log, w, batches[0].part, batches[0].times);
      TakeAllGrows(env, log, TakeBatch(env, log, w, batches[0].part, batches[0].times), batches[1..]);
    }
  }

  /** A turn that starts with a short buffer and polls at most BATCH_MAX_ROWS messages inserts
      fewer than twice that many rows; if it ends normally, the buffer is short again and what
      is left of it has waited less than the flush interval. */
  lemma {:induction false} TurnKeepsBufferShort(env: Env, s: State, lastFlushAt: int, r: Round)
    requires s.worker.Up? && !s.worker.failing && |s.worker.buffer| < BATCH_MAX_ROWS
    requires r.Round? && Taken(r.batches) <= BATCH_MAX_ROWS
    ensures var polled := Next(env, s, Poll(r.batches));
            var after := Run(env, s, RoundSteps(env, s, lastFlushAt, r));
            && polled.worker.Up? && |polled.worker.buffer| < 2 * BATCH_MAX_ROWS
            && after.worker.Up?
            && (!after.worker.failing ==>
                  && |after.worker.buffer| < BATCH_MAX_ROWS
                  && (after.worker.buffer != [] ==> r.now - lastFlushAt < BATCH_MAX_INTERVAL))
  {
    TakeAllGrows(env, s.log, s.worker, r.batches);
    var polled := Next(env, s, Poll(r.batches));
    RunOne(env, s, Poll(r.batches));
    RunConcat(env, s, [Poll(r.batches)], [Flush(r.attempt)]);
    RunOne(env, polled, Flush(r.attempt));
    assert [Poll(r.batches), Flush(r.attempt)] == [Poll(r.batches)] + [Flush(r.attempt)];
  }

  /** The well-formed messages among positions from .. end-1 of a partition. */
  function GoodBetween(messages: seq<Message>, from: nat, end: nat): nat
    requires end <= |messages|
    decreases end
  {
    if end <= from then 0 else GoodBetween(messages, from, end - 1) + (if WellFormed(messages[end - 1]) then 1 else 0)
  }

  /** Where a batch of `n` messages ends. */
  function EndOf(messages: seq<Message>, from: nat, n: nat): nat {
    Min(Max(from, |messages|), from + n)
  }

  /** No position is past the end of its partition. */
  predicate Behind(log: seq<seq<Message>>, position: seq<nat>) {
    forall p :: 0 <= p < |position| && p < |log| ==> position[p] <= |log[p]|
  }

  /** The well-formed messages of one poll. */
  function GoodPolled(log: seq<seq<Message>>, position: seq<nat>, batches: seq<Batch>): nat
    requires Behind(log, position)
    decreases |batches|
  {
    if batches == [] then 0
    else
      var b := batches[0];
      if b.part >= |log| || b.part >= |position| then GoodPolled(log, position, batches[1..])
      else
        var from, messages := position[b.part], log[b.part];
        var end := EndOf(messages, from, |b.times|);
        GoodBetween(messages, from, end) + GoodPolled(log, position[b.part := end], batches[1..])
  }

  lemma {:induction false} TakeBatchCounts(env: Env, log: seq<seq<Message>>, w: Worker, part: nat, times: seq<int>)
    requires w.Up? && part < |log| && part < |w.position| && w.position[part] <= |log[part]|
    ensures var r, end := TakeBatch(env, log, w, part, times), EndOf(log[part], w.position[part], |times|);
            && r.position == w.position[part := end]
            && |r.buffer| == |w.buffer| + GoodBetween(log[part], w.position[part], end)
    decreases |times|
  {
    hide WellFormed, RowAt;
    if times != [] && w.position[part] < |log[part]| {
      var end := EndOf(log[part], w.position[part], |times|);
      GoodFromFront(log[part], w.position[part], end);
      TakeBatchCounts(env, log, TakeOne(env, log, w, part, times[0]), part, times[1..]);
    } else if times != [] {
      TakeBatchCounts(env, log, w, part, times[1..]);
    }
  }

  lemma {:induction false} GoodFromFront(messages: seq<Message>, from: nat, end: nat)
    requires from < end <= |messages|
    ensures GoodBetween(messages, from, end) ==
            (if WellFormed(messages[from]) then 1 else 0) + GoodBetween(messages, from + 1, end)
    decreases end
  {
    if from + 1 < end {
      GoodFromFront(messages, from, end - 1);
    }
  }

  lemma {:induction false} TakeBatchElsewhere(env: Env, log: seq<seq<Message>>, w: Worker, part: nat, times: seq<int>)
    requires w.Up? && (part >= |log| || part >= |w.position|)
    ensures TakeBatch(env, log, w, part, times) == w
    decreases |times|
  {
    if times != [] {
      TakeBatchElsewhere(env, log, w, part, times[1..]);
    }
  }

  lemma {:induction false} PollCounts(env: Env, log: seq<seq<Message>>, w: Worker, batches: seq<Batch>)
    requires w.Up? && Behind(log, w.position)
    ensures |TakeAll(env, log, w, batches).buffer| == |w.buffer| + GoodPolled(log, w.position, batches)
    decreases |batches|
  {
    hide TakeOne, GoodBetween;
    if batches != [] {
      var b := batches[0];
      if b.part < |log| && b.part < |w.position| {
        TakeBatchCounts(env, log, w, b.part, b.times);
      } else {
        TakeBatchElsewhere(env, log, w, b.part, b.times);
      }
      PollCounts(env, log, TakeBatch(env, log, w, b.part, b.times), batches[1..]);
    }
  }

  /** The state after a turn, as one or two protocol steps. */
  lemma {:induction false} TurnSteps(env: Env, s: State, lastFlushAt: int, r: Round)
    requires s.worker.Up? && !s.worker.failing && r.Round?
    ensures var polled := s.(worker := TakeAll(env, s.log, s.worker, r.batches));
            && polled.worker.Up? && Next(env, s, Poll(r.batches)) == polled
            && Run(env, s, RoundSteps(env, s, lastFlushAt, r)) ==
               if ShouldFlush(|polled.worker.buffer|, lastFlushAt, r.now) then Next(env, polled, Flush(r.attempt))
               else polled
  {
    hide TakeAll, FlushState, Run;
    RunOne(env, s, Poll(r.batches));
    RunConcat(env, s, [Poll(r.batches)], [Flush(r.attempt)]);
    RunOne(env, Next(env, s, Poll(r.batches)), Flush(r.attempt));
    assert [Poll(r.batches), Flush(r.attempt)] == [Poll(r.batches)] + [Flush(r.attempt)];
  }

  lemma {:induction false} PollKeepsGoing(env: Env, log: seq<seq<Message>>, w: Worker, batches: seq<Batch>)
    requires w.Up?
    ensures TakeAll(env, log, w, batches).failing == w.failing
  {
    TakeAllGrows(env, log, w, batches);
  }

  /** MAIN: a turn whose insert succeeds adds nothing while no flush is due, and otherwise exactly
      the rows that waited and the well-formed messages of its poll; so the insert stays within
      the documented 1000 rows if and only if that sum does. */
  lemma {:induction false} TurnInsertsExactly(env: Env, s: State, lastFlushAt: int, r: Round)
    requires s.worker.Up? && !s.worker.failing && Behind(s.log, s.worker.position)
    requires r.Round? && r.attempt.insert.Inserted?
    ensures var n := |s.worker.buffer| + GoodPolled(s.log, s.worker.position, r.batches);
            var due := n >= 1000 || (n > 0 && r.now - lastFlushAt >= 1_000_000);
            var inserted := |Run(env, s, RoundSteps(env, s, lastFlushAt, r)).table| - |s.table|;
            && inserted == (if due then n else 0)
            && (inserted <= 1000 <==> (due ==> n <= 1000))
  {
    TurnSteps(env, s, lastFlushAt, r);
    PollCounts(env, s.log, s.worker, r.batches);
    PollKeepsGoing(env, s.log, s.worker, r.batches);
    hide TakeAll, Run, GoodPolled;
  }

  /** The flush time moves to the end of a due flush that inserts and commits, and stays where no
      flush is due, the poll raises or the insert fails. */
  lemma {:induction false} FlushTimeMoves(env: Env, s: State, lastFlushAt: int, r: Round)
    requires s.worker.Up? && !s.worker.failing && Behind(s.log, s.worker.position)
    ensures r.GetManyRaises? ==> LastFlush(env, s, lastFlushAt, r) == lastFlushAt
    ensures r.Round? ==>
              var n := |s.worker.buffer| + GoodPolled(s.log, s.worker.position, r.batches);
              var due := n >= 1000 || (n > 0 && r.now - lastFlushAt >= 1_000_000);
              && (due && r.attempt.insert.Inserted? && r.attempt.commit.Committed? ==>
                    LastFlush(env, s, lastFlushAt, r) == r.doneAt)
              && (!due || r.attempt.insert.InsertFailed? ==> LastFlush(env, s, lastFlushAt, r) == lastFlushAt)
  {
    if r.Round? {
      TurnSteps(env, s, lastFlushAt, r);
      PollCounts(env, s.log, s.worker, r.batches);
      PollKeepsGoing(env, s.log, s.worker, r.batches);
      hide TakeAll, Run, GoodPolled;
    }
  }

  /** A legal poll asks for at most 1000 messages. */
  predicate Legal(r: Round) {
    r.Round? ==> Taken(r.batches) <= BATCH_MAX_ROWS
  }

  /** How many rows the first turn of the loop inserts and leaves behind. */
  lemma {:induction false} TurnBounds(env: Env, s: State, lastFlushAt: int, r: Round)
    requires s.worker.Up? && !s.worker.failing && |s.worker.buffer| < BATCH_MAX_ROWS && Legal(r)
    ensures var after := Run(env, s, RoundSteps(env, s, lastFlushAt, r));
            && after.worker.Up? && |after.worker.buffer| < 2 * BATCH_MAX_ROWS
            && (!after.worker.failing ==> |after.worker.buffer| < BATCH_MAX_ROWS)
            && |after.table| < |s.table| + 2 * BATCH_MAX_ROWS
  {
    if r.GetManyRaises? {
      RunOne(env, s, PollFails);
    } else {
      TurnSteps(env, s, lastFlushAt, r);
      TurnKeepsBufferShort(env, s, lastFlushAt, r);
      LandedFewer(TakeAll(env, s.log, s.worker, r.batches).buffer, r.attempt);
      hide TakeAll, Run, RoundSteps, Landed, Stamp;
    }
  }

  lemma {:induction false} LandedFewer(buffer: seq<Entry>, a: Attempt)
    ensures a.insert.InsertFailed? ==> |Landed(buffer, a.insert.landed)| <= |buffer|
  {
    if a.insert.InsertFailed? {
      LandedLength(buffer, a.insert.landed);
    }
  }

  lemma {:induction false} LandedLength(entries: seq<Entry>, landed: set<nat>)
    ensures |Landed(entries, landed)| <= |entries|
  {
    if entries != [] {
      LandedLength(entries[..|entries| - 1], landed);
    }
  }

  /** MAIN: over the whole loop of a worker that starts with a short buffer, and for every outcome
      of its polls and flushes: the loop reaches every top with fewer than 1000 rows, and neither
      a turn from there nor the final flush inserts 2000 rows. */
  lemma {:induction false} LoopKeepsBufferShort(env: Env, s: State, lastFlushAt: int, rounds: seq<Round>, i: nat,
                                                final: Attempt)
    requires s.worker.Up? && !s.worker.failing && |s.worker.buffer| < BATCH_MAX_ROWS
    requires i <= |rounds| && forall r :: r in rounds ==> Legal(r)
    ensures var top := LoopEnd(env, s, lastFlushAt, rounds[..i]);
            && top.worker.Up? && |top.worker.buffer| < 2 * BATCH_MAX_ROWS
            && (!top.worker.failing ==> |top.worker.buffer| < BATCH_MAX_ROWS)
            && |Next(env, top, Finish(final)).table| < |top.table| + 2 * BATCH_MAX_ROWS
            && (!top.worker.failing ==> forall last, r :: Legal(r) ==>
                  |Run(env, top, RoundSteps(env, top, last, r)).table| < |top.table| + 2 * BATCH_MAX_ROWS)
    decreases |rounds|
  {
    hide Run, RoundSteps, LastFlush, LoopEnd, FlushState, Legal;
    if i == 0 {
      LoopDone(env, s, lastFlushAt, rounds[..0]);
      FinishBound(env, s, final);
      TurnsBound(env, s);
    } else {
      var first := rounds[..i];
      var next, last := Run(env, s, RoundSteps(env, s, lastFlushAt, first[0])),
          LastFlush(env, s, lastFlushAt, first[0]);
      assert rounds[0] in rounds;
      TurnBounds(env, s, lastFlushAt, rounds[0]);
      LoopTurn(env, s, lastFlushAt, first);
      assert first[1..] == rounds[1..][..i - 1];
      if next.worker.failing {
        LoopDone(env, next, last, first[1..]);
        FinishBound(env, next, final);
      } else {
        LoopKeepsBufferShort(env, next, last, rounds[1..], i - 1, final);
      }
    }
  }

  lemma {:induction false} FinishBound(env: Env, s: State, final: Attempt)
    requires s.worker.Up? && |s.worker.buffer| < 2 * BATCH_MAX_ROWS
    ensures |Next(env, s, Finish(final)).table| < |s.table| + 2 * BATCH_MAX_ROWS
  {
    LandedFewer(s.worker.buffer, final);
    hide Landed, Stamp, CommitAt;
  }

  lemma {:induction false} TurnsBound(env: Env, s: State)
    requires s.worker.Up? && !s.worker.failing && |s.worker.buffer| < BATCH_MAX_ROWS
    ensures forall last, r :: Legal(r) ==>
              |Run(env, s, RoundSteps(env, s, last, r)).table| < |s.table| + 2 * BATCH_MAX_ROWS
  {
    hide Run, RoundSteps, Legal;
    forall last, r | Legal(r)
      ensures |Run(env, s, RoundSteps(env, s, last, r)).table| < |s.table| + 2 * BATCH_MAX_ROWS
    {
      TurnBounds(env, s, last, r);
    }
  }

  // An instance of a too large insert, from an empty pipeline.

  const CLEAN := Attempt(Inserted, Committed, 0)

  function Copies(m: Message, n: nat): (ms: seq<Message>)
    ensures |ms| == n && forall i :: 0 <= i < n ==> ms[i] == m
  {
    if n == 0 then [] else Copies(m, n - 1) + [m]
  }

  function Appends(p: nat, m: Message, n: nat): seq<Step> {
    if n == 0 then [] else Appends(p, m, n - 1) + [Append(p, m)]
  }

  lemma {:induction false} AppendMany(env: Env, s: State, p: nat, m: Message, n: nat)
    requires p < |s.log| && (WellFormed(m) ==> env.route(m.workspaceId.value) == p)
    ensures Run(env, s, Appends(p, m, n)) == s.(log := s.log[p := s.log[p] + Copies(m, n)])
  {
    hide WellFormed;
    if n == 0 {
      assert s.log[p] + Copies(m, 0) == s.log[p];
      assert s.log[p := s.log[p]] == s.log;
    } else {
      AppendMany(env, s, p, m, n - 1);
      RunConcat(env, s, Appends(p, m, n - 1), [Append(p, m)]);
      RunOne(env, Run(env, s, Appends(p, m, n - 1)), Append(p, m));
      hide Run;
      assert s.log[p] + Copies(m, n) == s.log[p] + Copies(m, n - 1) + [m];
    }
  }

  lemma {:induction false} AllGood(messages: seq<Message>, from: nat, end: nat)
    requires from <= end <= |messages| && forall o :: from <= o < end ==> WellFormed(messages[o])
    ensures GoodBetween(messages, from, end) == end - from
    decreases end
  {
    hide WellFormed;
    if from < end {
      AllGood(messages, from, end - 1);
    }
  }

  /** A poll of `n` messages from partition `p` that returns at time `at`. */
  function PollOf(p: nat, n: nat, at: int): Round {
    Round([Batch(p, seq(n, _ => at))], at, CLEAN, at)
  }

  /** One turn that reads `n` copies of a well-formed message. */
  lemma {:induction false} TurnOverCopies(env: Env, s: State, p: nat, n: nat)
    requires s.worker.Up? && !s.worker.failing && Behind(s.log, s.worker.position)
    requires p < |s.log| && p < |s.worker.position| && s.worker.position[p] + n <= |s.log[p]|
    requires forall o :: 0 <= o < |s.log[p]| ==> WellFormed(s.log[p][o])
    ensures var r := Run(env, s, RoundSteps(env, s, 0, PollOf(p, n, 0)));
            var rows := |s.worker.buffer| + n;
            && r.log == s.log && r.worker.Up? && !r.worker.failing
            && r.worker.position == s.worker.position[p := s.worker.position[p] + n]
            && |r.table| == |s.table| + (if rows >= BATCH_MAX_ROWS then rows else 0)
            && |r.worker.buffer| == (if rows >= BATCH_MAX_ROWS then 0 else rows)
  {
    hide WellFormed, TakeOne, Run;
    var batches := PollOf(p, n, 0).batches;
    assert batches[1..] == [];
    TurnSteps(env, s, 0, PollOf(p, n, 0));
    PollCounts(env, s.log, s.worker, batches);
    PollKeepsGoing(env, s.log, s.worker, batches);
    TakeBatchCounts(env, s.log, s.worker, p, batches[0].times);
    AllGood(s.log[p], s.worker.position[p], s.worker.position[p] + n);
    assert TakeAll(env, s.log, s.worker, batches) == TakeBatch(env, s.log, s.worker, p, batches[0].times);
    hide TakeAll, TakeBatch;
  }

  /** A fresh pipeline with 1999 copies of one well-formed message reads 999 of them in its first
      turn and 1000 in its second, and inserts all 1999 at once. */
  lemma {:induction false} InsertOf1999(env: Env, m: Message)
    requires WellFormed(m)
    ensures var p := env.route(m.workspaceId.value);
            var s := Run(env, Init(p + 1), Appends(p, m, 1999) + [Start]);
            var one := Run(env, s, RoundSteps(env, s, 0, PollOf(p, 999, 0)));
            var two := Run(env, one, RoundSteps(env, one, 0, PollOf(p, 1000, 0)));
            Reachable(env, s) && |one.table| == 0 && |two.table| == 1999
  {
    var p := env.route(m.workspaceId.value);
    hide WellFormed;
    var full := Init(p + 1).(log := Init(p + 1).log[p := Copies(m, 1999)]);
    AppendMany(env, Init(p + 1), p, m, 1999);
    assert [] + Copies(m, 1999) == Copies(m, 1999);
    RunConcat(env, Init(p + 1), Appends(p, m, 1999), [Start]);
    RunOne(env, full, Start);
    hide Run, RoundSteps, PollOf;
    var s := Run(env, Init(p + 1), Appends(p, m, 1999) + [Start]);
    assert s == Next(env, full, Start);
    TurnOverCopies(env, s, p, 999);
    var one := Run(env, s, RoundSteps(env, s, 0, PollOf(p, 999, 0)));
    TurnOverCopies(env, one, p, 1000);
  }

  // ---------------------------------------------------------------- when the loop goes on

  /** MAIN: the loop goes on after a turn if and only if the poll did not raise and the flush, if
      one was due, neither failed to insert nor, with offsets pending, to commit. */
  lemma {:induction false} LoopGoesOnIff(env: Env, s: State, lastFlushAt: int, r: Round)
    requires s.worker.Up? && !s.worker.failing
    ensures var after := Run(env, s, RoundSteps(env, s, lastFlushAt, r));
            && after.worker.Up?
            && (!after.worker.failing <==>
                  && r.Round?
                  && var w := TakeAll(env, s.log, s.worker, r.batches);
                     ShouldFlush(|w.buffer|, lastFlushAt, r.now) ==>
                       r.attempt.insert.Inserted? && (w.pending == map[] || r.attempt.commit.Committed?))
  {
    match r
    case GetManyRaises => RunOne(env, s, PollFails);
    case Round(batches, now, attempt, doneAt) =>
      TurnSteps(env, s, lastFlushAt, r);
      PollKeepsGoing(env, s.log, s.worker, batches);
      hide TakeAll, Run, RoundSteps;
  }

  /** MAIN: after a failed insert there is no next turn: whatever rounds could follow, the only
      retry is the flush of the `finally` block. */
  lemma {:induction false} FailedInsertIsRetriedOnce(env: Env, s: State, lastFlushAt: int, r: Round, rest: seq<Round>,
                                                     final: Attempt)
    requires s.worker.Up? && !s.worker.failing && r.Round? && r.attempt.insert.InsertFailed?
    requires ShouldFlush(|TakeAll(env, s.log, s.worker, r.batches).buffer|, lastFlushAt, r.now)
    ensures LoopSteps(env, s, lastFlushAt, [r] + rest) + [Finish(final)] ==
            [Poll(r.batches), Flush(r.attempt), Finish(final)]
  {
    LoopGoesOnIff(env, s, lastFlushAt, r);
    TurnSteps(env, s, lastFlushAt, r);
    hide Run, TakeAll, Next;
    assert ([r] + rest)[1..] == rest;
    var steps := RoundSteps(env, s, lastFlushAt, r);
    assert steps == [Poll(r.batches), Flush(r.attempt)];
    assert LoopSteps(env, s, lastFlushAt, [r] + rest) == steps + [];
  }

  /** MAIN: what a flush that raises leaves for the final one: after a failed insert it writes every
      buffered row, those that had landed once more; after a failed commit it writes and commits
      nothing. */
  lemma {:induction false} FinalFlush(env: Env, s: State, a: Attempt, final: Attempt)
    requires s.worker.Up? && !s.worker.failing && s.worker.buffer != [] && s.worker.pending != map[]
    requires a.insert.InsertFailed? || a.commit.CommitFailed?
    ensures var failed := Next(env, s, Flush(a));
            var end := Next(env, failed, Finish(final));
            && end.worker.Down? && |s.table| <= |failed.table| <= |s.table| + |s.worker.buffer|
            && (a.insert.Inserted? ==>
                  && |failed.table| == |s.table| + |s.worker.buffer|
                  && end.table == failed.table && end.committed == failed.committed)
            && (a.insert.InsertFailed? ==>
                  && failed.committed == s.committed
                  && (final.insert.Inserted? ==>
                        && |end.table| == |failed.table| + |s.worker.buffer|
                        && forall i :: 0 <= i < |s.worker.buffer| ==>
                             end.table[|failed.table| + i].entry == s.worker.buffer[i]))
  {
    LandedFewer(s.worker.buffer, a);
    hide Landed, CommitAt;
  }

  // ---------------------------------------------------------------- catching up

  predicate Clean(r: Round) {
    r.Round? && r.attempt == CLEAN
  }

  /** A turn without failures keeps the worker running and only moves it along the log. */
  lemma {:induction false} CleanTurn(env: Env, s: State, lastFlushAt: int, r: Round)
    requires Inv(env, s) && s.worker.Up? && !s.worker.failing && Clean(r)
    ensures var after := Run(env, s, RoundSteps(env, s, lastFlushAt, r));
            && Inv(env, after) && after.log == s.log && after.worker.Up? && !after.worker.failing
            && after.worker.position == TakeAll(env, s.log, s.worker, r.batches).position
            && LastFlush(env, s, lastFlushAt, r) in {lastFlushAt, r.doneAt}
  {
    RunInv(env, s, RoundSteps(env, s, lastFlushAt, r));
    LoopGoesOnIff(env, s, lastFlushAt, r);
    TurnSteps(env, s, lastFlushAt, r);
    hide Inv, TakeAll, Run, RoundSteps;
  }

  /** MAIN: once everything is read, the first clean turn a second after the last flush leaves
      nothing uncommitted, whatever the buffer holds. */
  lemma {:induction false} IdleTurnDrains(env: Env, s: State, lastFlushAt: int, r: Round)
    requires Inv(env, s) && s.worker.Up? && !s.worker.failing
    requires forall p :: 0 <= p < |s.log| ==> s.worker.position[p] == |s.log[p]|
    requires Clean(r) && r.batches == [] && r.now - lastFlushAt >= BATCH_MAX_INTERVAL
    ensures var after := Run(env, s, RoundSteps(env, s, lastFlushAt, r));
            && Inv(env, after) && after.log == s.log && |after.committed| == |after.log| && Drained(after)
            && after.worker.Up? && !after.worker.failing
  {
    NothingToDo(env, s);
    hide Inv, Drained, Run, RoundSteps, FlushState, TakeAll, Next;
    CleanTurn(env, s, lastFlushAt, r);
    TurnSteps(env, s, lastFlushAt, r);
    CleanFlushDrains(env, s);
  }

  lemma NothingToDo(env: Env, s: State)
    requires s.worker.Up? && !s.worker.failing
    ensures TakeAll(env, s.log, s.worker, []) == s.worker && s.(worker := s.worker) == s
    ensures Next(env, s, Flush(CLEAN)) == FlushState(s, CLEAN)
    ensures s.worker.buffer == [] ==> FlushState(s, CLEAN) == s
  {
  }

  /** The loop's clock never runs back: every turn polls after the last one ended and flushes
      after its poll. */
  predicate Timely(last: int, rounds: seq<Round>)
    decreases |rounds|
  {
    rounds == [] || (rounds[0].Round? && last <= rounds[0].now <= rounds[0].doneAt
                     && Timely(rounds[0].doneAt, rounds[1..]))
  }

  /** Polls of at most 1000 messages at time `at` that read every partition from `p` on to its end,
      and then an idle turn a second later. */
  function CatchUp(log: seq<seq<Message>>, position: seq<nat>, p: nat, at: int): seq<Round>
    requires |position| == |log| && Behind(log, position)
    decreases |log| - p, if p < |log| then |log[p]| - position[p] else 0
  {
    if p >= |log| then [Round([], at + BATCH_MAX_INTERVAL, CLEAN, at + BATCH_MAX_INTERVAL)]
    else if position[p] == |log[p]| then CatchUp(log, position, p + 1, at)
    else
      var n := Min(BATCH_MAX_ROWS, |log[p]| - position[p]);
      [PollOf(p, n, at)] + CatchUp(log, position[p := position[p] + n], p, at)
  }

  lemma {:induction false} CatchUpIsLegal(log: seq<seq<Message>>, position: seq<nat>, p: nat, at: int, last: int)
    requires |position| == |log| && Behind(log, position) && last <= at
    ensures Timely(last, CatchUp(log, position, p, at))
    ensures forall r :: r in CatchUp(log, position, p, at) ==> Clean(r) && Taken(r.batches) <= BATCH_MAX_ROWS
    decreases |log| - p, if p < |log| then |log[p]| - position[p] else 0
  {
    if p < |log| && position[p] == |log[p]| {
      CatchUpIsLegal(log, position, p + 1, at, last);
    } else if p < |log| {
      var n := Min(BATCH_MAX_ROWS, |log[p]| - position[p]);
      var rest := CatchUp(log, position[p := position[p] + n], p, at);
      CatchUpIsLegal(log, position[p := position[p] + n], p, at, at);
      assert PollOf(p, n, at).batches[1..] == [];
      assert ([PollOf(p, n, at)] + rest)[1..] == rest;
    }
  }

  /** The worker follows these rounds to the end of the log. */
  lemma {:induction false} CatchUpDrains(env: Env, s: State, lastFlushAt: int, p: nat, at: int)
    requires Inv(env, s) && s.worker.Up? && !s.worker.failing
    requires |s.worker.position| == |s.log| && Behind(s.log, s.worker.position)
    requires forall q :: 0 <= q < p && q < |s.log| ==> s.worker.position[q] == |s.log[q]|
    requires lastFlushAt <= at
    ensures var after := LoopEnd(env, s, lastFlushAt, CatchUp(s.log, s.worker.position, p, at));
            && Inv(env, after) && after.log == s.log && |after.committed| == |after.log| && Drained(after)
            && after.worker.Up? && !after.worker.failing
    decreases |s.log| - p, if p < |s.log| then |s.log[p]| - s.worker.position[p] else 0
  {
    hide Inv, Drained, Run, RoundSteps, LastFlush, LoopEnd;
    var rounds := CatchUp(s.log, s.worker.position, p, at);
    if p >= |s.log| {
      IdleTurnDrains(env, s, lastFlushAt, rounds[0]);
      LoopTurn(env, s, lastFlushAt, rounds);
      LoopDone(env, Run(env, s, RoundSteps(env, s, lastFlushAt, rounds[0])),
               LastFlush(env, s, lastFlushAt, rounds[0]), []);
      assert rounds[1..] == [];
    } else if s.worker.position[p] == |s.log[p]| {
      CatchUpDrains(env, s, lastFlushAt, p + 1, at);
    } else {
      var n := Min(BATCH_MAX_ROWS, |s.log[p]| - s.worker.position[p]);
      CleanTurn(env, s, lastFlushAt, rounds[0]);
      PollReads(env, s.log, s.worker, p, n, at);
      LoopTurn(env, s, lastFlushAt, rounds);
      assert rounds[1..] == CatchUp(s.log, s.worker.position[p := s.worker.position[p] + n], p, at);
      CatchUpDrains(env, Run(env, s, RoundSteps(env, s, lastFlushAt, rounds[0])),
                    LastFlush(env, s, lastFlushAt, rounds[0]), p, at);
    }
  }

  lemma {:induction false} PollReads(env: Env, log: seq<seq<Message>>, w: Worker, p: nat, n: nat, at: int)
    requires w.Up? && p < |log| == |w.position| && w.position[p] + n <= |log[p]|
    ensures TakeAll(env, log, w, PollOf(p, n, at).batches).position == w.position[p := w.position[p] + n]
  {
    hide TakeOne;
    var batches := PollOf(p, n, at).batches;
    assert batches[1..] == [];
    TakeBatchMoves(env, log, w, p, batches[0].times);
    assert TakeAll(env, log, w, batches) == TakeBatch(env, log, w, p, batches[0].times);
  }

  /** MAIN: from every reachable state a worker restarted at any time commits and stores everything
      the log holds in turns the loop can really make: polls of at most 1000 messages, flushes
      only when they are due, a clock that never runs back, and one idle turn a second later. */
  lemma {:induction false} RestartDrains(env: Env, s: State, startedAt: int, at: int)
    requires Inv(env, s) && startedAt <= at
    ensures var up := Run(env, s, [Crash, Start]);
            && up.worker.Up? && !up.worker.failing && up.log == s.log
            && |up.worker.position| == |up.log| && Behind(up.log, up.worker.position)
            && var rounds := CatchUp(up.log, up.worker.position, 0, at);
               var after := LoopEnd(env, up, startedAt, rounds);
               && Timely(startedAt, rounds)
               && (forall r :: r in rounds ==> Clean(r) && Taken(r.batches) <= BATCH_MAX_ROWS)
               && after.log == s.log && |after.committed| == |after.log| && Drained(after) && Inv(env, after)
  {
    var down := Next(env, s, Crash);
    var up := Next(env, down, Start);
    RunFromTo(env, s, [Crash, Start], [s, down, up]);
    StepInv(env, s, Crash);
    StepInv(env, down, Start);
    hide Run, LoopEnd, Drained, Routed, TableOk, NoLoss, UpToDate, Exact;
    CatchUpIsLegal(up.log, up.worker.position, 0, at, startedAt);
    CatchUpDrains(env, up, startedAt, 0, at);
  }
}

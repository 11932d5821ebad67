/** The browser/Node SDK: a queue with waiters, a flush timer, batches in flight and a retry
    loop, interleaved in every way a single-threaded event loop allows (sdk/src/client.ts). */
module SdkClient {
  import opened Prelude

  type Event = string

  /** How a batch ended: the promise of `send` resolved, or rejected and the waiters were
      rejected, or rejected and the caller's own `onError` threw before they were. */
  datatype Result = Acked(ack: int) | Rejected | HandlerThrew

  /** A `Pending` batch; `result` is missing while it is in flight. */
  datatype Batch = Batch(events: seq<Event>, waiters: seq<nat>, result: Option<Result>)

  /** A waiter resolved or rejected, with the batch it was flushed in. */
  datatype Settlement = Settlement(waiter: nat, result: Result, batch: nat)

  /** `queue`, `waiters` and `flushTimer` are the client's fields; `armed` are the timers the
      runtime will still fire. `tracked`, `batches` and `settled` record what happened. Waiter
      number w was handed out by the w-th call of `track`. */
  datatype Client = Client(
    queue: seq<Event>, waiters: seq<nat>, flushTimer: Option<nat>, armed: set<nat>, timers: nat,
    tracked: seq<Event>, batches: seq<Batch>, settled: seq<Settlement>)

  /** One turn of the event loop; `cancels` tells whether clearTimeout has any effect. */
  datatype Turn =
    | Track(event: Event, cancels: bool)
    | TimerFires(timer: nat, cancels: bool)
    | FlushCall(cancels: bool)
    | CloseCall(cancels: bool)
    | Complete(batch: nat, result: Result)

  // ---------------------------------------------------------------- transitions

  function CancelTimer(c: Client, cancels: bool): Client {
    c.(flushTimer := None,
       armed := if c.flushTimer.Some? && cancels then c.armed - {c.flushTimer.value} else c.armed)
  }

  function Flushed(c: Client, cancels: bool): Client {
    if c.queue == [] then c
    else CancelTimer(c, cancels).(queue := [], waiters := [], batches := c.batches + [Batch(c.queue, c.waiters, None)])
  }

  function Scheduled(c: Client): Client {
    if c.flushTimer.Some? then c
    else c.(flushTimer := Some(c.timers), armed := c.armed + {c.timers}, timers := c.timers + 1)
  }

  function Settlements(b: Batch, at: nat, result: Result): (s: seq<Settlement>)
    ensures |s| == |b.waiters|
    ensures forall k :: 0 <= k < |s| ==> s[k] == Settlement(b.waiters[k], result, at)
  {
    seq(|b.waiters|, k requires 0 <= k < |b.waiters| => Settlement(b.waiters[k], result, at))
  }

  function Next(batchSize: int, c: Client, t: Turn): Client {
    match t
    case Track(event, cancels) =>
      var pushed := c.(queue := c.queue + [event], waiters := c.waiters + [|c.tracked|],
                       tracked := c.tracked + [event]);
      if |pushed.queue| >= batchSize then Flushed(pushed, cancels) else Scheduled(pushed)
    case TimerFires(timer, cancels) =>
      if timer in c.armed then Flushed(c.(armed := c.armed - {timer}, flushTimer := None), cancels) else c
    case FlushCall(cancels) => Flushed(c, cancels)
    case CloseCall(cancels) => Flushed(CancelTimer(c, cancels), cancels)
    case Complete(i, result) =>
      if i < |c.batches| && c.batches[i].result.None? then
        c.(batches := c.batches[i := c.batches[i].(result := Some(result))],
           settled := c.settled + (if result.HandlerThrew? then [] else Settlements(c.batches[i], i, result)))
      else c
  }

  function Run(batchSize: int, c: Client, turns: seq<Turn>): Client
    decreases |turns|
  {
    if turns == [] then c else Run(batchSize, Next(batchSize, c, turns[0]), turns[1..])
  }

  const INIT := Client([], [], None, {}, 0, [], [], [])

  // ---------------------------------------------------------------- invariant

  /** How many events the first `n` batches hold. */
  function Offset(batches: seq<Batch>, n: nat): nat
    requires n <= |batches|
  {
    if n == 0 then 0 else Offset(batches, n - 1) + |batches[n - 1].events|
  }

  /** The events stand at tracked[at..] in order, each with the waiter handed out for it. */
  predicate Aligned(tracked: seq<Event>, events: seq<Event>, waiters: seq<nat>, at: nat) {
    && |events| == |waiters| && at + |events| <= |tracked|
    && forall a :: 0 <= a < |events| ==> events[a] == tracked[at + a] && waiters[a] == at + a
  }

  predicate BatchesAligned(c: Client, batchSize: int) {
    forall i :: 0 <= i < |c.batches| ==>
      && 1 <= |c.batches[i].events| <= Max(1, batchSize)
      && Aligned(c.tracked, c.batches[i].events, c.batches[i].waiters, Offset(c.batches, i))
  }

  predicate QueueAligned(c: Client, batchSize: int) {
    && Aligned(c.tracked, c.queue, c.waiters, Offset(c.batches, |c.batches|))
    && |c.tracked| == Offset(c.batches, |c.batches|) + |c.queue|
    && |c.queue| < Max(1, batchSize)
  }

  /** A waiting event always has a timer that will fire; an idle client has none. */
  predicate TimerLive(c: Client) {
    && (c.queue != [] <==> c.flushTimer.Some?)
    && (c.flushTimer.Some? ==> c.flushTimer.value in c.armed)
    && (forall t :: t in c.armed ==> t < c.timers)
  }

  /** Every settlement belongs to a waiter of its batch and reports that batch's result. */
  predicate SettledByBatch(batches: seq<Batch>, settled: seq<Settlement>) {
    forall k :: 0 <= k < |settled| ==>
      var s := settled[k];
      && s.batch < |batches| && batches[s.batch].result == Some(s.result)
      && Offset(batches, s.batch) <= s.waiter < Offset(batches, s.batch) + |batches[s.batch].events|
  }

  predicate SettledOnce(settled: seq<Settlement>) {
    forall k, l :: 0 <= k < l < |settled| ==> settled[k].waiter != settled[l].waiter
  }

  /** Whoever waits on a batch that ended with an answer has got that answer. */
  predicate AllSettled(batches: seq<Batch>, settled: seq<Settlement>) {
    forall i, a ::
      (0 <= i < |batches| && 0 <= a < |batches[i].waiters| &&
       batches[i].result.Some? && !batches[i].result.value.HandlerThrew?) ==>
        Settlement(batches[i].waiters[a], batches[i].result.value, i) in settled
  }

  predicate Inv(batchSize: int, c: Client) {
    && BatchesAligned(c, batchSize) && QueueAligned(c, batchSize) && TimerLive(c)
    && SettledByBatch(c.batches, c.settled) && SettledOnce(c.settled) && AllSettled(c.batches, c.settled)
  }

  // ---------------------------------------------------------------- preservation

  lemma {:induction false} OffsetOfPrefix(a: seq<Batch>, b: seq<Batch>, n: nat)
    requires n <= |a| && n <= |b|
    requires forall i :: 0 <= i < n ==> |a[i].events| == |b[i].events|
    ensures Offset(a, n) == Offset(b, n)
  {
    if n > 0 {
      OffsetOfPrefix(a, b, n - 1);
    }
  }

  lemma {:induction false} OffsetMonotone(batches: seq<Batch>, i: nat, j: nat)
    requires i < j <= |batches|
    ensures Offset(batches, i) + |batches[i].events| <= Offset(batches, j)
  {
    if i + 1 < j {
      OffsetMonotone(batches, i, j - 1);
    }
  }

  /** A queue in order becomes one more batch in order. */
  lemma {:induction false} OneMoreBatch(batchSize: int, c: Client, r: Client)
    requires BatchesAligned(c, batchSize) && c.queue != []
    requires Aligned(c.tracked, c.queue, c.waiters, Offset(c.batches, |c.batches|)) && |c.queue| <= Max(1, batchSize)
    requires r.batches == c.batches + [Batch(c.queue, c.waiters, None)] && r.tracked == c.tracked
    ensures BatchesAligned(r, batchSize)
    ensures Offset(r.batches, |r.batches|) == Offset(c.batches, |c.batches|) + |c.queue|
  {
    hide Aligned, Offset;
    var n := |c.batches|;
    OffsetOfPrefix(r.batches, c.batches, n);
    OffsetNext(r.batches, n);
    forall i | 0 <= i < |r.batches|
      ensures 1 <= |r.batches[i].events| <= Max(1, batchSize)
      ensures Aligned(r.tracked, r.batches[i].events, r.batches[i].waiters, Offset(r.batches, i))
    {
      if i < n {
        OffsetOfPrefix(r.batches, c.batches, i);
        assert r.batches[i] == c.batches[i];
      }
    }
  }

  lemma OffsetNext(batches: seq<Batch>, n: nat)
    requires n < |batches|
    ensures Offset(batches, n + 1) == Offset(batches, n) + |batches[n].events|
  {
  }

  /** Settlements do not notice a batch that has just left. */
  lemma {:induction false} SettledAfterFlush(c: Client, r: Client)
    requires SettledByBatch(c.batches, c.settled) && AllSettled(c.batches, c.settled)
    requires r.batches == c.batches + [Batch(c.queue, c.waiters, None)] && r.settled == c.settled
    ensures SettledByBatch(r.batches, r.settled) && AllSettled(r.batches, r.settled)
  {
    hide Offset;
    forall k | 0 <= k < |r.settled|
      ensures var s := r.settled[k];
              && s.batch < |r.batches| && r.batches[s.batch].result == Some(s.result)
              && Offset(r.batches, s.batch) <= s.waiter < Offset(r.batches, s.batch) + |r.batches[s.batch].events|
    {
      var s := c.settled[k];
      OffsetOfPrefix(r.batches, c.batches, s.batch);
      assert r.batches[s.batch] == c.batches[s.batch];
    }
    forall i, a | 0 <= i < |r.batches| && 0 <= a < |r.batches[i].waiters| &&
      r.batches[i].result.Some? && !r.batches[i].result.value.HandlerThrew?
      ensures Settlement(r.batches[i].waiters[a], r.batches[i].result.value, i) in r.settled
    {
      assert r.batches[i] == c.batches[i];
    }
  }

  /** Flushing a queue of the right size keeps the batches aligned with what was tracked. */
  lemma {:induction false} FlushedInv(batchSize: int, c: Client, cancels: bool)
    requires BatchesAligned(c, batchSize)
    requires SettledByBatch(c.batches, c.settled) && SettledOnce(c.settled) && AllSettled(c.batches, c.settled)
    requires Aligned(c.tracked, c.queue, c.waiters, Offset(c.batches, |c.batches|))
    requires |c.tracked| == Offset(c.batches, |c.batches|) + |c.queue| && |c.queue| <= Max(1, batchSize)
    requires forall t :: t in c.armed ==> t < c.timers
    requires c.queue == [] ==> c.flushTimer.None?
    ensures Inv(batchSize, Flushed(c, cancels))
  {
    hide Offset, BatchesAligned, SettledByBatch, AllSettled;
    if c.queue != [] {
      var r := Flushed(c, cancels);
      OneMoreBatch(batchSize, c, r);
      SettledAfterFlush(c, r);
    }
  }

  lemma AlignedPush(tracked: seq<Event>, events: seq<Event>, waiters: seq<nat>, at: nat, event: Event)
    requires Aligned(tracked, events, waiters, at) && |tracked| == at + |events|
    ensures Aligned(tracked + [event], events + [event], waiters + [|tracked|], at)
  {
  }

  lemma AlignedGrows(tracked: seq<Event>, events: seq<Event>, waiters: seq<nat>, at: nat, event: Event)
    requires Aligned(tracked, events, waiters, at)
    ensures Aligned(tracked + [event], events, waiters, at)
  {
  }

  lemma {:induction false} TrackInv(batchSize: int, c: Client, event: Event, cancels: bool)
    requires Inv(batchSize, c)
    ensures Inv(batchSize, Next(batchSize, c, Track(event, cancels)))
  {
    hide Offset, Aligned, SettledByBatch, SettledOnce, AllSettled;
    var pushed := c.(queue := c.queue + [event], waiters := c.waiters + [|c.tracked|], tracked := c.tracked + [event]);
    forall i | 0 <= i < |c.batches|
      ensures Aligned(pushed.tracked, c.batches[i].events, c.batches[i].waiters, Offset(c.batches, i))
    {
      AlignedGrows(c.tracked, c.batches[i].events, c.batches[i].waiters, Offset(c.batches, i), event);
    }
    AlignedPush(c.tracked, c.queue, c.waiters, Offset(c.batches, |c.batches|), event);
    assert BatchesAligned(pushed, batchSize);
    hide BatchesAligned;
    if |pushed.queue| >= batchSize {
      FlushedInv(batchSize, pushed, cancels);
    }
  }

  /** An answer changes neither sizes nor offsets. */
  lemma {:induction false} CompleteKeepsOffset(c: Client, r: Client, i: nat, result: Result, n: nat)
    requires i < |c.batches| && r.batches == c.batches[i := c.batches[i].(result := Some(result))] && n <= |c.batches|
    ensures Offset(r.batches, n) == Offset(c.batches, n)
  {
    hide Offset;
    OffsetOfPrefix(r.batches, c.batches, n);
  }

  lemma {:induction false} CompleteInv(batchSize: int, c: Client, i: nat, result: Result)
    requires Inv(batchSize, c) && i < |c.batches| && c.batches[i].result.None?
    ensures Inv(batchSize, Next(batchSize, c, Complete(i, result)))
  {
    hide Offset, SettledByBatch, SettledOnce, AllSettled;
    var r := Next(batchSize, c, Complete(i, result));
    forall n | 0 <= n <= |c.batches|
      ensures Offset(r.batches, n) == Offset(c.batches, n)
    {
      CompleteKeepsOffset(c, r, i, result, n);
    }
    CompleteSettledByBatch(c, r, i, result);
    CompleteSettledOnce(c, r, i, result);
    CompleteAllSettled(c, r, i, result);
  }

  /** `r` is `c` after batch `i` got its result. */
  predicate Completed(c: Client, r: Client, i: nat, result: Result) {
    && i < |c.batches| && c.batches[i].result.None? && |c.batches[i].events| == |c.batches[i].waiters|
    && (forall a :: 0 <= a < |c.batches[i].waiters| ==> c.batches[i].waiters[a] == Offset(c.batches, i) + a)
    && r.batches == c.batches[i := c.batches[i].(result := Some(result))]
    && r.settled == c.settled + (if result.HandlerThrew? then [] else Settlements(c.batches[i], i, result))
  }

  lemma {:induction false} CompleteSettledByBatch(c: Client, r: Client, i: nat, result: Result)
    requires SettledByBatch(c.batches, c.settled) && Completed(c, r, i, result)
    ensures SettledByBatch(r.batches, r.settled)
  {
    hide Offset;
    forall k | 0 <= k < |r.settled|
      ensures var s := r.settled[k];
              && s.batch < |r.batches| && r.batches[s.batch].result == Some(s.result)
              && Offset(r.batches, s.batch) <= s.waiter < Offset(r.batches, s.batch) + |r.batches[s.batch].events|
    {
      var s := r.settled[k];
      if k < |c.settled| {
        assert s == c.settled[k] && r.batches[s.batch] == c.batches[s.batch];
      } else {
        assert s == Settlements(c.batches[i], i, result)[k - |c.settled|];
      }
      CompleteKeepsOffset(c, r, i, result, s.batch);
    }
  }

  lemma {:induction false} CompleteSettledOnce(c: Client, r: Client, i: nat, result: Result)
    requires SettledByBatch(c.batches, c.settled) && SettledOnce(c.settled) && Completed(c, r, i, result)
    ensures SettledOnce(r.settled)
  {
    hide Offset;
    forall k, l | 0 <= k < l < |r.settled|
      ensures r.settled[k].waiter != r.settled[l].waiter
    {
      if k < |c.settled| <= l {
        var s := c.settled[k];
        assert r.settled[k] == s && s.batch != i;
        assert r.settled[l] == Settlements(c.batches[i], i, result)[l - |c.settled|];
        if s.batch < i {
          OffsetMonotone(c.batches, s.batch, i);
        } else {
          OffsetMonotone(c.batches, i, s.batch);
        }
      } else if l < |c.settled| {
        assert r.settled[k] == c.settled[k] && r.settled[l] == c.settled[l];
      }
    }
  }

  lemma {:induction false} CompleteAllSettled(c: Client, r: Client, i: nat, result: Result)
    requires AllSettled(c.batches, c.settled) && Completed(c, r, i, result)
    ensures AllSettled(r.batches, r.settled)
  {
    hide Offset;
    forall j, a | 0 <= j < |r.batches| && 0 <= a < |r.batches[j].waiters| &&
      r.batches[j].result.Some? && !r.batches[j].result.value.HandlerThrew?
      ensures Settlement(r.batches[j].waiters[a], r.batches[j].result.value, j) in r.settled
    {
      if j == i {
        assert r.settled[|c.settled| + a] == Settlements(c.batches[i], i, result)[a];
      } else {
        assert r.batches[j] == c.batches[j];
        assert Settlement(c.batches[j].waiters[a], c.batches[j].result.value, j) in c.settled;
      }
    }
  }

  lemma {:induction false} TurnInv(batchSize: int, c: Client, t: Turn)
    requires Inv(batchSize, c)
    ensures Inv(batchSize, Next(batchSize, c, t))
  {
    match t
    case Track(event, cancels) => TrackInv(batchSize, c, event, cancels);
    case TimerFires(timer, cancels) =>
      if timer in c.armed {
        FlushedInv(batchSize, c.(armed := c.armed - {timer}, flushTimer := None), cancels);
      }
    case FlushCall(cancels) => FlushedInv(batchSize, c, cancels);
    case CloseCall(cancels) => FlushedInv(batchSize, CancelTimer(c, cancels), cancels);
    case Complete(i, result) =>
      if i < |c.batches| && c.batches[i].result.None? {
        CompleteInv(batchSize, c, i, result);
      }
  }

  lemma {:induction false} InitInv(batchSize: int)
    ensures Inv(batchSize, INIT)
  {
  }

  /** MAIN: the invariant holds after every interleaving of calls, timers and answers, even if
      cancelling a timer never has an effect. */
  lemma {:induction false} RunInv(batchSize: int, c: Client, turns: seq<Turn>)
    requires Inv(batchSize, c)
    ensures Inv(batchSize, Run(batchSize, c, turns))
    decreases |turns|
  {
    hide Inv, Next;
    if turns != [] {
      TurnInv(batchSize, c, turns[0]);
      RunInv(batchSize, Next(batchSize, c, turns[0]), turns[1..]);
    }
  }

  // ---------------------------------------------------------------- what the invariant means

  function Flatten(batches: seq<Batch>): seq<Event> {
    if batches == [] then [] else Flatten(batches[..|batches| - 1]) + batches[|batches| - 1].events
  }

  lemma FlattenNext(batches: seq<Batch>, n: nat)
    requires 0 < n <= |batches|
    ensures Flatten(batches[..n]) == Flatten(batches[..n - 1]) + batches[n - 1].events
  {
    assert batches[..n][..n - 1] == batches[..n - 1];
  }

  lemma {:induction false} FlattenIsPrefix(batchSize: int, c: Client, n: nat)
    requires BatchesAligned(c, batchSize) && n <= |c.batches|
    ensures Offset(c.batches, n) <= |c.tracked| && Flatten(c.batches[..n]) == c.tracked[..Offset(c.batches, n)]
  {
    if n > 0 {
      FlattenIsPrefix(batchSize, c, n - 1);
      hide Offset, BatchesAligned, Aligned, Flatten;
      FlattenNext(c.batches, n);
      OffsetNext(c.batches, n - 1);
      BatchAligned(batchSize, c, n - 1);
      AlignedExtends(c.tracked, c.batches[n - 1].events, c.batches[n - 1].waiters, Offset(c.batches, n - 1));
    }
  }

  lemma AlignedExtends(tracked: seq<Event>, events: seq<Event>, waiters: seq<nat>, at: nat)
    requires Aligned(tracked, events, waiters, at)
    ensures at + |events| <= |tracked| && tracked[..at + |events|] == tracked[..at] + events
  {
  }

  lemma BatchAligned(batchSize: int, c: Client, i: nat)
    requires BatchesAligned(c, batchSize) && i < |c.batches|
    ensures Aligned(c.tracked, c.batches[i].events, c.batches[i].waiters, Offset(c.batches, i))
  {
  }

  /** MAIN: in every reachable state the batches in flush order followed by the queue are the
      tracked events; batches are small; nothing that waits is without a live timer. */
  lemma {:induction false} NothingLostOrReordered(batchSize: int, turns: seq<Turn>)
    ensures var c := Run(batchSize, INIT, turns);
            && Flatten(c.batches) + c.queue == c.tracked
            && |c.queue| == |c.waiters| < Max(1, batchSize)
            && (forall i :: 0 <= i < |c.batches| ==> 1 <= |c.batches[i].events| <= Max(1, batchSize))
            && (c.queue != [] ==> c.flushTimer.Some? && c.flushTimer.value in c.armed)
  {
    hide Run, Offset, SettledByBatch, SettledOnce, AllSettled, Flatten;
    var c := Run(batchSize, INIT, turns);
    InitInv(batchSize);
    RunInv(batchSize, INIT, turns);
    var n := |c.batches|;
    FlattenIsPrefix(batchSize, c, n);
    assert c.batches[..n] == c.batches;
    assert c.tracked[Offset(c.batches, n)..] == c.queue;
    assert c.tracked == c.tracked[..Offset(c.batches, n)] + c.queue;
  }

  /** MAIN: a waiter is settled at most once, with the result of the batch its own event went
      out in. */
  lemma {:induction false} WaiterGetsItsBatchsResult(batchSize: int, turns: seq<Turn>, k: nat)
    requires k < |Run(batchSize, INIT, turns).settled|
    ensures var c := Run(batchSize, INIT, turns);
            var s := c.settled[k];
            && s.waiter < |c.tracked| && s.batch < |c.batches|
            && c.batches[s.batch].result == Some(s.result)
            && |c.batches[s.batch].events| == |c.batches[s.batch].waiters|
            && (exists a :: 0 <= a < |c.batches[s.batch].events| &&
                  c.batches[s.batch].events[a] == c.tracked[s.waiter] && c.batches[s.batch].waiters[a] == s.waiter)
            && forall l :: 0 <= l < |c.settled| && c.settled[l].waiter == s.waiter ==> l == k
  {
    hide Run, Offset;
    var c := Run(batchSize, INIT, turns);
    InitInv(batchSize);
    RunInv(batchSize, INIT, turns);
    var s := c.settled[k];
    var at := Offset(c.batches, s.batch);
    assert Aligned(c.tracked, c.batches[s.batch].events, c.batches[s.batch].waiters, at);
    var a := s.waiter - at;
    assert c.batches[s.batch].waiters[a] == s.waiter;
    forall l | 0 <= l < |c.settled| && c.settled[l].waiter == s.waiter
      ensures l == k
    {
      assert !(l < k) && !(k < l);
    }
  }

  /** MAIN: when a batch leaves, and when not: a call of `track` sends one exactly when it fills the
      queue to the batch size, a timer that still fires, `flush` and `close` whenever anything waits.
      It takes everything, clears the timer, and a timer that could not be cancelled stays armed.
      What goes on waiting keeps the timer it has. */
  lemma {:induction false} BatchLeavesIff(batchSize: int, c: Client, t: Turn)
    requires Inv(batchSize, c)
    ensures var r := Next(batchSize, c, t);
            var leaves := match t
              case Track(_, _) => |c.queue| + 1 >= batchSize
              case TimerFires(timer, _) => timer in c.armed && c.queue != []
              case FlushCall(_) => c.queue != []
              case CloseCall(_) => c.queue != []
              case Complete(_, _) => false;
            && |r.batches| == |c.batches| + (if leaves then 1 else 0)
            && (leaves ==> r.queue == [] && r.waiters == [] && r.flushTimer.None?)
            && (!leaves ==> |r.queue| == |c.queue| + (if t.Track? then 1 else 0))
            && (leaves && !t.TimerFires? && c.flushTimer.Some? ==> (c.flushTimer.value in r.armed <==> !t.cancels))
            && (!leaves && c.queue != [] && !t.TimerFires? ==> r.flushTimer == c.flushTimer)
            && (t.TimerFires? ==> r.armed == c.armed - {t.timer})
  {
    hide BatchesAligned, SettledByBatch, SettledOnce, AllSettled, Offset, Aligned;
  }

  /** MAIN: an answer reaches its batch: the batch keeps it, and every waiter of the batch is settled
      with it; only where the caller's handler threw is none of them. */
  lemma {:induction false} CompletionSettles(batchSize: int, c: Client, i: nat, result: Result)
    requires Inv(batchSize, c) && i < |c.batches| && c.batches[i].result == None
    ensures var r := Next(batchSize, c, Complete(i, result));
            && |r.batches| == |c.batches| && r.batches[i].result == Some(result)
            && (forall j :: 0 <= j < |c.batches| && j != i ==> r.batches[j] == c.batches[j])
            && r.queue == c.queue && r.flushTimer == c.flushTimer && r.armed == c.armed && r.tracked == c.tracked
            && (result == HandlerThrew ==> r.settled == c.settled)
            && (result != HandlerThrew ==>
                  && |r.settled| == |c.settled| + |c.batches[i].events|
                  && forall a :: 0 <= a < |c.batches[i].waiters| ==>
                       Settlement(c.batches[i].waiters[a], result, i) in r.settled)
  {
    hide Offset, SettledByBatch, SettledOnce, AllSettled;
    var r := Next(batchSize, c, Complete(i, result));
    if result != HandlerThrew {
      var more := Settlements(c.batches[i], i, result);
      forall a | 0 <= a < |c.batches[i].waiters|
        ensures Settlement(c.batches[i].waiters[a], result, i) in r.settled
      {
        assert r.settled[|c.settled| + a] == more[a];
      }
    }
  }

  // ---------------------------------------------------------------- the retry loop of `send`

  datatype Response = NetworkError | Response(status: int, ack: Option<int>)

  /** The attempt returns: a 2xx status and a body that parses. */
  predicate Succeeds(r: Response) {
    r.Response? && 200 <= r.status < 300 && r.ack.Some?
  }

  /** The first attempt in [from, limit) that succeeds; `limit` when none does. */
  function FirstSuccess(responses: nat -> Response, from: nat, limit: nat): (k: nat)
    requires from <= limit
    ensures from <= k <= limit
    ensures forall i :: from <= i < k ==> !Succeeds(responses(i))
    ensures k < limit ==> Succeeds(responses(k))
    decreases limit - from
  {
    if from == limit || Succeeds(responses(from)) then from else FirstSuccess(responses, from + 1, limit)
  }

  function Pow2(n: nat): nat {
    if n == 0 then 1 else 2 * Pow2(n - 1)
  }

  /** The wait before retry `n`, without its jitter. */
  function Delay(base: nat, n: nat): nat
    requires n > 0
  {
    base * Pow2(n - 1)
  }

  /** The waits before attempt `n`: base, twice the base, ..., without and with the most jitter. */
  function LeastWait(base: nat, n: nat): int {
    base * (Pow2(n) - 1)
  }

  function MostWait(base: nat, n: nat): int {
    base * (Pow2(n) - 1) + base * n
  }

  /** The jitter of the first `n` waits. */
  function Jitters(jitter: nat -> nat, n: nat): nat {
    if n == 0 then 0 else Jitters(jitter, n - 1) + jitter(n)
  }

  /** A status from 200 to 299 with a body that parses to `ack`. */
  predicate Brings2xx(r: Response, ack: int) {
    r.Response? && 200 <= r.status <= 299 && r.ack == Some(ack)
  }

  /** Within the retries `ack` is the body of the first 2xx answer that parses. */
  ghost predicate Answered(responses: nat -> Response, maxRetries: int, ack: int) {
    exists i :: 0 <= i <= maxRetries && Brings2xx(responses(i), ack) &&
      forall j, b :: 0 <= j < i ==> !Brings2xx(responses(j), b)
  }

  /** The first success is the first such answer. */
  lemma {:induction false} AnsweredIff(responses: nat -> Response, maxRetries: int)
    ensures var limit := Max(0, maxRetries + 1);
            var k := FirstSuccess(responses, 0, limit);
            forall a :: Answered(responses, maxRetries, a) <==> (k < limit && responses(k).ack == Some(a))
  {
    var limit := Max(0, maxRetries + 1);
    var k := FirstSuccess(responses, 0, limit);
    assert forall i: nat, a :: Brings2xx(responses(i), a) ==> Succeeds(responses(i));
    assert forall i: nat :: Succeeds(responses(i)) ==> Brings2xx(responses(i), responses(i).ack.value);
    forall a | Answered(responses, maxRetries, a)
      ensures k < limit && responses(k).ack == Some(a)
    {
      var i: nat :| i <= maxRetries && Brings2xx(responses(i), a) &&
                    forall j, b :: 0 <= j < i ==> !Brings2xx(responses(j), b);
      assert i == k;
    }
  }

  /** How often `send` posts the body: up to the first success or the last retry. */
  function Posts(responses: nat -> Response, maxRetries: int): nat {
    var limit := Max(0, maxRetries + 1);
    Min(FirstSuccess(responses, 0, limit) + 1, limit)
  }

  /** `send`: posts the same body until an attempt succeeds or the retries are used up. The body
      is posted once more than retried, and the waits double, each with less than `retryBaseMs`
      of jitter. */
  method Send(maxRetries: int, retryBaseMs: nat, responses: nat -> Response, jitter: nat -> nat)
    returns (result: Result, posts: nat, waited: nat)
    requires forall i :: jitter(i) == 0 || jitter(i) < retryBaseMs
    ensures var limit := Max(0, maxRetries + 1);
            var k := FirstSuccess(responses, 0, limit);
            && posts == Posts(responses, maxRetries)
            && result == (if k < limit then Acked(responses(k).ack.value) else Rejected)
            && (posts > 0 ==> LeastWait(retryBaseMs, posts - 1) <= waited <= MostWait(retryBaseMs, posts - 1))
            && (posts > 0 ==> waited == LeastWait(retryBaseMs, posts - 1) + Jitters(jitter, posts - 1))
    ensures forall a :: result == Acked(a) <==> Answered(responses, maxRetries, a)
    ensures !result.HandlerThrew?
  {
    hide Answered;
    assert LeastWait(retryBaseMs, 0) == 0;
    assert Jitters(jitter, 0) == 0;
    hide Pow2, Succeeds, LeastWait, MostWait, Delay, FirstSuccess, Jitters;
    var attempt: nat := 0;
    ghost var limit := Max(0, maxRetries + 1);
    ghost var k := FirstSuccess(responses, 0, limit);
    posts, waited := 0, 0;
    while attempt <= maxRetries
      invariant attempt <= limit
      invariant posts == attempt
      invariant attempt == limit ==> limit == 0
      invariant attempt <= k
      invariant waited == LeastWait(retryBaseMs, attempt) + Jitters(jitter, attempt)
      decreases maxRetries + 1 - attempt
    {
      var r := responses(attempt);
      posts := posts + 1;
      if Succeeds(r) {
        assert k == attempt;
        AnsweredIff(responses, maxRetries);
        WaitInBounds(retryBaseMs, jitter, attempt);
        return Acked(r.ack.value), posts, waited;
      }
      attempt := attempt + 1;
      if attempt > maxRetries {
        WaitInBounds(retryBaseMs, jitter, attempt - 1);
        break;
      }
      Backoff(retryBaseMs, jitter, attempt);
      waited := waited + Delay(retryBaseMs, attempt) + jitter(attempt);
    }
    result := Rejected;
    AnsweredIff(responses, maxRetries);
  }

  lemma Backoff(base: nat, jitter: nat -> nat, attempt: nat)
    requires attempt > 0
    ensures Jitters(jitter, attempt) == Jitters(jitter, attempt - 1) + jitter(attempt)
    ensures LeastWait(base, attempt) == LeastWait(base, attempt - 1) + Delay(base, attempt)
  {
    assert Pow2(attempt) == 2 * Pow2(attempt - 1);
  }

  lemma {:induction false} WaitInBounds(base: nat, jitter: nat -> nat, n: nat)
    requires forall i :: jitter(i) == 0 || jitter(i) < base
    ensures LeastWait(base, n) <= LeastWait(base, n) + Jitters(jitter, n) <= MostWait(base, n)
  {
    if n > 0 {
      WaitInBounds(base, jitter, n - 1);
      assert base * n == base * (n - 1) + base;
    }
  }

  predicate ClientError(r: Response) {
    r.Response? && 400 <= r.status < 500
  }

  /** A first success at `i` or later: up to `i` the search only moves on. */
  lemma {:induction false} FirstSuccessFrom(responses: nat -> Response, from: nat, limit: nat, i: nat)
    requires from <= i < limit
    ensures FirstSuccess(responses, from, limit) >= i <==> forall j :: from <= j < i ==> !Succeeds(responses(j))
    decreases i - from
  {
    if from < i {
      FirstSuccessFrom(responses, from + 1, limit, i);
    }
  }

  /** MAIN: attempt `i` is made if and only if retries reach that far and no earlier attempt succeeded. */
  lemma {:induction false} AttemptIsMadeIff(responses: nat -> Response, maxRetries: int, i: nat)
    ensures i < Posts(responses, maxRetries) <==> i <= maxRetries && forall j :: 0 <= j < i ==> !Succeeds(responses(j))
  {
    if i <= maxRetries {
      FirstSuccessFrom(responses, 0, maxRetries + 1, i);
    }
  }

  /** MAIN: what follows attempt `i`, on statuses: a 2xx answer that parses is the last attempt; after
      no answer, any other status (429, 4xx and 5xx alike) or a body that does not parse there is a
      next one if and only if a retry is left. */
  lemma {:induction false} NextAttemptIff(responses: nat -> Response, maxRetries: int, i: nat)
    ensures 0 < Posts(responses, maxRetries) <==> 0 <= maxRetries
    ensures i < Posts(responses, maxRetries) ==>
              match responses(i)
              case NetworkError => i + 1 < Posts(responses, maxRetries) <==> i < maxRetries
              case Response(status, ack) =>
                if 200 <= status <= 299 && ack.Some? then Posts(responses, maxRetries) == i + 1
                else i + 1 < Posts(responses, maxRetries) <==> i < maxRetries
  {
    AttemptIsMadeIff(responses, maxRetries, 0);
    AttemptIsMadeIff(responses, maxRetries, i);
    AttemptIsMadeIff(responses, maxRetries, i + 1);
  }

  /** MAIN: a client error at attempt `i` ends the loop if and only if the retries are used up.
      So the SDK meets the expectation of its test, one post for a 4xx, exactly without retries. */
  lemma {:induction false} ClientErrorIsFinalIff(responses: nat -> Response, maxRetries: int, i: nat)
    requires i < Posts(responses, maxRetries) && ClientError(responses(i))
    ensures Posts(responses, maxRetries) == i + 1 <==> maxRetries == i
  {
    AttemptIsMadeIff(responses, maxRetries, i);
    AttemptIsMadeIff(responses, maxRetries, i + 1);
    AttemptIsMadeIff(responses, maxRetries, i + 2);
  }

  /** The case of the test: the first response is a 4xx. */
  lemma {:induction false} OnePostForClientErrorIff(responses: nat -> Response, maxRetries: int)
    requires ClientError(responses(0))
    ensures Posts(responses, maxRetries) <= 1 <==> maxRetries <= 0
  {
    AttemptIsMadeIff(responses, maxRetries, 0);
    AttemptIsMadeIff(responses, maxRetries, 1);
  }

  /** A 400 followed by a 200 is posted twice and ends as a success. */
  lemma {:induction false} BadRequestIsPostedAgain()
    ensures var responses := (n: nat) => if n == 0 then Response(400, None) else Response(200, Some(1));
            Posts(responses, 3) == 2 && FirstSuccess(responses, 0, 4) == 1
  {
    var responses := (n: nat) => if n == 0 then Response(400, None) else Response(200, Some(1));
    assert !Succeeds(responses(0)) && Succeeds(responses(1));
    assert FirstSuccess(responses, 1, 4) == 1;
  }

  /** A server that always answers 4xx gets every attempt. */
  lemma {:induction false} ClientErrorsAreRetried(responses: nat -> Response, maxRetries: int)
    requires forall i :: ClientError(responses(i))
    ensures Posts(responses, maxRetries) == Max(0, maxRetries + 1)
  {
    if maxRetries >= 0 {
      AttemptIsMadeIff(responses, maxRetries, maxRetries);
    }
  }

  // ---------------------------------------------------------------- the client object

  class InsightFlowClient {
    const batchSize: int
    const maxRetries: int
    const retryBaseMs: nat
    var queue: seq<Event>
    var waiters: seq<nat>
    var flushTimer: Option<nat>
    var armed: set<nat>
    var timers: nat
    var tracked: seq<Event>
    var batches: seq<Batch>
    var settled: seq<Settlement>

    ghost function State(): Client
      reads this
    {
      Client(queue, waiters, flushTimer, armed, timers, tracked, batches, settled)
    }

    constructor (batchSize: int, maxRetries: int, retryBaseMs: nat)
      ensures State() == INIT && Inv(batchSize, State())
      ensures this.batchSize == batchSize && this.maxRetries == maxRetries && this.retryBaseMs == retryBaseMs
    {
      this.batchSize, this.maxRetries, this.retryBaseMs := batchSize, maxRetries, retryBaseMs;
      queue, waiters, flushTimer, armed, timers := [], [], None, {}, 0;
      tracked, batches, settled := [], [], [];
    }

    /** `enqueue`; the number returned names the promise handed to the caller. */
    method Enqueue(event: Event, cancels: bool) returns (waiter: nat)
      requires Inv(batchSize, State())
      modifies this
      ensures State() == Next(batchSize, old(State()), Track(event, cancels)) && Inv(batchSize, State())
      ensures waiter == |old(tracked)|
    {
      TrackInv(batchSize, State(), event, cancels);
      hide Inv;
      waiter := |tracked|;
      queue := queue + [event];
      waiters := waiters + [waiter];
      tracked := tracked + [event];
      if |queue| >= batchSize {
        Flush(cancels);
      } else {
        ScheduleFlush();
      }
    }

    method ScheduleFlush()
      modifies this`flushTimer, this`armed, this`timers
      ensures State() == Scheduled(old(State()))
    {
      if flushTimer.Some? {
        return;
      }
      flushTimer, armed, timers := Some(timers), armed + {timers}, timers + 1;
    }

    /** The synchronous part of `flush`: the batch is on its way when it returns. */
    method Flush(cancels: bool)
      modifies this`queue, this`waiters, this`flushTimer, this`armed, this`batches
      ensures State() == Flushed(old(State()), cancels)
    {
      if |queue| == 0 {
        return;
      }
      var batch := Batch(queue, waiters, None);
      queue, waiters := [], [];
      ClearTimer(cancels);
      batches := batches + [batch];
    }

    method ClearTimer(cancels: bool)
      modifies this`flushTimer, this`armed
      ensures State() == CancelTimer(old(State()), cancels)
    {
      if flushTimer.Some? {
        if cancels {
          armed := armed - {flushTimer.value};
        }
        flushTimer := None;
      }
    }

    /** The callback of a timer, stale or not. */
    method OnTimer(timer: nat, cancels: bool)
      requires Inv(batchSize, State()) && timer in armed
      modifies this
      ensures State() == Next(batchSize, old(State()), TimerFires(timer, cancels)) && Inv(batchSize, State())
    {
      TurnInv(batchSize, State(), TimerFires(timer, cancels));
      hide Inv;
      armed := armed - {timer};
      flushTimer := None;
      Flush(cancels);
    }

    method Close(cancels: bool)
      requires Inv(batchSize, State())
      modifies this
      ensures State() == Next(batchSize, old(State()), CloseCall(cancels)) && Inv(batchSize, State())
      ensures queue == [] && flushTimer.None?
    {
      TurnInv(batchSize, State(), CloseCall(cancels));
      ClearTimer(cancels);
      Flush(cancels);
    }

    /** Resolve or reject every waiter of batch `i`. */
    method SettleAll(i: nat, result: Result)
      requires i < |batches|
      modifies this`settled
      ensures settled == old(settled) + Settlements(batches[i], i, result)
    {
      ghost var all := Settlements(batches[i], i, result);
      var a := 0;
      while a < |batches[i].waiters|
        invariant 0 <= a <= |batches[i].waiters|
        invariant settled == old(settled) + all[..a]
      {
        settled := settled + [Settlement(batches[i].waiters[a], result, i)];
        a := a + 1;
      }
      assert all[..a] == all;
    }

    /** The rest of `flush` for batch `i`: `send` it, then settle its waiters in a loop. */
    method Finish(i: nat, responses: nat -> Response, jitter: nat -> nat, handlerThrows: bool)
      requires Inv(batchSize, State()) && i < |batches| && batches[i].result.None?
      requires forall n :: jitter(n) == 0 || jitter(n) < retryBaseMs
      modifies this`batches, this`settled
      ensures var limit := Max(0, maxRetries + 1);
              var k := FirstSuccess(responses, 0, limit);
              var result := if k < limit then Acked(responses(k).ack.value)
                            else if handlerThrows then HandlerThrew else Rejected;
              State() == Next(batchSize, old(State()), Complete(i, result))
      ensures Inv(batchSize, State())
    {
      hide FirstSuccess, Succeeds, Inv, Settlements;
      var result, _, _ := Send(maxRetries, retryBaseMs, responses, jitter);
      if result.Rejected? && handlerThrows {
        result := HandlerThrew;
      }
      CompleteInv(batchSize, State(), i, result);
      if !result.HandlerThrew? {
        SettleAll(i, result);
      } else {
        assert settled + [] == settled;
      }
      batches := batches[i := batches[i].(result := Some(result))];
    }
  }
}

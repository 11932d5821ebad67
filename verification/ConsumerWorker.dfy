/** The worker object itself: fields updated in place by polls and flushes, proved against
    the protocol's transition functions (ingestion/app/consumer.py: `ConsumerWorker`). */
module ConsumerWorker {
  import opened Events
  import opened EventStore
  import opened ConsumerProtocol

  const BATCH_MAX_ROWS := 1000
  const BATCH_MAX_INTERVAL := 1_000_000  // microseconds

  /** The topic: its partitions and the group's committed offsets. */
  class Broker {
    var log: seq<seq<Message>>
    var committed: seq<nat>

    constructor (log: seq<seq<Message>>, committed: seq<nat>)
      ensures this.log == log && this.committed == committed
    {
      this.log, this.committed := log, committed;
    }
  }

  /** The `events` table with the server's clock. */
  class EventsTable {
    var rows: seq<Stored>
    var clock: int

    constructor (rows: seq<Stored>, clock: int)
      ensures this.rows == rows && this.clock == clock
    {
      this.rows, this.clock := rows, clock;
    }
  }

  /** What the world does to one turn of the loop of `run`: `getmany` raises, or returns
      batches; `now` is read after they are buffered, `doneAt` after the flush, if any. */
  datatype Round =
    | GetManyRaises
    | Round(batches: seq<Batch>, now: int, attempt: Attempt, doneAt: int)

  predicate ShouldFlush(rows: nat, lastFlushAt: int, now: int) {
    rows >= BATCH_MAX_ROWS || (rows > 0 && now - lastFlushAt >= BATCH_MAX_INTERVAL)
  }

  /** The protocol steps of one turn. */
  function RoundSteps(env: Env, s: State, lastFlushAt: int, r: Round): seq<Step> {
    match r
    case GetManyRaises => [PollFails]
    case Round(batches, now, attempt, _) =>
      var polled := Next(env, s, Poll(batches));
      if polled.worker.Up? && ShouldFlush(|polled.worker.buffer|, lastFlushAt, now)
      then [Poll(batches), Flush(attempt)] else [Poll(batches)]
  }

  /** `_last_flush_at` after one turn: moved only by a flush that ran to its end. */
  function LastFlush(env: Env, s: State, lastFlushAt: int, r: Round): int {
    var after := Run(env, s, RoundSteps(env, s, lastFlushAt, r));
    if |RoundSteps(env, s, lastFlushAt, r)| == 2 && after.worker.Up? && !after.worker.failing
    then r.doneAt else lastFlushAt
  }

  /** The protocol steps of the whole loop: it ends when the rounds do, or on an exception. */
  function LoopSteps(env: Env, s: State, lastFlushAt: int, rounds: seq<Round>): seq<Step>
    decreases |rounds|
  {
    if rounds == [] || s.worker.Down? || s.worker.failing then []
    else
      var steps := RoundSteps(env, s, lastFlushAt, rounds[0]);
      steps + LoopSteps(env, Run(env, s, steps), LastFlush(env, s, lastFlushAt, rounds[0]), rounds[1..])
  }

  /** The state in which the loop is left. */
  function LoopEnd(env: Env, s: State, lastFlushAt: int, rounds: seq<Round>): State {
    Run(env, s, LoopSteps(env, s, lastFlushAt, rounds))
  }

  lemma {:induction false} LoopTurn(env: Env, s: State, lastFlushAt: int, rounds: seq<Round>)
    requires rounds != [] && s.worker.Up? && !s.worker.failing
    ensures LoopEnd(env, s, lastFlushAt, rounds) ==
            LoopEnd(env, Run(env, s, RoundSteps(env, s, lastFlushAt, rounds[0])),
                    LastFlush(env, s, lastFlushAt, rounds[0]), rounds[1..])
  {
    hide Run, RoundSteps, LastFlush;
    var steps := RoundSteps(env, s, lastFlushAt, rounds[0]);
    RunConcat(env, s, steps, LoopSteps(env, Run(env, s, steps), LastFlush(env, s, lastFlushAt, rounds[0]),
                                       rounds[1..]));
  }

  lemma {:induction false} LoopDone(env: Env, s: State, lastFlushAt: int, rounds: seq<Round>)
    requires rounds == [] || s.worker.Down? || s.worker.failing
    ensures LoopEnd(env, s, lastFlushAt, rounds) == s
  {
  }

  /** The `finally` block flushes once more, whatever state the loop ended in. */
  lemma {:induction false} FinishAfterLoop(env: Env, s: State, lastFlushAt: int, rounds: seq<Round>, final: Attempt)
    requires LoopEnd(env, s, lastFlushAt, rounds).worker.Up?
    ensures Run(env, s, LoopSteps(env, s, lastFlushAt, rounds) + [Finish(final)]) ==
            FlushState(LoopEnd(env, s, lastFlushAt, rounds), final).(worker := Down)
  {
    hide Run, FlushState, LoopSteps;
    RunConcat(env, s, LoopSteps(env, s, lastFlushAt, rounds), [Finish(final)]);
    RunOne(env, LoopEnd(env, s, lastFlushAt, rounds), Finish(final));
  }

  class ConsumerWorker {
    const env: Env
    const consumer: Broker
    const ch: EventsTable
    var position: seq<nat>
    var buffer: seq<Entry>
    var pending: map<nat, nat>
    var lastFlushAt: int

    /** The protocol state this object stands for; `failing` tells whether an exception is
        on its way out of `run`. */
    ghost function Snapshot(failing: bool): (s: State)
      reads this, consumer, ch
      ensures s.worker.Up? && s.worker.failing == failing
    {
      State(consumer.log, consumer.committed, ch.rows, ch.clock, Up(position, buffer, pending, failing))
    }

    /** `__init__`, with the position `start()` gives the consumer. */
    constructor (env: Env, consumer: Broker, ch: EventsTable, now: int)
      ensures this.env == env && this.consumer == consumer && this.ch == ch && lastFlushAt == now
      ensures consumer.log == old(consumer.log) && consumer.committed == old(consumer.committed)
      ensures Snapshot(false) ==
              Next(env, State(consumer.log, consumer.committed, ch.rows, ch.clock, Down), Start)
    {
      this.env, this.consumer, this.ch := env, consumer, ch;
      position, buffer, pending, lastFlushAt := consumer.committed, [], map[], now;
    }

    /** One message: enrich it, then buffer its row or, if that raised, skip it. */
    method Take(part: nat, now: int)
      modifies this`position, this`buffer, this`pending
      ensures Snapshot(false).worker == TakeOne(env, consumer.log, old(Snapshot(false)).worker, part, now)
    {
      if part < |consumer.log| && part < |position| && position[part] < |consumer.log[part]| {
        var off := position[part];
        var row := EnrichRow(env, consumer.log[part][off], now);
        RaisesIffMalformed(env, consumer.log[part][off], now);
        hide EnrichRow;
        position := position[part := off + 1];
        if row.Ok? {
          buffer := buffer + [Entry(part, off, now, row.value)];
          pending := pending[part := off];
        }
      }
    }

    /** The two `for` loops of `run`: buffer the rows of the batches, skip malformed ones. */
    method Consume(batches: seq<Batch>)
      modifies this`position, this`buffer, this`pending
      ensures Snapshot(false) == Next(env, old(Snapshot(false)), Poll(batches))
    {
      hide TakeOne;
      ghost var log, start := consumer.log, Snapshot(false).worker;
      var i := 0;
      while i < |batches|
        invariant 0 <= i <= |batches|
        invariant TakeAll(env, log, Snapshot(false).worker, batches[i..]) == TakeAll(env, log, start, batches)
      {
        var part, times := batches[i].part, batches[i].times;
        ghost var before := Snapshot(false).worker;
        var j := 0;
        while j < |times|
          invariant 0 <= j <= |times|
          invariant TakeBatch(env, log, Snapshot(false).worker, part, times[j..]) ==
                    TakeBatch(env, log, before, part, times)
        {
          assert times[j..][1..] == times[j + 1..];
          Take(part, times[j]);
          j := j + 1;
        }
        assert times[j..] == [];
        assert batches[i..][1..] == batches[i + 1..];
        i := i + 1;
      }
      assert batches[i..] == [];
    }

    /** `_flush`: returns whether it raised. On a failed insert the rows are put back; after a
        failed commit they are gone and the pending offsets stay. */
    method Flush(a: Attempt, doneAt: int, ghost failing: bool) returns (raised: bool)
      modifies this`buffer, this`pending, this`lastFlushAt, consumer`committed, ch
      ensures Snapshot(failing || raised) == FlushState(old(Snapshot(failing)), a)
      ensures lastFlushAt == if old(buffer) != [] && !raised then doneAt else old(lastFlushAt)
    {
      if buffer == [] {
        return false;
      }
      var rows := buffer;
      buffer := [];
      ch.clock := ch.clock + a.tick;
      match a.insert {
        case InsertFailed(landed) =>
          ch.rows := ch.rows + Stamp(Landed(rows, landed), ch.clock);
          buffer := rows + buffer;
          return true;
        case Inserted =>
          ch.rows := ch.rows + Stamp(rows, ch.clock);
      }
      if pending != map[] {
        match a.commit {
          case CommitFailed(landed) =>
            consumer.committed := CommitAt(consumer.committed, pending, landed);
            return true;
          case Committed =>
            consumer.committed := CommitAt(consumer.committed, pending, pending.Keys);
            pending := map[];
        }
      } else {
        assert CommitAt(consumer.committed, pending, pending.Keys) == consumer.committed;
      }
      lastFlushAt := doneAt;
      raised := false;
    }

    /** One turn of the `while` loop; returns whether an exception escaped it. */
    method Turn(r: Round) returns (raised: bool)
      modifies this, consumer`committed, ch
      ensures Snapshot(raised) ==
              ConsumerProtocol.Run(env, old(Snapshot(false)),
                                   RoundSteps(env, old(Snapshot(false)), old(lastFlushAt), r))
      ensures lastFlushAt == LastFlush(env, old(Snapshot(false)), old(lastFlushAt), r)
    {
      hide TakeAll, CommitAt, Stamp, Landed, ConsumerProtocol.Run;
      ghost var top := Snapshot(false);
      match r {
        case GetManyRaises =>
          RunOne(env, top, PollFails);
          raised := true;
        case Round(batches, now, attempt, doneAt) =>
          Consume(batches);
          RunOne(env, top, Poll(batches));
          raised := false;
          if ShouldFlush(|buffer|, lastFlushAt, now) {
            RunConcat(env, top, [Poll(batches)], [Step.Flush(attempt)]);
            RunOne(env, Snapshot(false), Step.Flush(attempt));
            assert [Poll(batches), Step.Flush(attempt)] == [Poll(batches)] + [Step.Flush(attempt)];
            raised := Flush(attempt, doneAt, false);
          }
      }
    }

    /** `run`: poll and flush until stopped or an exception escapes; the `finally` block
        flushes once more and swallows what that raises. */
    method Run(rounds: seq<Round>, final: Attempt)
      modifies this, consumer`committed, ch
      ensures var s := old(Snapshot(false));
              var r := ConsumerProtocol.Run(env, s, LoopSteps(env, s, old(lastFlushAt), rounds) + [Finish(final)]);
              && consumer.log == r.log && consumer.committed == r.committed
              && ch.rows == r.table && ch.clock == r.clock
    {
      hide FlushState, RoundSteps, LastFlush, Next, LoopEnd, ConsumerProtocol.Run;
      ghost var s, last := Snapshot(false), lastFlushAt;
      var failing := false;
      var i := 0;
      while i < |rounds| && !failing
        invariant 0 <= i <= |rounds|
        invariant LoopEnd(env, Snapshot(failing), lastFlushAt, rounds[i..]) == LoopEnd(env, s, last, rounds)
        decreases |rounds| - i, if failing then 0 else 1
      {
        LoopTurn(env, Snapshot(false), lastFlushAt, rounds[i..]);
        assert rounds[i..][1..] == rounds[i + 1..];
        failing := Turn(rounds[i]);
        i := i + 1;
      }
      LoopDone(env, Snapshot(failing), lastFlushAt, rounds[i..]);
      FinishAfterLoop(env, s, last, rounds, final);
      var _ := Flush(final, lastFlushAt, failing);
    }
  }
}

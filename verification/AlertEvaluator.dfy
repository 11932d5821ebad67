/** The alert service and the evaluator as code: `AlertsService` (api/src/alerts/alerts.service.ts)
    and `AlertEvaluator` (api/src/alerts/alert-evaluator.service.ts), shown to be runs of the
    steps in `Alerts`. */
module AlertEvaluation {
  import opened Prelude
  import opened Anomaly
  import opened Alerts

  /** The fields of an update request; missing ones stay as they are. */
  datatype UpdateAlert = UpdateAlert(cooldown: Option<nat>, enabled: Option<bool>, settings: Option<string>)

  /** What the outside world does to one evaluation: the reply of the forecast service (None if the
      call fails), the time between two clock reads, and the fate of the two writes and of the
      notification. */
  datatype Fate = Fate(reply: Option<seq<AnomalyResult>>, drift: nat, record: Write, update: Write, notify: Write)

  lemma {:induction false} Extend(st: State, steps: seq<Step>, step: Step)
    requires Legal(st, steps) && Enabled(Run(st, steps), step)
    ensures Legal(st, steps + [step]) && Run(st, steps + [step]) == Next(Run(st, steps), step)
    decreases |steps|
  {
    hide Enabled, Next;
    var all := steps + [step];
    if steps == [] {
      assert all == [step] && all[1..] == [];
    } else {
      assert all[0] == steps[0] && all[1..] == steps[1..] + [step];
      Extend(Next(st, steps[0]), steps[1..], step);
    }
  }

  /** A write to or about an alert that has been deleted does not happen. */
  function Effective(st: State, fate: Write): Write
    requires st.batch != []
  {
    if st.batch[0].id in st.alerts then fate else Refused
  }

  /** From the decision to fire to the end of `evaluateOne`, as steps with nothing in between. */
  function AfterFire(st: State, fate: Fate): (r: State)
    requires st.batch != [] && st.phase.Recording?
    ensures r.batch == st.batch[1..] && r.phase == Asking
  {
    var recorded := Next(st, Recorded(Effective(st, fate.record)));
    if !Effective(st, fate.record).Landed? then recorded
    else
      var updated := Next(recorded, Updated(Effective(st, fate.update)));
      if !Effective(st, fate.update).Landed? then updated else Next(updated, Notified(fate.notify))
  }

  function AfterOne(st: State, fate: Fate): (r: State)
    requires st.batch != [] && st.phase.Asking?
    ensures r.batch == st.batch[1..] && r.phase == Asking
  {
    var fetched := Next(st, Fetched(fate.reply, fate.drift));
    if Choose(st.batch[0], fate.reply, st.now).None? then fetched else AfterFire(fetched, fate)
  }

  /** The rest of a tick: one evaluation after the other, each with its own fate. */
  function AfterAll(st: State, fates: seq<Fate>): State
    requires |st.batch| == |fates| && st.phase.Asking?
    decreases fates
  {
    if fates == [] then st else AfterAll(AfterOne(st, fates[0]), fates[1..])
  }

  /** One evaluation is a run of steps. */
  lemma {:induction false} OneIsSteps(start: State, before: seq<Step>, st: State, fate: Fate) returns (steps: seq<Step>)
    requires Legal(start, before) && Run(start, before) == st && st.batch != [] && st.phase.Asking?
    ensures Legal(start, steps) && Run(start, steps) == AfterOne(st, fate)
  {
    hide Legal, Run, LastFlagged, LedgerOf, Choose;
    var fetched := Fetched(fate.reply, fate.drift);
    Extend(start, before, fetched);
    steps := before + [fetched];
    if Choose(st.batch[0], fate.reply, st.now).Some? {
      steps := FireIsSteps(start, steps, Next(st, fetched), fate);
    }
  }

  lemma {:induction false} FireIsSteps(start: State, before: seq<Step>, st: State, fate: Fate)
      returns (steps: seq<Step>)
    requires Legal(start, before) && Run(start, before) == st && st.batch != [] && st.phase.Recording?
    ensures Legal(start, steps) && Run(start, steps) == AfterFire(st, fate)
  {
    hide Legal, Run, LedgerOf;
    var record, update := Effective(st, fate.record), Effective(st, fate.update);
    Extend(start, before, Recorded(record));
    steps := before + [Recorded(record)];
    if record.Landed? {
      var recorded := Next(st, Recorded(record));
      Extend(start, steps, Updated(update));
      steps := steps + [Updated(update)];
      if update.Landed? {
        Extend(start, steps, Notified(fate.notify));
        steps := steps + [Notified(fate.notify)];
      }
    }
  }

  /** What an evaluation that fires with `point` at `firedAt` leaves, by the fate of its writes: the
      row unless its write is refused, `lastFiredAt` unless the row's write or its own failed, the
      notification unless one of the two writes failed or it does itself; and nothing else. */
  predicate Fired(st: State, r: State, point: AnomalyResult, firedAt: int, fate: Fate)
    requires st.batch != []
  {
    var alert, id := st.batch[0], st.batch[0].id;
    var written := id in st.alerts && fate.record != Refused;
    var stamped := written && fate.record == Landed && fate.update != Refused;
    var notified := stamped && fate.update == Landed && fate.notify != Refused;
    var was := LedgerOf(st.ledgers, id);
    && r.batch == st.batch[1..] && r.phase == Asking && r.running == st.running && r.used == st.used
    && r.now == firedAt
    && r.alerts == (if stamped then st.alerts[id := st.alerts[id].(lastFiredAt := Some(firedAt))] else st.alerts)
    && (!written ==> r.ledgers == st.ledgers)
    && (written ==>
          var fires := was.fires + if notified then [Fire(firedAt, alert.cooldown, point)] else [];
          r.ledgers == st.ledgers[id := Ledger(was.rows + [point], fires)])
  }

  lemma {:induction false} FireOutcome(st: State, fate: Fate)
    requires st.batch != [] && st.phase.Recording? && st.now == st.phase.firedAt
    ensures Fired(st, AfterFire(st, fate), st.phase.point, st.phase.firedAt, fate)
  {
    var id := st.batch[0].id;
    var was := LedgerOf(st.ledgers, id);
    assert was.fires + [] == was.fires;
    if id in st.alerts && fate.record.Landed? {
      var recorded := Next(st, Recorded(Landed));
      assert recorded.alerts == st.alerts;
      assert LedgerOf(recorded.ledgers, id) == was.(rows := was.rows + [st.phase.point]);
      hide LedgerOf;
      if fate.update.Landed? {
        var updated := Next(recorded, Updated(Landed));
        assert updated.ledgers == recorded.ledgers;
      }
    }
  }

  /** MAIN: what one evaluation leaves: it fires with the chosen point at the clock after the
      cooldown test, and without one changes nothing. */
  lemma {:induction false} EvaluationOutcome(st: State, fate: Fate)
    requires st.batch != [] && st.phase.Asking?
    ensures match Choose(st.batch[0], fate.reply, st.now)
            case None => AfterOne(st, fate) == st.(batch := st.batch[1..])
            case Some(point) => Fired(st, AfterOne(st, fate), point, st.now + fate.drift, fate)
  {
    hide Choose, AfterFire, Fired;
    if Choose(st.batch[0], fate.reply, st.now).Some? {
      var fetched := Next(st, Fetched(fate.reply, fate.drift));
      FireOutcome(fetched, fate);
      FiredBefore(st, fetched, AfterFire(fetched, fate), fetched.phase.point, st.now + fate.drift, fate);
    }
  }

  /** Between the test and the row's write only the clock moves. */
  lemma FiredBefore(st: State, fetched: State, r: State, point: AnomalyResult, firedAt: int, fate: Fate)
    requires st.batch != [] && fetched == st.(now := fetched.now, phase := fetched.phase)
    requires Fired(fetched, r, point, firedAt, fate)
    ensures Fired(st, r, point, firedAt, fate)
  {
  }

  /** The tables, the clock, and what the notifier was asked to send. */
  class Backend {
    var now: int
    var alerts: map<nat, Alert>
    var ledgers: map<nat, Ledger>
    var used: set<nat>

    constructor ()
      ensures now == 0 && alerts == map[] && ledgers == map[] && used == {}
    {
      now, alerts, ledgers, used := 0, map[], map[], {};
    }

    /** `AlertsService.create`; the database picks an id that was never used. */
    method Create(id: nat, detection: Detection, cooldown: Option<nat>, enabled: Option<bool>, settings: string)
      requires id !in used
      modifies this`alerts, this`used
      ensures var alert := Alert(id, detection, if cooldown.Some? then cooldown.value else 3600,
                                 if enabled.Some? then enabled.value else true, settings, None);
              && alerts == old(alerts)[id := alert] && used == old(used) + {id}
              && forall st: State :: (st.alerts == old(alerts) && st.used == old(used)
                                      && Enabled(st, Step.Create(alert)))
                   ==> Next(st, Step.Create(alert)) == st.(alerts := alerts, used := used)
    {
      alerts := alerts[id := Alert(id, detection, if cooldown.Some? then cooldown.value else 3600,
                                   if enabled.Some? then enabled.value else true, settings, None)];
      used := used + {id};
    }

    /** `AlertsService.update`: fills `data` field by field; it never touches `lastFiredAt`. */
    method Update(id: nat, dto: UpdateAlert) returns (found: bool)
      modifies this`alerts
      ensures found == (id in old(alerts))
      ensures !found ==> alerts == old(alerts)
      ensures found ==> id in alerts && alerts[id].lastFiredAt == old(alerts)[id].lastFiredAt
      ensures found ==>
                var was := old(alerts)[id];
                && alerts - {id} == old(alerts) - {id}
                && alerts[id].id == was.id && alerts[id].detection == was.detection
                && alerts[id].cooldown == (match dto.cooldown case None => was.cooldown case Some(c) => c)
                && alerts[id].enabled == (match dto.enabled case None => was.enabled case Some(e) => e)
                && alerts[id].settings == (match dto.settings case None => was.settings case Some(t) => t)
      ensures forall st: State :: (st.alerts == old(alerts)
                                   && Enabled(st, Edit(id, dto.cooldown, dto.enabled, dto.settings)))
                ==> found && Next(st, Edit(id, dto.cooldown, dto.enabled, dto.settings)) == st.(alerts := alerts)
    {
      if id !in alerts {
        return false;
      }
      var data := alerts[id];
      if dto.settings.Some? {
        data := data.(settings := dto.settings.value);
      }
      if dto.cooldown.Some? {
        data := data.(cooldown := dto.cooldown.value);
      }
      if dto.enabled.Some? {
        data := data.(enabled := dto.enabled.value);
      }
      alerts := alerts[id := data];
      return true;
    }

    /** `AlertsService.delete`; the rows of the alert go with it. */
    method Delete(id: nat) returns (found: bool)
      modifies this`alerts, this`ledgers
      ensures found == (id in old(alerts))
      ensures !found ==> alerts == old(alerts) && ledgers == old(ledgers)
      ensures found ==>
                && alerts.Keys == old(alerts).Keys - {id} && alerts == old(alerts) - {id}
                && ledgers == old(ledgers)[id := Ledger([], LedgerOf(old(ledgers), id).fires)]
      ensures forall st: State :: (st.alerts == old(alerts) && st.ledgers == old(ledgers)
                                   && Enabled(st, Step.Delete(id)))
                ==> found && Next(st, Step.Delete(id)) == st.(alerts := alerts, ledgers := ledgers)
    {
      if id !in alerts {
        return false;
      }
      alerts := alerts - {id};
      ledgers := ledgers[id := LedgerOf(ledgers, id).(rows := [])];
      return true;
    }

    /** `AlertsService.recordFire`: a row that refers to the alert. */
    method RecordFire(id: nat, point: AnomalyResult, fate: Write) returns (failed: bool)
      modifies this`ledgers
      ensures failed <==> !fate.Landed? || id !in alerts
      ensures var l := LedgerOf(old(ledgers), id);
              ledgers == if fate.Refused? || id !in alerts then old(ledgers)
                         else old(ledgers)[id := l.(rows := l.rows + [point])]
    {
      if fate.Refused? || id !in alerts {
        return true;
      }
      var l := LedgerOf(ledgers, id);
      ledgers := ledgers[id := l.(rows := l.rows + [point])];
      return fate.Lost?;
    }
  }

  class AlertEvaluator {
    const db: Backend
    var running: bool

    constructor (db: Backend)
      ensures this.db == db && !running
    {
      this.db := db;
      running := false;
    }

    ghost function View(batch: seq<Alert>, phase: Phase): State
      reads this, db
    {
      State(db.now, db.alerts, db.ledgers, db.used, running, batch, phase)
    }

    /** `evaluateOne`, with `rest` still to be evaluated after it. */
    method EvaluateOne(alert: Alert, fate: Fate, ghost rest: seq<Alert>)
      modifies db
      ensures running == old(running)
      ensures View(rest, Asking) == AfterOne(old(View([alert] + rest, Asking)), fate)
    {
      hide LastFlagged, LedgerOf, AfterFire;
      assert ([alert] + rest)[1..] == rest;
      if alert.detection.ByThreshold? {
        return;
      }
      if fate.reply.None? {
        return;
      }
      var lastFlagged := FindLastFlagged(fate.reply.value);
      if lastFlagged.None? {
        return;
      }
      if alert.lastFiredAt.Some? && db.now - alert.lastFiredAt.value < alert.cooldown * 1000 {
        return;
      }
      db.now := db.now + fate.drift;
      FireAlert(alert, lastFlagged.value, db.now, fate, rest);
    }

    /** The second half of `evaluateOne`: the row, the new `lastFiredAt`, the notification. */
    method FireAlert(alert: Alert, point: AnomalyResult, firedAt: int, fate: Fate, ghost rest: seq<Alert>)
      modifies db
      ensures running == old(running)
      ensures View(rest, Asking) == AfterFire(old(View([alert] + rest, Recording(point, firedAt))), fate)
    {
      hide LedgerOf;
      assert ([alert] + rest)[1..] == rest;
      var failed := db.RecordFire(alert.id, point, fate.record);
      if failed {
        return;
      }
      if fate.update.Refused? || alert.id !in db.alerts {
        return;
      }
      db.alerts := db.alerts[alert.id := db.alerts[alert.id].(lastFiredAt := Some(firedAt))];
      if fate.update.Lost? {
        return;
      }
      if fate.notify.Refused? {
        return;
      }
      var l := LedgerOf(db.ledgers, alert.id);
      db.ledgers := db.ledgers[alert.id := l.(fires := l.fires + [Fire(firedAt, alert.cooldown, point)])];
    }

    /** `evaluate`: skipped while one is running; otherwise every enabled alert in turn, whatever
        goes wrong with the ones before it. */
    method Evaluate(order: seq<nat>, fates: seq<Fate>) returns (ghost steps: seq<Step>)
      requires Lists(db.alerts, order) && |fates| == |order|
      modifies this`running, db
      ensures running == old(running)
      ensures old(running) ==> steps == [] && View([], Asking) == old(View([], Asking))
      ensures !old(running) ==>
                Legal(old(View([], Asking)), steps) && Run(old(View([], Asking)), steps) == View([], Asking)
      ensures !old(running) ==>
                View([], Asking) == AfterAll(Next(old(View([], Asking)), Tick(order)), fates).(running := false)
    {
      if running {
        return [];
      }
      ghost var start := View([], Asking);
      hide Legal, Run, Lists, AfterOne;
      Nothing(start);
      Extend(start, [], Tick(order));
      steps := [] + [Tick(order)];
      var batch := Snapshot(db.alerts, order) by { Listed(db.alerts, order); }
      running := true;
      var i := 0;
      ghost var all := AfterAll(View(batch, Asking), fates);
      assert batch[0..] == batch && fates[0..] == fates;
      while i < |batch|
        invariant 0 <= i <= |batch| == |fates| && running
        invariant Legal(start, steps) && Run(start, steps) == View(batch[i..], Asking)
        invariant AfterAll(View(batch[i..], Asking), fates[i..]) == all
      {
        assert batch[i..] == [batch[i]] + batch[i + 1..] && fates[i..][1..] == fates[i + 1..];
        steps := OneIsSteps(start, steps, View(batch[i..], Asking), fates[i]);
        EvaluateOne(batch[i], fates[i], batch[i + 1..]);
        i := i + 1;
      }
      Extend(start, steps, EndTick);
      steps := steps + [EndTick];
      running := false;
    }
  }

  lemma Nothing(st: State)
    ensures Legal(st, []) && Run(st, []) == st
  {
  }

  lemma Listed(alerts: map<nat, Alert>, order: seq<nat>)
    requires Lists(alerts, order)
    ensures forall id :: id in order ==> id in alerts
  {
  }
}

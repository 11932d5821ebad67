/** The alert evaluator and its cooldown (api/src/alerts/alert-evaluator.service.ts), interleaved
    at every await with users editing alerts (api/src/alerts/alerts.service.ts), failing or
    half-failing database writes, crashes, and a clock that may jump. */
module Alerts {
  import opened Prelude
  import opened Anomaly

  datatype Detection = ByZScore | ByIqr | ByThreshold

  /** A row of `alerts`; `settings` stands for the name, the parameters and the channels. */
  datatype Alert = Alert(id: nat, detection: Detection, cooldown: nat, enabled: bool, settings: string,
                         lastFiredAt: Option<int>)

  /** A notification that was fanned out, with the cooldown that allowed it. */
  datatype Fire = Fire(firedAt: int, cooldown: nat, point: AnomalyResult)

  /** What happened for one alert: its `alert_events` rows and its notifications. */
  datatype Ledger = Ledger(rows: seq<AnomalyResult>, fires: seq<Fire>)

  /** Where `evaluateOne` stands for the first alert of the batch. */
  datatype Phase =
    | Asking
    | Recording(point: AnomalyResult, firedAt: int)
    | Updating(point: AnomalyResult, firedAt: int)
    | Notifying(point: AnomalyResult, firedAt: int)

  datatype State = State(now: int, alerts: map<nat, Alert>, ledgers: map<nat, Ledger>, used: set<nat>,
                         running: bool, batch: seq<Alert>, phase: Phase)

  const INIT := State(0, map[], map[], {}, false, [], Asking)

  /** A write succeeds, lands although an error follows, or does not happen. For the notification:
      it went out, it went out and the publish after it failed, or it failed before going out. */
  datatype Write = Landed | Lost | Refused

  datatype Step =
    | Wait(ms: int)
    | Tick(order: seq<nat>)
    | Fetched(reply: Option<seq<AnomalyResult>>, drift: nat)
    | Recorded(result: Write)
    | Updated(result: Write)
    | Notified(result: Write)
    | EndTick
    | Crash(landed: bool)
    | Create(alert: Alert)
    | Edit(id: nat, cooldown: Option<nat>, enabled: Option<bool>, settings: Option<string>)
    | Delete(id: nat)

  // ---------------------------------------------------------------- choosing the point

  /** `[...points].reverse().find(p => p.is_anomaly)`. */
  method FindLastFlagged(points: seq<AnomalyResult>) returns (found: Option<AnomalyResult>)
    ensures found == LastFlagged(points)
  {
    var i := |points|;
    assert points[..|points|] == points;
    while i > 0
      invariant 0 <= i <= |points|
      invariant LastFlagged(points) == LastFlagged(points[..i])
    {
      i := i - 1;
      if points[i].isAnomaly {
        return Some(points[i]);
      }
      assert points[..i + 1][..i] == points[..i];
    }
    return None;
  }

  function LastFlagged(points: seq<AnomalyResult>): Option<AnomalyResult> {
    if points == [] then None
    else if points[|points| - 1].isAnomaly then Some(points[|points| - 1])
    else LastFlagged(points[..|points| - 1])
  }

  predicate NewestFlag(points: seq<AnomalyResult>, i: int) {
    0 <= i < |points| && points[i].isAnomaly && forall j :: i < j < |points| ==> !points[j].isAnomaly
  }

  /** A flagged point followed by a normal one still fires. */
  lemma {:induction false} OldFlagFires(flagged: AnomalyResult, normal: AnomalyResult)
    requires flagged.isAnomaly && !normal.isAnomaly
    ensures LastFlagged([flagged, normal]) == Some(flagged)
  {
    assert [flagged, normal][..1] == [flagged];
  }

  /** MAIN: the evaluator acts on a flagged point anywhere in the series, on the newest one. The
      documented rule, to act only if the most recent point is flagged, is met if and only if the
      most recent point is flagged or no point is. */
  lemma {:induction false} ActsOnAnyFlag(points: seq<AnomalyResult>)
    ensures LastFlagged(points).Some? <==> exists i :: 0 <= i < |points| && points[i].isAnomaly
    ensures LastFlagged(points).Some? ==> exists i :: NewestFlag(points, i) && points[i] == LastFlagged(points).value
    ensures (LastFlagged(points).Some? <==> |points| > 0 && points[|points| - 1].isAnomaly)
              <==> (forall i :: 0 <= i < |points| ==> !points[i].isAnomaly) || points[|points| - 1].isAnomaly
  {
    if points != [] && points[|points| - 1].isAnomaly {
      assert NewestFlag(points, |points| - 1);
    } else if points != [] {
      var rest := points[..|points| - 1];
      ActsOnAnyFlag(rest);
      assert forall i :: 0 <= i < |rest| ==> rest[i] == points[i];
      assert forall i :: 0 <= i < |points| - 1 ==> points[i] == rest[i];
      if LastFlagged(rest).Some? {
        var i :| NewestFlag(rest, i) && rest[i] == LastFlagged(rest).value;
        assert NewestFlag(points, i);
      }
    }
  }

  // ---------------------------------------------------------------- steps

  function LedgerOf(ledgers: map<nat, Ledger>, id: nat): Ledger {
    if id in ledgers then ledgers[id] else Ledger([], [])
  }

  predicate Cleared(alert: Alert, now: int) {
    alert.lastFiredAt.None? || now - alert.lastFiredAt.value >= alert.cooldown * 1000
  }

  /** A listing of the enabled alerts, in whatever order the database returns them. */
  predicate Lists(alerts: map<nat, Alert>, order: seq<nat>) {
    && (forall i, j :: 0 <= i < j < |order| ==> order[i] != order[j])
    && (forall id :: id in order ==> id in alerts && alerts[id].enabled)
    && (forall id :: id in alerts && alerts[id].enabled ==> id in order)
  }

  predicate ValidCooldown(cooldown: nat) {
    60 <= cooldown <= 86400
  }

  predicate Enabled(st: State, step: Step) {
    match step
    case Wait(_) => true
    case Tick(order) => st.running || Lists(st.alerts, order)
    case Fetched(_, _) => st.batch != [] && st.phase.Asking?
    case Recorded(result) => st.batch != [] && st.phase.Recording? && (result.Refused? || st.batch[0].id in st.alerts)
    case Updated(result) => st.batch != [] && st.phase.Updating? && (result.Refused? || st.batch[0].id in st.alerts)
    case Notified(_) => st.batch != [] && st.phase.Notifying?
    case EndTick => st.running && st.batch == []
    case Crash(landed) => landed ==> st.batch != [] && (st.phase.Notifying? || st.batch[0].id in st.alerts)
    case Create(alert) => alert.id !in st.used && ValidCooldown(alert.cooldown) && alert.lastFiredAt.None?
    case Edit(id, cooldown, _, _) => id in st.alerts && (cooldown.Some? ==> ValidCooldown(cooldown.value))
    case Delete(id) => id in st.alerts
  }

  /** `evaluateOne` is done with the first alert. */
  function Pop(st: State): State
    requires st.batch != []
  {
    st.(batch := st.batch[1..], phase := Asking)
  }

  function WithLedger(st: State, id: nat, ledger: Ledger): State {
    st.(ledgers := st.ledgers[id := ledger])
  }

  function AddRow(st: State, id: nat, point: AnomalyResult): State {
    var l := LedgerOf(st.ledgers, id);
    WithLedger(st, id, l.(rows := l.rows + [point]))
  }

  function AddFire(st: State, id: nat, fire: Fire): State {
    var l := LedgerOf(st.ledgers, id);
    WithLedger(st, id, l.(fires := l.fires + [fire]))
  }

  /** The notification of the first alert of the batch. */
  function FireNow(st: State): State
    requires st.batch != [] && st.phase.Notifying?
  {
    AddFire(st, st.batch[0].id, Fire(st.phase.firedAt, st.batch[0].cooldown, st.phase.point))
  }

  function Stamp(st: State, id: nat, firedAt: int): State
    requires id in st.alerts
  {
    st.(alerts := st.alerts[id := st.alerts[id].(lastFiredAt := Some(firedAt))])
  }

  function Snapshot(alerts: map<nat, Alert>, order: seq<nat>): (batch: seq<Alert>)
    requires forall id :: id in order ==> id in alerts
    ensures |batch| == |order| && forall i :: 0 <= i < |order| ==> batch[i] == alerts[order[i]]
  {
    seq(|order|, i requires 0 <= i < |order| => alerts[order[i]])
  }

  function Choose(alert: Alert, reply: Option<seq<AnomalyResult>>, now: int): Option<AnomalyResult> {
    if alert.detection.ByThreshold? || reply.None? || !Cleared(alert, now) then None
    else LastFlagged(reply.value)
  }

  function Next(st: State, step: Step): State
    requires Enabled(st, step)
  {
    match step
    case Wait(ms) => st.(now := st.now + ms)
    case Tick(order) =>
      if st.running then st
      else st.(running := true, batch := Snapshot(st.alerts, order), phase := Asking)
    case Fetched(reply, drift) =>
      var point := Choose(st.batch[0], reply, st.now);
      if point.None? then Pop(st) else st.(now := st.now + drift, phase := Recording(point.value, st.now + drift))
    case Recorded(result) =>
      var id, p := st.batch[0].id, st.phase;
      (match result
       case Landed => AddRow(st, id, p.point).(phase := Updating(p.point, p.firedAt))
       case Lost => Pop(AddRow(st, id, p.point))
       case Refused => Pop(st))
    case Updated(result) =>
      var id, p := st.batch[0].id, st.phase;
      (match result
       case Landed => Stamp(st, id, p.firedAt).(phase := Notifying(p.point, p.firedAt))
       case Lost => Pop(Stamp(st, id, p.firedAt))
       case Refused => Pop(st))
    case Notified(result) => Pop(if result.Refused? then st else FireNow(st))
    case EndTick => st.(running := false)
    case Crash(landed) => Crashed(st, landed).(running := false, batch := [], phase := Asking)
    case Create(alert) => st.(alerts := st.alerts[alert.id := alert], used := st.used + {alert.id})
    case Edit(id, cooldown, enabled, settings) =>
      var a := st.alerts[id];
      st.(alerts := st.alerts[id := a.(cooldown := if cooldown.Some? then cooldown.value else a.cooldown,
                                      enabled := if enabled.Some? then enabled.value else a.enabled,
                                      settings := if settings.Some? then settings.value else a.settings)])
    case Delete(id) => WithLedger(st.(alerts := st.alerts - {id}), id, LedgerOf(st.ledgers, id).(rows := []))
  }

  /** What a crash leaves of the write or the notification that was under way, if it landed. */
  function Crashed(st: State, landed: bool): State
    requires Enabled(st, Crash(landed))
  {
    if !landed then st
    else
      match st.phase
      case Asking => st
      case Recording(point, _) => AddRow(st, st.batch[0].id, point)
      case Updating(_, firedAt) => Stamp(st, st.batch[0].id, firedAt)
      case Notifying(_, _) => FireNow(st)
  }

  /** MAIN: an alert is about to fire with point `p` if and only if it is not a threshold alert, the
      forecast service answered, `p` is the newest flagged point of the answer, and the alert never
      fired or last did so at least its cooldown, in seconds, ago. */
  lemma {:induction false} ChosenIff(alert: Alert, reply: Option<seq<AnomalyResult>>, now: int, p: AnomalyResult)
    ensures Choose(alert, reply, now) == Some(p) <==>
            && alert.detection != ByThreshold && reply.Some?
            && (exists i :: NewestFlag(reply.value, i) && reply.value[i] == p)
            && (alert.lastFiredAt == None || now >= alert.lastFiredAt.value + 1000 * alert.cooldown)
  {
    if reply.Some? {
      var points := reply.value;
      ActsOnAnyFlag(points);
      assert forall i, j :: NewestFlag(points, i) && NewestFlag(points, j) ==> i == j;
      assert forall i :: NewestFlag(points, i) ==> points[i].isAnomaly;
    }
  }

  /** A tick takes up every enabled alert as it is in the table, once, and no other. */
  lemma {:induction false} TickTakesEnabled(st: State, order: seq<nat>)
    requires Enabled(st, Tick(order)) && !st.running && forall id :: id in st.alerts ==> st.alerts[id].id == id
    ensures var batch := Next(st, Tick(order)).batch;
            && (forall i :: 0 <= i < |batch| ==>
                  batch[i].enabled && batch[i].id in st.alerts && batch[i] == st.alerts[batch[i].id])
            && (forall id :: id in st.alerts && st.alerts[id].enabled ==> st.alerts[id] in batch)
            && (forall i, j :: 0 <= i < j < |batch| ==> batch[i].id != batch[j].id)
  {
    var batch := Next(st, Tick(order)).batch;
    forall id | id in st.alerts && st.alerts[id].enabled
      ensures st.alerts[id] in batch
    {
      var i :| 0 <= i < |order| && order[i] == id;
      assert batch[i] == st.alerts[id];
    }
  }

  // ---------------------------------------------------------------- the invariant

  /** No notification is newer than `last`. */
  predicate Below(fires: seq<Fire>, last: Option<int>) {
    forall i :: 0 <= i < |fires| ==> last.Some? && fires[i].firedAt <= last.value
  }

  /** Any two notifications are at least the cooldown of the later one apart. */
  predicate Spaced(fires: seq<Fire>) {
    forall i, j :: 0 <= i < j < |fires| ==> fires[j].firedAt - fires[i].firedAt >= fires[j].cooldown * 1000
  }

  predicate ValidFires(fires: seq<Fire>) {
    forall i :: 0 <= i < |fires| ==> ValidCooldown(fires[i].cooldown)
  }

  predicate Backed(ledger: Ledger) {
    forall i :: 0 <= i < |ledger.fires| ==> ledger.fires[i].point in ledger.rows
  }

  /** An alert that exists, and what happened for it. */
  predicate AlertOk(alert: Alert, ledger: Ledger) {
    ValidCooldown(alert.cooldown) && Below(ledger.fires, alert.lastFiredAt) && Backed(ledger)
  }

  predicate SnapshotOk(alert: Alert, fires: seq<Fire>) {
    ValidCooldown(alert.cooldown) && Below(fires, alert.lastFiredAt)
  }

  predicate PhaseOk(alerts: map<nat, Alert>, ledgers: map<nat, Ledger>, batch: seq<Alert>, phase: Phase) {
    batch != [] && !phase.Asking? ==>
      var id := batch[0].id;
      && Cleared(batch[0], phase.firedAt)
      && (id in alerts && (phase.Updating? || phase.Notifying?) ==> phase.point in LedgerOf(ledgers, id).rows)
      && (id in alerts && phase.Notifying? ==> alerts[id].lastFiredAt == Some(phase.firedAt))
  }

  predicate LedgersOk(ledgers: map<nat, Ledger>, used: set<nat>) {
    forall id :: id in ledgers ==> id in used && Spaced(ledgers[id].fires) && ValidFires(ledgers[id].fires)
  }

  predicate AlertsOk(alerts: map<nat, Alert>, ledgers: map<nat, Ledger>, used: set<nat>) {
    forall id :: id in alerts ==> alerts[id].id == id && id in used && AlertOk(alerts[id], LedgerOf(ledgers, id))
  }

  predicate BatchOk(ledgers: map<nat, Ledger>, used: set<nat>, batch: seq<Alert>) {
    && (forall i :: 0 <= i < |batch| ==>
          batch[i].id in used && SnapshotOk(batch[i], LedgerOf(ledgers, batch[i].id).fires))
    && (forall i, j :: 0 <= i < j < |batch| ==> batch[i].id != batch[j].id)
  }

  predicate Inv(st: State) {
    && LedgersOk(st.ledgers, st.used)
    && AlertsOk(st.alerts, st.ledgers, st.used)
    && BatchOk(st.ledgers, st.used, st.batch)
    && PhaseOk(st.alerts, st.ledgers, st.batch, st.phase)
    && (!st.running ==> st.batch == []) && (st.batch == [] ==> st.phase.Asking?)
  }

  lemma LedgerPut(ledgers: map<nat, Ledger>, id: nat, l: Ledger)
    ensures LedgerOf(ledgers[id := l], id) == l
    ensures forall o :: o != id ==> LedgerOf(ledgers[id := l], o) == LedgerOf(ledgers, o)
  {
  }

  lemma LedgersPut(ledgers: map<nat, Ledger>, used: set<nat>, id: nat, l: Ledger)
    requires LedgersOk(ledgers, used) && id in used && Spaced(l.fires) && ValidFires(l.fires)
    ensures LedgersOk(ledgers[id := l], used)
  {
    hide Spaced, ValidFires;
  }

  lemma LedgerSound(ledgers: map<nat, Ledger>, used: set<nat>, id: nat)
    requires LedgersOk(ledgers, used)
    ensures Spaced(LedgerOf(ledgers, id).fires) && ValidFires(LedgerOf(ledgers, id).fires)
  {
  }

  /** One alert has a new ledger. */
  lemma {:induction false} AlertsPut(alerts: map<nat, Alert>, ledgers: map<nat, Ledger>, used: set<nat>, id: nat,
                                     later: Ledger)
    requires AlertsOk(alerts, ledgers, used)
    requires id in alerts ==> AlertOk(alerts[id], later)
    ensures AlertsOk(alerts, ledgers[id := later], used)
  {
    LedgerPut(ledgers, id, later);
    hide LedgerOf, AlertOk;
  }

  lemma {:induction false} BatchPut(ledgers: map<nat, Ledger>, used: set<nat>, batch: seq<Alert>, id: nat,
                                    later: Ledger)
    requires BatchOk(ledgers, used, batch) && later.fires == LedgerOf(ledgers, id).fires
    ensures BatchOk(ledgers[id := later], used, batch)
  {
    LedgerPut(ledgers, id, later);
    hide LedgerOf, SnapshotOk;
  }

  lemma {:induction false} BatchPop(ledgers: map<nat, Ledger>, used: set<nat>, batch: seq<Alert>, later: Ledger)
    requires BatchOk(ledgers, used, batch) && batch != []
    ensures BatchOk(ledgers[batch[0].id := later], used, batch[1..])
  {
    LedgerPut(ledgers, batch[0].id, later);
    hide LedgerOf, SnapshotOk;
  }

  lemma {:induction false} WaitInv(st: State, step: Step)
    requires Inv(st) && Enabled(st, step) && step.Wait?
    ensures Inv(Next(st, step))
  {
    hide LastFlagged;
  }

  lemma {:induction false} TickInv(st: State, step: Step)
    requires Inv(st) && Enabled(st, step) && step.Tick?
    ensures Inv(Next(st, step))
  {
    hide LastFlagged;
  }

  lemma {:induction false} FetchedInv(st: State, step: Step)
    requires Inv(st) && Enabled(st, step) && step.Fetched?
    ensures Inv(Next(st, step))
  {
    hide LastFlagged;
  }

  /** A row is added for the first alert of the batch. */
  lemma {:induction false} RowInv(st: State, next: Phase)
    requires Inv(st) && Enabled(st, Recorded(Landed)) && next == Updating(st.phase.point, st.phase.firedAt)
    ensures Inv(AddRow(st, st.batch[0].id, st.phase.point).(phase := next))
  {
    var id, p := st.batch[0].id, st.phase;
    var l := LedgerOf(st.ledgers, id);
    var later := l.(rows := l.rows + [p.point]);
    LedgerPut(st.ledgers, id, later);
    LedgerSound(st.ledgers, st.used, id);
    LedgersPut(st.ledgers, st.used, id, later);
    AlertsPut(st.alerts, st.ledgers, st.used, id, later);
    BatchPut(st.ledgers, st.used, st.batch, id, later);
    hide LedgersOk, LedgerOf, AlertsOk, BatchOk, Cleared;
  }

  /** `lastFiredAt` is moved for the first alert of the batch. */
  lemma {:induction false} StampInv(st: State, next: Phase)
    requires Inv(st) && Enabled(st, Updated(Landed)) && next == Notifying(st.phase.point, st.phase.firedAt)
    ensures Inv(Stamp(st, st.batch[0].id, st.phase.firedAt).(phase := next))
  {
    hide Spaced, ValidFires, Backed;
  }

  lemma {:induction false} PopInv(st: State)
    requires Inv(st) && st.batch != []
    ensures Inv(Pop(st))
  {
    hide Spaced, ValidFires, SnapshotOk, AlertOk, LedgerOf;
  }

  /** The notification of the first alert of the batch, after which it is done. */
  lemma {:induction false} FireInv(st: State)
    requires Inv(st) && st.batch != [] && st.phase.Notifying?
    ensures Inv(Pop(FireNow(st)))
  {
    var a, p, l := st.batch[0], st.phase, LedgerOf(st.ledgers, st.batch[0].id);
    var later := l.(fires := l.fires + [Fire(p.firedAt, a.cooldown, p.point)]);
    LedgerSound(st.ledgers, st.used, a.id);
    NewFire(a, l.fires, p.firedAt, p.point);
    LedgersPut(st.ledgers, st.used, a.id, later);
    AlertsPut(st.alerts, st.ledgers, st.used, a.id, later);
    BatchPop(st.ledgers, st.used, st.batch, later);
    hide LedgersOk, LedgerOf, AlertsOk, BatchOk, Cleared;
  }

  /** The cooldown test against the last fire spaces a new fire from all earlier ones. */
  lemma {:induction false} NewFire(a: Alert, fires: seq<Fire>, firedAt: int, point: AnomalyResult)
    requires Spaced(fires) && ValidFires(fires) && SnapshotOk(a, fires) && Cleared(a, firedAt)
    ensures Spaced(fires + [Fire(firedAt, a.cooldown, point)]) && ValidFires(fires + [Fire(firedAt, a.cooldown, point)])
    ensures Below(fires + [Fire(firedAt, a.cooldown, point)], Some(firedAt))
  {
  }

  /** The test and the stamp read the clock twice. A passed test keeps its distance at the stamp if
      and only if the clock does not step back in between. */
  lemma {:induction false} StampKeepsDistanceIff(a: Alert, drift: int)
    ensures drift >= 0 <==>
            forall last, now :: Cleared(a.(lastFiredAt := Some(last)), now) ==>
                Cleared(a.(lastFiredAt := Some(last)), now + drift)
  {
    var b := a.(lastFiredAt := Some(0));
    assert Cleared(b, a.cooldown * 1000);
    if drift < 0 {
      assert !Cleared(b, a.cooldown * 1000 + drift);
    }
  }

  lemma {:induction false} RecordedInv(st: State, step: Step)
    requires Inv(st) && Enabled(st, step) && step.Recorded?
    ensures Inv(Next(st, step))
  {
    if step.result.Refused? {
      PopInv(st);
    } else {
      var recorded := AddRow(st, st.batch[0].id, st.phase.point).(phase := Updating(st.phase.point, st.phase.firedAt));
      RowInv(st, recorded.phase);
      PopInv(recorded);
    }
    hide Inv, LedgerOf;
  }

  lemma {:induction false} UpdatedInv(st: State, step: Step)
    requires Inv(st) && Enabled(st, step) && step.Updated?
    ensures Inv(Next(st, step))
  {
    if step.result.Refused? {
      PopInv(st);
    } else {
      var updated := Stamp(st, st.batch[0].id, st.phase.firedAt).(phase := Notifying(st.phase.point, st.phase.firedAt));
      StampInv(st, updated.phase);
      PopInv(updated);
    }
    hide Inv;
  }

  lemma {:induction false} NotifiedInv(st: State, step: Step)
    requires Inv(st) && Enabled(st, step) && step.Notified?
    ensures Inv(Next(st, step))
  {
    PopInv(st);
    FireInv(st);
    hide Inv, FireNow;
  }

  lemma {:induction false} EndTickInv(st: State, step: Step)
    requires Inv(st) && Enabled(st, step) && step.EndTick?
    ensures Inv(Next(st, step))
  {
    hide LastFlagged;
  }

  lemma {:induction false} DropInv(st: State)
    requires Inv(st) && st.phase.Asking?
    ensures Inv(st.(running := false, batch := [], phase := Asking))
  {
    hide LastFlagged, Spaced, ValidFires, Backed, Below;
  }

  /** A crash is the end of what was under way, landed or not, and then the batch is forgotten. */
  lemma {:induction false} CrashInv(st: State, step: Step)
    requires Inv(st) && Enabled(st, step) && step.Crash?
    ensures Inv(Next(st, step))
  {
    hide LastFlagged, LedgerOf;
    var result := if step.landed then Lost else Refused;
    var left := if st.batch == [] || st.phase.Asking? then st
                else if st.phase.Recording? then Next(st, Recorded(result))
                else if st.phase.Updating? then Next(st, Updated(result))
                else Next(st, Notified(result));
    if st.batch != [] {
      match st.phase
      case Asking =>
      case Recording(_, _) => RecordedInv(st, Recorded(result));
      case Updating(_, _) => UpdatedInv(st, Updated(result));
      case Notifying(_, _) => NotifiedInv(st, Notified(result));
    }
    hide Inv;
    DropInv(left);
  }

  lemma {:induction false} CreateAlerts(st: State, alert: Alert)
    requires LedgersOk(st.ledgers, st.used) && AlertsOk(st.alerts, st.ledgers, st.used) && Enabled(st, Create(alert))
    ensures AlertsOk(st.alerts[alert.id := alert], st.ledgers, st.used + {alert.id})
  {
    assert alert.id !in st.ledgers;
    assert AlertOk(alert, LedgerOf(st.ledgers, alert.id));
    hide LedgersOk, AlertOk, LedgerOf;
  }

  lemma {:induction false} CreateInv(st: State, step: Step)
    requires Inv(st) && Enabled(st, step) && step.Create?
    ensures Inv(Next(st, step))
  {
    CreateAlerts(st, step.alert);
    hide AlertsOk, SnapshotOk, LedgerOf, Spaced, ValidFires, Cleared;
  }

  lemma AlertOkEdited(alert: Alert, edited: Alert, ledger: Ledger)
    requires AlertOk(alert, ledger) && ValidCooldown(edited.cooldown) && edited.lastFiredAt == alert.lastFiredAt
    ensures AlertOk(edited, ledger)
  {
  }

  lemma {:induction false} EditInv(st: State, step: Step)
    requires Inv(st) && Enabled(st, step) && step.Edit?
    ensures Inv(Next(st, step))
  {
    var id := step.id;
    var edited := Next(st, step).alerts[id];
    AlertOkEdited(st.alerts[id], edited, LedgerOf(st.ledgers, id));
    hide LastFlagged, LedgersOk, BatchOk, AlertOk, LedgerOf, Cleared;
  }

  lemma {:induction false} DeleteAlerts(st: State, id: nat, later: Ledger)
    requires AlertsOk(st.alerts, st.ledgers, st.used)
    ensures AlertsOk(st.alerts - {id}, st.ledgers[id := later], st.used)
  {
    LedgerPut(st.ledgers, id, later);
    hide LedgerOf, AlertOk;
  }

  lemma {:induction false} DeleteInv(st: State, step: Step)
    requires Inv(st) && Enabled(st, step) && step.Delete?
    ensures Inv(Next(st, step))
  {
    var l := LedgerOf(st.ledgers, step.id);
    var later := l.(rows := []);
    LedgerPut(st.ledgers, step.id, later);
    LedgerSound(st.ledgers, st.used, step.id);
    LedgersPut(st.ledgers, st.used, step.id, later);
    DeleteAlerts(st, step.id, later);
    BatchPut(st.ledgers, st.used, st.batch, step.id, later);
    hide LastFlagged, LedgersOk, LedgerOf, AlertsOk, BatchOk, Cleared;
  }

  /** MAIN: every step keeps the invariant. */
  lemma {:induction false} StepInv(st: State, step: Step)
    requires Inv(st) && Enabled(st, step)
    ensures Inv(Next(st, step))
  {
    hide Inv, Next;
    match step
    case Wait(_) => WaitInv(st, step);
    case Tick(_) => TickInv(st, step);
    case Fetched(_, _) => FetchedInv(st, step);
    case Recorded(_) => RecordedInv(st, step);
    case Updated(_) => UpdatedInv(st, step);
    case Notified(_) => NotifiedInv(st, step);
    case EndTick => EndTickInv(st, step);
    case Crash(_) => CrashInv(st, step);
    case Create(_) => CreateInv(st, step);
    case Edit(_, _, _, _) => EditInv(st, step);
    case Delete(_) => DeleteInv(st, step);
  }

  // ---------------------------------------------------------------- over whole runs

  predicate Legal(st: State, steps: seq<Step>)
    decreases |steps|
  {
    steps == [] || (Enabled(st, steps[0]) && Legal(Next(st, steps[0]), steps[1..]))
  }

  function Run(st: State, steps: seq<Step>): State
    requires Legal(st, steps)
    decreases |steps|
  {
    if steps == [] then st else Run(Next(st, steps[0]), steps[1..])
  }

  lemma {:induction false} RunInv(st: State, steps: seq<Step>)
    requires Inv(st) && Legal(st, steps)
    ensures Inv(Run(st, steps))
    decreases |steps|
  {
    hide Inv, Next, Enabled;
    if steps != [] {
      StepInv(st, steps[0]);
      RunInv(Next(st, steps[0]), steps[1..]);
    }
  }

  /** MAIN: in every run, whatever fails or crashes, whoever edits the alert and however the clock
      jumps between evaluations, two notifications of one alert are at least the cooldown of the later one apart. */
  lemma {:induction false} FiresAreSpaced(steps: seq<Step>, id: nat, i: nat, j: nat)
    requires Legal(INIT, steps)
    requires i < j < |LedgerOf(Run(INIT, steps).ledgers, id).fires|
    ensures var fires := LedgerOf(Run(INIT, steps).ledgers, id).fires;
            fires[j].firedAt - fires[i].firedAt >= fires[j].cooldown * 1000 >= 60_000
  {
    RunInv(INIT, steps);
    var st := Run(INIT, steps);
    LedgerSound(st.ledgers, st.used, id);
    hide Legal, Run, LedgersOk, AlertsOk, BatchOk;
  }

  // ---------------------------------------------------------------- rows and failures

  /** In this step a row of alert `id` misses its notification: the reply to its insert is lost, the
      update of `lastFiredAt` fails or its reply is lost, the notification fails before going out, or
      the process dies in between. */
  predicate Fails(st: State, step: Step, id: nat) {
    && st.batch != [] && st.batch[0].id == id
    && match step
       case Recorded(result) => result.Lost?
       case Updated(result) => !result.Landed?
       case Notified(result) => result.Refused?
       case Crash(landed) =>
         (match st.phase
          case Asking => false
          case Recording(_, _) => landed
          case Updating(_, _) => true
          case Notifying(_, _) => !landed)
       case _ => false
  }

  /** How many steps of a run failed in this way for alert `id`. */
  function Failures(st: State, steps: seq<Step>, id: nat): nat
    requires Legal(st, steps)
    decreases |steps|
  {
    if steps == [] then 0
    else (if Fails(st, steps[0], id) then 1 else 0) + Failures(Next(st, steps[0]), steps[1..], id)
  }

  /** Whether alert `id` is being fired and has its row already. */
  predicate Open(st: State, id: nat) {
    st.batch != [] && st.batch[0].id == id && (st.phase.Updating? || st.phase.Notifying?)
  }

  /** Rows beyond the notifications, not counting the fire under way. */
  function Surplus(st: State, id: nat): int {
    var l := LedgerOf(st.ledgers, id);
    |l.rows| - |l.fires| - (if Open(st, id) then 1 else 0)
  }

  lemma {:induction false} StepSurplus(st: State, step: Step, id: nat)
    requires Enabled(st, step) && !(step.Delete? && step.id == id)
    requires (!st.running ==> st.batch == []) && (st.batch == [] ==> st.phase.Asking?)
    ensures Surplus(Next(st, step), id) == Surplus(st, id) + (if Fails(st, step, id) then 1 else 0)
  {
    hide LastFlagged, Snapshot;
  }

  /** A deleted alert never comes back. */
  lemma {:induction false} GoneForever(st: State, steps: seq<Step>, id: nat)
    requires Inv(st) && Legal(st, steps) && id in st.used && id !in st.alerts
    ensures id !in Run(st, steps).alerts
    decreases |steps|
  {
    if steps != [] {
      StepInv(st, steps[0]);
      GoneStep(st, steps[0], id);
      hide Inv, Next, Enabled;
      GoneForever(Next(st, steps[0]), steps[1..], id);
    }
  }

  lemma {:induction false} GoneStep(st: State, step: Step, id: nat)
    requires Enabled(st, step) && id in st.used && id !in st.alerts
    ensures id in Next(st, step).used && id !in Next(st, step).alerts
  {
    hide LastFlagged, LedgerOf;
  }

  lemma {:induction false} RunSurplus(st: State, steps: seq<Step>, id: nat)
    requires Inv(st) && Legal(st, steps) && id in Run(st, steps).alerts
    ensures Surplus(Run(st, steps), id) == Surplus(st, id) + Failures(st, steps, id)
    decreases |steps|
  {
    if steps != [] {
      var next := Next(st, steps[0]);
      StepInv(st, steps[0]);
      if steps[0].Delete? && steps[0].id == id {
        AlertsAreUsed(st, id);
        GoneForever(next, steps[1..], id);
      }
      StepSurplus(st, steps[0], id);
      hide Inv, Next, Enabled, Surplus, Fails;
      RunSurplus(next, steps[1..], id);
    }
  }

  lemma AlertsAreUsed(st: State, id: nat)
    requires Inv(st) && id in st.alerts
    ensures id in st.used
  {
  }

  /** MAIN: in every run, an existing alert has exactly one row for every notification, one for
      every failure of the run, and one for the fire under way; every notification has its row. */
  lemma {:induction false} RowsAreAccounted(steps: seq<Step>, id: nat)
    requires Legal(INIT, steps) && id in Run(INIT, steps).alerts
    ensures var st := Run(INIT, steps);
            var l := LedgerOf(st.ledgers, id);
            && |l.rows| == |l.fires| + Failures(INIT, steps, id) + (if Open(st, id) then 1 else 0)
            && forall k :: 0 <= k < |l.fires| ==> l.fires[k].point in l.rows
  {
    RunInv(INIT, steps);
    RunSurplus(INIT, steps, id);
    assert Surplus(INIT, id) == 0;
    hide Legal, Run, LedgersOk, BatchOk, LedgerOf, Failures;
  }

  /** A deleted alert has no rows. */
  predicate NoOrphans(st: State) {
    forall id :: id in st.ledgers && id !in st.alerts ==> st.ledgers[id].rows == []
  }

  lemma {:induction false} OrphansStep(st: State, step: Step)
    requires NoOrphans(st) && Enabled(st, step)
    ensures NoOrphans(Next(st, step))
  {
    hide LastFlagged, Cleared, Snapshot, Lists;
  }

  lemma {:induction false} OrphansRun(st: State, steps: seq<Step>)
    requires NoOrphans(st) && Legal(st, steps)
    ensures NoOrphans(Run(st, steps))
    decreases |steps|
  {
    hide NoOrphans, Next, Enabled;
    if steps != [] {
      OrphansStep(st, steps[0]);
      OrphansRun(Next(st, steps[0]), steps[1..]);
    }
  }

  /** MAIN: the extra rows of any alert, deleted ones included, are bounded by the failures of the
      run and the fire under way. */
  lemma {:induction false} ExtraRowsAreFailures(steps: seq<Step>, id: nat)
    requires Legal(INIT, steps)
    ensures var l := LedgerOf(Run(INIT, steps).ledgers, id);
            |l.rows| <= |l.fires| + Failures(INIT, steps, id) + 1
  {
    OrphansRun(INIT, steps);
    if id in Run(INIT, steps).alerts {
      RowsAreAccounted(steps, id);
    }
  }

  // ---------------------------------------------------------------- how many in a span

  /** How many notifications carry a time in [from, to]. */
  function Within(fires: seq<Fire>, from: int, to: int): nat {
    if fires == [] then 0
    else (if from <= fires[0].firedAt <= to then 1 else 0) + Within(fires[1..], from, to)
  }

  /** The notifications after the first start a gap later. */
  lemma {:induction false} SpacedWithin(fires: seq<Fire>, from: int, to: int, gap: nat, low: int)
    requires Spaced(fires) && forall i :: 0 <= i < |fires| ==> fires[i].cooldown * 1000 >= gap
    requires from <= low && forall i :: 0 <= i < |fires| ==> fires[i].firedAt >= low
    ensures Within(fires, from, to) > 0 ==> (Within(fires, from, to) - 1) * gap <= to - low
  {
    if fires != [] {
      var at, rest := fires[0].firedAt, fires[1..];
      assert forall i :: 0 <= i < |rest| ==>
        rest[i] == fires[i + 1] && rest[i].firedAt - at >= fires[i + 1].cooldown * 1000;
      SpacedWithin(rest, from, to, gap, at + gap);
      var n := Within(rest, from, to);
      hide Within, Spaced;
      OneMore(n, gap);
      WithinHead(fires, from, to);
    }
  }

  lemma WithinHead(fires: seq<Fire>, from: int, to: int)
    requires fires != []
    ensures Within(fires, from, to) == (if from <= fires[0].firedAt <= to then 1 else 0) + Within(fires[1..], from, to)
  {
  }

  lemma OneMore(n: nat, gap: nat)
    ensures n * gap == (n - 1) * gap + gap
  {
  }

  /** Whole multiples that fit are at most the quotient. */
  lemma FitsQuotient(m: nat, gap: nat, span: nat)
    requires gap > 0 && m * gap <= span
    ensures m <= span / gap
  {
    assert span < (span / gap + 1) * gap;
    if span / gap + 1 <= m {
      MulMonotone(span / gap + 1, m, gap);
    }
  }

  /** Only the notifications inside the span matter. */
  lemma {:induction false} WithinSuffix(fires: seq<Fire>, from: int, to: int, gap: nat)
    requires gap > 0 && Spaced(fires) && forall i :: 0 <= i < |fires| ==> fires[i].cooldown * 1000 >= gap
    requires from <= to
    ensures Within(fires, from, to) <= (to - from) / gap + 1
  {
    if fires == [] {
      FitsQuotient(0, gap, to - from);
    } else if fires[0].firedAt >= from {
      SpacedWithin(fires, from, to, gap, from);
      var n := Within(fires, from, to);
      hide Within;
      FitsQuotient(if n > 0 then n - 1 else 0, gap, to - from);
    } else {
      WithinSuffix(fires[1..], from, to, gap);
    }
  }

  /** MAIN: in any span of time, an alert whose cooldown never was below `cooldown` seconds is
      notified at most span / cooldown (rounded down) plus one times. */
  lemma {:induction false} FiresPerSpan(steps: seq<Step>, id: nat, from: int, to: int, cooldown: nat)
    requires Legal(INIT, steps) && cooldown > 0 && from <= to
    requires forall i :: 0 <= i < |LedgerOf(Run(INIT, steps).ledgers, id).fires|
               ==> LedgerOf(Run(INIT, steps).ledgers, id).fires[i].cooldown >= cooldown
    ensures Within(LedgerOf(Run(INIT, steps).ledgers, id).fires, from, to) <= (to - from) / (cooldown * 1000) + 1
  {
    RunInv(INIT, steps);
    var st := Run(INIT, steps);
    LedgerSound(st.ledgers, st.used, id);
    hide Inv, Legal, Run;
    WithinSuffix(LedgerOf(st.ledgers, id).fires, from, to, cooldown * 1000);
  }
}

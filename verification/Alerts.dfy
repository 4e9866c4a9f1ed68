/** The alert lifecycle of one (store, SKU): one row per alert type (the fingerprint is unique), changed by
    engine syncs, acknowledgements and owner resolutions. Scores are whole numbers, z-scores hundredths. */
module Alerts {
  import opened Options

  datatype AlertType = LowStock | Stockout | Overstock | SlowMoving | DeadStock | UnusualDemand
  datatype Severity = Info | Warning | Critical
  datatype Status = Open | Acknowledged | Resolved
  datatype Level = Low | Medium | High | Severe
  datatype Resolver = User | Engine

  datatype Ack = Ack(actor: Option<int>, at: int, note: Option<string>)
  /** reasonJson.lifecycle; everything absent when the key is missing. */
  datatype Lifecycle = Lifecycle(ack: Option<Ack>, resolvedBy: Option<Resolver>, resolvedById: Option<int>)
  const NO_LIFECYCLE := Lifecycle(None, None, None)

  datatype Row = Row(status: Status, severity: Severity, riskScore: int, confidence: int, lifecycle: Lifecycle,
      openedAt: int, resolvedAt: Option<int>)

  datatype Anomaly = NoAnomaly | CriticalSpike(z: int) | OtherAnomaly(z: int)

  datatype Evaluation = Evaluation(availableStock: int, reorderPoint: int, stockoutScore: int, stockoutLevel: Level,
      overstockScore: int, isSlowMoving: bool, isDeadStock: bool, deadStockCritical: bool, confidence: int,
      anomaly: Anomaly, highRiskThreshold: int, criticalRiskThreshold: int)

  datatype Trigger = Trigger(kind: AlertType, severity: Severity, riskScore: int)

  const ALL_TYPES: seq<AlertType> := [LowStock, Stockout, Overstock, SlowMoving, DeadStock, UnusualDemand]

  // ---- classifyRisk and the triggers -----------------------------------------------------------------

  predicate OutOfStock(e: Evaluation) { e.availableStock <= 0 }

  predicate StockoutRisk(e: Evaluation) {
    OutOfStock(e) || e.availableStock <= e.reorderPoint || e.stockoutScore >= e.highRiskThreshold
  }

  predicate OverstockRisk(e: Evaluation) { e.overstockScore >= e.highRiskThreshold }

  /** Math.min(100, Math.round(|z| * 20)) for z in hundredths. */
  function AnomalyScore(z: int): int {
    var a := if z < 0 then -z else z;
    var rounded := (2 * a + 5) / 10;
    if rounded < 100 then rounded else 100
  }

  function LowStockSeverity(level: Level): Severity {
    if level == Severe then Critical else if level == High then Warning else Info
  }

  function StockTrigger(e: Evaluation): seq<Trigger> {
    if OutOfStock(e) then [Trigger(Stockout, Critical, 100)]
    else if StockoutRisk(e) then
      [Trigger(LowStock, LowStockSeverity(e.stockoutLevel), e.stockoutScore)]
    else []
  }

  function ExcessTrigger(e: Evaluation): seq<Trigger> {
    if e.isDeadStock then [Trigger(DeadStock, if e.deadStockCritical then Critical else Warning, e.overstockScore)]
    else if OverstockRisk(e) then
      [Trigger(Overstock, if e.overstockScore >= e.criticalRiskThreshold then Warning else Info, e.overstockScore)]
    else []
  }

  function SlowTrigger(e: Evaluation): seq<Trigger> {
    if !e.isDeadStock && e.isSlowMoving then [Trigger(SlowMoving, Warning, 0)] else []
  }

  function DemandTrigger(e: Evaluation): seq<Trigger> {
    match e.anomaly
    case NoAnomaly => []
    case CriticalSpike(z) => [Trigger(UnusualDemand, Critical, AnomalyScore(z))]
    case OtherAnomaly(z) => [Trigger(UnusualDemand, Warning, AnomalyScore(z))]
  }

  function Triggers(e: Evaluation): seq<Trigger> {
    StockTrigger(e) + ExcessTrigger(e) + SlowTrigger(e) + DemandTrigger(e)
  }

  ghost predicate Active(e: Evaluation, t: AlertType) {
    exists g :: g in Triggers(e) && g.kind == t
  }

  // ---- What one sync does to one row ---------------------------------------------------------------

  predicate Live(r: Option<Row>) {
    r.Some? && r.value.status != Resolved
  }

  predicate UserResolved(r: Option<Row>) {
    r.Some? && r.value.status == Resolved && r.value.lifecycle.resolvedBy == Some(User)
  }

  /** The row of a type whose trigger is active: created, left to its owner, reopened or refreshed. */
  function Raised(r: Option<Row>, g: Trigger, confidence: int, now: int): Row {
    if r.None? then Row(Open, g.severity, g.riskScore, confidence, NO_LIFECYCLE, now, None)
    else if UserResolved(r) then r.value
    else
      var updated := r.value.(severity := g.severity, riskScore := g.riskScore, confidence := confidence);
      if r.value.status == Resolved
      then updated.(status := Open, openedAt := now, resolvedAt := None, lifecycle := NO_LIFECYCLE)
      else updated
  }

  /** The status UPDATE of a type without a trigger. */
  function Closed(inactive: bool, r: Row, now: int): Row {
    if inactive && r.status != Resolved then r.(status := Resolved, resolvedAt := Some(now)) else r
  }

  /** The JSON_SET UPDATE of a type without a trigger. */
  function Returned(inactive: bool, r: Row): Row {
    if inactive && UserResolved(Some(r)) then r.(lifecycle := r.lifecycle.(resolvedBy := Some(Engine))) else r
  }

  /** The row of a type without a trigger: resolved, and handed back to the engine if its owner had it. */
  function Cleared(r: Row, now: int): Row {
    Returned(true, Closed(true, r, now))
  }

  /** A created or reopened alert is announced. */
  predicate Edge(r: Option<Row>) {
    !Live(r) && !UserResolved(r)
  }

  type Rows = map<AlertType, Row>
  datatype State = State(rows: Rows, notified: seq<AlertType>)

  function At(rows: Rows, t: AlertType): Option<Row> {
    if t in rows then Some(rows[t]) else None
  }

  function WithRaised(s: State, g: Trigger, confidence: int, now: int): State {
    State(s.rows[g.kind := Raised(At(s.rows, g.kind), g, confidence, now)],
          if Edge(At(s.rows, g.kind)) then s.notified + [g.kind] else s.notified)
  }

  /** The upserts, trigger by trigger. */
  function RaisedAll(s: State, gs: seq<Trigger>, confidence: int, now: int): State {
    if gs == [] then s else WithRaised(RaisedAll(s, gs[..|gs| - 1], confidence, now), gs[|gs| - 1], confidence, now)
  }

  ghost function ClearedAll(rows: Rows, e: Evaluation, now: int): Rows {
    map t | t in rows :: if Active(e, t) then rows[t] else Cleared(rows[t], now)
  }

  ghost function Synced(s: State, e: Evaluation, now: int): State {
    var up := RaisedAll(s, Triggers(e), e.confidence, now);
    up.(rows := ClearedAll(up.rows, e, now))
  }

  // ---- Acknowledge and resolve -----------------------------------------------------------------------

  datatype Error = NotFound | AlreadyResolved

  predicate IsSpace(c: char) { c in {' ', '\t', '\n', '\r', '\U{0B}', '\U{0C}'} }

  function TrimLeft(s: string): string { if s != [] && IsSpace(s[0]) then TrimLeft(s[1..]) else s }
  function TrimRight(s: string): string
    decreases |s|
  {
    if s != [] && IsSpace(s[|s| - 1]) then TrimRight(s[..|s| - 1]) else s
  }

  /** options.note?.trim() || null. */
  function CleanNote(note: Option<string>): Option<string> {
    if note.None? then None else
    var trimmed := TrimLeft(TrimRight(note.value));
    if trimmed == "" then None else Some(trimmed)
  }

  predicate GivesNote(note: Option<string>) { note.Some? && note.value != "" }

  function AcknowledgedState(s: State, t: AlertType, actor: Option<int>, note: Option<string>, now: int)
    : (State, Option<Error>)
  {
    if t !in s.rows then (s, Some(NotFound))
    else if s.rows[t].status == Resolved then (s, Some(AlreadyResolved))
    else if s.rows[t].status == Acknowledged && !GivesNote(note) then (s, None)
    else
      var r := s.rows[t];
      (s.(rows := s.rows[t := r.(status := Acknowledged,
                                 lifecycle := r.lifecycle.(ack := Some(Ack(actor, now, CleanNote(note)))))]), None)
  }

  function ResolvedState(s: State, t: AlertType, actor: Option<int>, now: int): (State, Option<Error>) {
    if t !in s.rows then (s, Some(NotFound))
    else if s.rows[t].status == Resolved then (s, None)
    else
      var r := s.rows[t];
      (s.(rows := s.rows[t := r.(status := Resolved, resolvedAt := Some(now),
                                 lifecycle := r.lifecycle.(resolvedBy := Some(User), resolvedById := actor))]), None)
  }

  // ---- The service -----------------------------------------------------------------------------------

  class AlertService {
    var rows: Rows
    var notified: seq<AlertType>

    ghost function Model(): State
      reads this
    {
      State(rows, notified)
    }

    constructor ()
      ensures Model() == State(map[], [])
    {
      rows, notified := map[], [];
    }

    method SyncAlertsForSku(e: Evaluation, now: int)
      modifies this
      ensures Model() == old(Synced(Model(), e, now))
    {
      var active := ActiveTypes(e);
      RaiseTriggers(Triggers(e), e.confidence, now);
      ghost var up := Model();
      ResolveInactive(active, now);
      HandBack(active);
      assert rows.Keys == ClearedAll(up.rows, e, now).Keys;
      assert rows == ClearedAll(up.rows, e, now);
    }

    method ActiveTypes(e: Evaluation) returns (active: set<AlertType>)
      ensures forall t :: t in active <==> Active(e, t)
    {
      var triggers := Triggers(e);
      active := {};
      for i := 0 to |triggers|
        invariant forall t :: t in active <==> exists k :: 0 <= k < i && triggers[k].kind == t
      {
        active := active + {triggers[i].kind};
      }
      forall t ensures t in active <==> Active(e, t) {
        if t in active {
          var k :| 0 <= k < |triggers| && triggers[k].kind == t;
          assert triggers[k] in triggers;
        }
      }
    }

    method RaiseTriggers(triggers: seq<Trigger>, confidence: int, now: int)
      modifies this
      ensures Model() == old(RaisedAll(Model(), triggers, confidence, now))
    {
      ghost var s0 := Model();
      for i := 0 to |triggers|
        invariant Model() == RaisedAll(s0, triggers[..i], confidence, now)
      {
        var g := triggers[i];
        assert triggers[..i + 1][..i] == triggers[..i];
        if g.kind !in rows {
          rows := rows[g.kind := Row(Open, g.severity, g.riskScore, confidence, NO_LIFECYCLE, now, None)];
          notified := notified + [g.kind];
        } else {
          var existing := rows[g.kind];
          if !(existing.status == Resolved && existing.lifecycle.resolvedBy == Some(User)) {
            var shouldReopen := existing.status == Resolved;
            var updated := existing.(severity := g.severity, riskScore := g.riskScore, confidence := confidence,
                                     lifecycle := if shouldReopen then NO_LIFECYCLE else existing.lifecycle);
            if shouldReopen {
              updated := updated.(status := Open, openedAt := now, resolvedAt := None);
            }
            rows := rows[g.kind := updated];
            if shouldReopen {
              notified := notified + [g.kind];
            }
          }
        }
        assert Model() == WithRaised(RaisedAll(s0, triggers[..i], confidence, now), g, confidence, now);
      }
      assert triggers[..|triggers|] == triggers;
    }

    /** Resolves the live alerts of every type that has no trigger. */
    method ResolveInactive(active: set<AlertType>, now: int)
      modifies this`rows
      ensures rows.Keys == old(rows).Keys
      ensures forall t :: t in rows ==> rows[t] == Closed(t !in active, old(rows)[t], now)
    {
      for i := 0 to |ALL_TYPES|
        invariant rows.Keys == old(rows).Keys
        invariant forall t :: t in rows ==> rows[t] == Closed(t in ALL_TYPES[..i] && t !in active, old(rows)[t], now)
      {
        var kind := ALL_TYPES[i];
        assert ALL_TYPES[..i + 1] == ALL_TYPES[..i] + [kind];
        if kind !in active && kind in rows && rows[kind].status != Resolved {
          rows := rows[kind := rows[kind].(status := Resolved, resolvedAt := Some(now))];
        }
      }
      assert ALL_TYPES[..|ALL_TYPES|] == ALL_TYPES;
      AllTypes();
    }

    /** The bulk UPDATE that hands user-resolved alerts of inactive types back to the engine. */
    method HandBack(active: set<AlertType>)
      modifies this`rows
      ensures rows.Keys == old(rows).Keys
      ensures forall t :: t in rows ==> rows[t] == Returned(t !in active, old(rows)[t])
    {
      rows := map t | t in rows ::
        if t !in active && UserResolved(Some(rows[t]))
        then rows[t].(lifecycle := rows[t].lifecycle.(resolvedBy := Some(Engine))) else rows[t];
    }

    method AcknowledgeAlert(t: AlertType, actor: Option<int>, note: Option<string>, now: int)
        returns (error: Option<Error>)
      modifies this
      ensures (Model(), error) == old(AcknowledgedState(Model(), t, actor, note, now))
    {
      if t !in rows { return Some(NotFound); }
      var alert := rows[t];
      if alert.status == Resolved { return Some(AlreadyResolved); }
      if alert.status == Acknowledged && !GivesNote(note) { return None; }
      rows := rows[t := alert.(status := Acknowledged,
        lifecycle := alert.lifecycle.(ack := Some(Ack(actor, now, CleanNote(note)))))];
      error := None;
    }

    method ResolveAlert(t: AlertType, actor: Option<int>, now: int) returns (error: Option<Error>)
      modifies this
      ensures (Model(), error) == old(ResolvedState(Model(), t, actor, now))
    {
      if t !in rows { return Some(NotFound); }
      var alert := rows[t];
      if alert.status == Resolved { return None; }
      rows := rows[t := alert.(status := Resolved, resolvedAt := Some(now),
                               lifecycle := alert.lifecycle.(resolvedBy := Some(User), resolvedById := actor))];
      error := None;
    }
  }

  lemma AllTypes()
    ensures forall t: AlertType :: t in ALL_TYPES
  {
    assert ALL_TYPES[0] == LowStock && ALL_TYPES[1] == Stockout && ALL_TYPES[2] == Overstock;
    assert ALL_TYPES[3] == SlowMoving && ALL_TYPES[4] == DeadStock && ALL_TYPES[5] == UnusualDemand;
    forall t: AlertType ensures t in ALL_TYPES {
      match t {
        case LowStock => case Stockout => case Overstock =>
        case SlowMoving => case DeadStock => case UnusualDemand =>
      }
    }
  }
}

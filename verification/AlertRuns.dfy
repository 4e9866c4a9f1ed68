/** What every run of syncs, acknowledgements and owner resolutions keeps. */
module AlertRuns {
  import opened Options
  import opened Alerts

  datatype Event =
    | Sync(e: Evaluation, now: int)
    | Acknowledge(t: AlertType, actor: Option<int>, note: Option<string>, now: int)
    | Resolve(t: AlertType, actor: Option<int>, now: int)

  ghost function Step(s: State, ev: Event): State {
    match ev
    case Sync(e, now) => Synced(s, e, now)
    case Acknowledge(t, actor, note, now) => AcknowledgedState(s, t, actor, note, now).0
    case Resolve(t, actor, now) => ResolvedState(s, t, actor, now).0
  }

  ghost function Run(s: State, es: seq<Event>): State {
    if es == [] then s else Step(Run(s, es[..|es| - 1]), es[|es| - 1])
  }

  const Start := State(map[], [])

  // ---- A sync, seen from one type -------------------------------------------------------------------

  ghost predicate DistinctKinds(gs: seq<Trigger>) {
    forall i, j :: 0 <= i < j < |gs| ==> gs[i].kind != gs[j].kind
  }

  lemma InTriggers(e: Evaluation, g: Trigger)
    ensures g in Triggers(e) <==>
      g in StockTrigger(e) || g in ExcessTrigger(e) || g in SlowTrigger(e) || g in DemandTrigger(e)
  {
  }

  /** When a type has a trigger, on the fields of the evaluation. */
  predicate Condition(e: Evaluation, t: AlertType) {
    match t
    case Stockout => e.availableStock <= 0
    case LowStock =>
      0 < e.availableStock && (e.availableStock <= e.reorderPoint || e.stockoutScore >= e.highRiskThreshold)
    case DeadStock => e.isDeadStock
    case Overstock => !e.isDeadStock && e.overstockScore >= e.highRiskThreshold
    case SlowMoving => !e.isDeadStock && e.isSlowMoving
    case UnusualDemand => !e.anomaly.NoAnomaly?
  }

  lemma ActiveIff(e: Evaluation, t: AlertType)
    ensures Active(e, t) <==> Condition(e, t)
  {
    hide Triggers;
    forall g
      ensures g in Triggers(e) <==>
        g in StockTrigger(e) || g in ExcessTrigger(e) || g in SlowTrigger(e) || g in DemandTrigger(e)
    {
      InTriggers(e, g);
    }
    if Condition(e, t) {
      var part := match t
        case Stockout => StockTrigger(e)
        case LowStock => StockTrigger(e)
        case DeadStock => ExcessTrigger(e)
        case Overstock => ExcessTrigger(e)
        case SlowMoving => SlowTrigger(e)
        case UnusualDemand => DemandTrigger(e);
      assert part[0] in part && part[0].kind == t;
      assert part[0] in Triggers(e);
    }
  }

  lemma TriggersDistinct(e: Evaluation)
    ensures DistinctKinds(Triggers(e))
  {
    var a, b, c, d := StockTrigger(e), ExcessTrigger(e), SlowTrigger(e), DemandTrigger(e);
    assert |a| <= 1 && |b| <= 1 && |c| <= 1 && |d| <= 1;
    assert forall i :: 0 <= i < |a| ==> a[i].kind == Stockout || a[i].kind == LowStock;
    assert forall i :: 0 <= i < |b| ==> b[i].kind == DeadStock || b[i].kind == Overstock;
    assert forall i :: 0 <= i < |c| ==> c[i].kind == SlowMoving;
    assert forall i :: 0 <= i < |d| ==> d[i].kind == UnusualDemand;
    hide StockTrigger, ExcessTrigger, SlowTrigger, DemandTrigger;
    assert Triggers(e) == a + b + c + d;
  }

  /** How often store users were notified of t. */
  ghost function Count(ts: seq<AlertType>, t: AlertType): nat {
    if ts == [] then 0 else Count(ts[..|ts| - 1], t) + if ts[|ts| - 1] == t then 1 else 0
  }

  lemma CountSnoc(ts: seq<AlertType>, last: AlertType, t: AlertType)
    ensures Count(ts + [last], t) == Count(ts, t) + if last == t then 1 else 0
  {
    assert (ts + [last])[..|ts + [last]| - 1] == ts;
  }

  lemma RaisedLast(s: State, gs: seq<Trigger>, confidence: int, now: int)
    requires gs != []
    ensures RaisedAll(s, gs, confidence, now)
      == WithRaised(RaisedAll(s, gs[..|gs| - 1], confidence, now), gs[|gs| - 1], confidence, now)
  {
  }

  /** The upserts touch the row of t exactly if a trigger has that type, and announce exactly the edges. */
  lemma {:induction false} RaisedAt(s: State, gs: seq<Trigger>, confidence: int, now: int, t: AlertType)
    requires DistinctKinds(gs)
    ensures forall k :: 0 <= k < |gs| && gs[k].kind == t ==>
      At(RaisedAll(s, gs, confidence, now).rows, t) == Some(Raised(At(s.rows, t), gs[k], confidence, now))
      && Count(RaisedAll(s, gs, confidence, now).notified, t) == Count(s.notified, t) + if Edge(At(s.rows, t)) then 1
        else 0
    ensures (forall k :: 0 <= k < |gs| ==> gs[k].kind != t) ==>
      At(RaisedAll(s, gs, confidence, now).rows, t) == At(s.rows, t)
      && Count(RaisedAll(s, gs, confidence, now).notified, t) == Count(s.notified, t)
  {
    hide Raised, Edge, Count;
    if gs != [] {
      var front, last := gs[..|gs| - 1], gs[|gs| - 1];
      RaisedAt(s, front, confidence, now, t);
      RaisedLast(s, gs, confidence, now);
      hide RaisedAll, WithRaised;
      WithRaisedAt(RaisedAll(s, front, confidence, now), last, confidence, now, t);
      assert forall k :: 0 <= k < |front| ==> front[k] == gs[k] && front[k].kind != last.kind;
    }
  }

  lemma WithRaisedAt(s: State, g: Trigger, confidence: int, now: int, t: AlertType)
    ensures var u := WithRaised(s, g, confidence, now);
      && At(u.rows, t) == (if g.kind == t then Some(Raised(At(s.rows, t), g, confidence, now)) else At(s.rows, t))
      && Count(u.notified, t) == Count(s.notified, t) + if g.kind == t && Edge(At(s.rows, t)) then 1 else 0
  {
    hide Raised, Edge;
    CountSnoc(s.notified, g.kind, t);
  }

  ghost function SyncedRow(r: Option<Row>, e: Evaluation, t: AlertType, now: int): Option<Row> {
    if Active(e, t) then var g :| g in Triggers(e) && g.kind == t; Some(Raised(r, g, e.confidence, now))
    else if r.None? then None
    else Some(Cleared(r.value, now))
  }

  /** One sync acts on every type separately: raise it if its trigger is active, else clear it. */
  lemma SyncedAt(s: State, e: Evaluation, now: int, t: AlertType)
    ensures At(Synced(s, e, now).rows, t) == SyncedRow(At(s.rows, t), e, t, now)
    ensures Count(Synced(s, e, now).notified, t)
      == Count(s.notified, t) + if Edge(At(s.rows, t)) && Active(e, t) then 1 else 0
  {
    hide Triggers, Raised, Edge, Cleared;
    TriggersDistinct(e);
    RaisedAt(s, Triggers(e), e.confidence, now, t);
    if Active(e, t) {
      var g :| g in Triggers(e) && g.kind == t
        && SyncedRow(At(s.rows, t), e, t, now) == Some(Raised(At(s.rows, t), g, e.confidence, now));
      var k :| 0 <= k < |Triggers(e)| && Triggers(e)[k] == g;
    } else {
      forall k | 0 <= k < |Triggers(e)| ensures Triggers(e)[k].kind != t {
        assert Triggers(e)[k] in Triggers(e);
      }
    }
  }

  /** The value of a step at the row of t. */
  ghost function StepRow(r: Option<Row>, ev: Event, t: AlertType): Option<Row> {
    match ev
    case Sync(e, now) => SyncedRow(r, e, t, now)
    case Acknowledge(t', actor, note, now) =>
      if t' == t && r.Some? && r.value.status != Resolved && !(r.value.status == Acknowledged && !GivesNote(note))
      then Some(r.value.(status := Acknowledged,
        lifecycle := r.value.lifecycle.(ack := Some(Ack(actor, now, CleanNote(note))))))
      else r
    case Resolve(t', actor, now) =>
      if t' == t && r.Some? && r.value.status != Resolved
      then Some(r.value.(status := Resolved, resolvedAt := Some(now),
                         lifecycle := r.value.lifecycle.(resolvedBy := Some(User), resolvedById := actor)))
      else r
  }

  lemma StepAt(s: State, ev: Event, t: AlertType)
    ensures At(Step(s, ev).rows, t) == StepRow(At(s.rows, t), ev, t)
  {
    if ev.Sync? { SyncedAt(s, ev.e, ev.now, t); }
  }

  // ---- Invariants -----------------------------------------------------------------------------------

  /** Live alerts carry no resolvedBy. */
  ghost predicate LiveUnresolved(s: State) {
    forall t :: Live(At(s.rows, t)) ==> At(s.rows, t).value.lifecycle.resolvedBy.None?
  }

  ghost predicate BothLive(s: State, a: AlertType, b: AlertType) {
    Live(At(s.rows, a)) && Live(At(s.rows, b))
  }

  ghost predicate Exclusive(s: State) {
    !BothLive(s, Stockout, LowStock) && !BothLive(s, DeadStock, Overstock) && !BothLive(s, DeadStock, SlowMoving)
  }

  lemma TriggersExclusive(e: Evaluation)
    ensures !(Active(e, Stockout) && Active(e, LowStock))
    ensures !(Active(e, DeadStock) && Active(e, Overstock)) && !(Active(e, DeadStock) && Active(e, SlowMoving))
  {
    hide Active;
    ActiveIff(e, Stockout);
    ActiveIff(e, LowStock);
    ActiveIff(e, DeadStock);
    ActiveIff(e, Overstock);
    ActiveIff(e, SlowMoving);
  }

  /** After a sync only types with a trigger are live; nothing else makes a type live. */
  lemma LiveAfter(s: State, ev: Event, t: AlertType)
    ensures Live(At(Step(s, ev).rows, t)) ==> if ev.Sync? then Active(ev.e, t) else Live(At(s.rows, t))
  {
    StepAt(s, ev, t);
  }

  lemma LiveRowAfter(s: State, ev: Event, t: AlertType)
    requires LiveUnresolved(s) && Live(At(Step(s, ev).rows, t))
    ensures At(Step(s, ev).rows, t).value.lifecycle.resolvedBy.None?
  {
    StepAt(s, ev, t);
    hide Step, Active, Triggers;
    assert Live(At(s.rows, t)) ==> At(s.rows, t).value.lifecycle.resolvedBy.None?;
  }

  lemma InvariantsKept(s: State, ev: Event)
    requires LiveUnresolved(s) && Exclusive(s)
    ensures LiveUnresolved(Step(s, ev)) && Exclusive(Step(s, ev))
  {
    forall t | Live(At(Step(s, ev).rows, t)) ensures At(Step(s, ev).rows, t).value.lifecycle.resolvedBy.None? {
      LiveRowAfter(s, ev, t);
    }
    hide Step, Active;
    if ev.Sync? { TriggersExclusive(ev.e); }
    LiveAfter(s, ev, Stockout);
    LiveAfter(s, ev, LowStock);
    LiveAfter(s, ev, DeadStock);
    LiveAfter(s, ev, Overstock);
    LiveAfter(s, ev, SlowMoving);
  }

  lemma {:induction false} RunInvariants(es: seq<Event>)
    ensures LiveUnresolved(Run(Start, es)) && Exclusive(Run(Start, es))
  {
    hide Step;
    if es != [] {
      RunInvariants(es[..|es| - 1]);
      InvariantsKept(Run(Start, es[..|es| - 1]), es[|es| - 1]);
    }
  }

  // ---- Edge-triggered reopening ---------------------------------------------------------------------

  ghost predicate ClearedBy(ev: Event, t: AlertType) {
    ev.Sync? && !Active(ev.e, t)
  }

  ghost predicate EverCleared(es: seq<Event>, t: AlertType) {
    exists k :: 0 <= k < |es| && ClearedBy(es[k], t)
  }

  /** A user-resolved alert keeps its row through every run in which no sync sees its condition inactive: up to
      then every step leaves the row as its owner left it. */
  lemma {:induction false} UserResolvedStays(s: State, es: seq<Event>, t: AlertType)
    requires UserResolved(At(s.rows, t)) && !EverCleared(es, t)
    ensures At(Run(s, es).rows, t) == At(s.rows, t)
  {
    hide Step;
    if es != [] {
      var front := es[..|es| - 1];
      forall k | 0 <= k < |front| ensures !ClearedBy(front[k], t) { assert front[k] == es[k]; }
      UserResolvedStays(s, front, t);
      assert !ClearedBy(es[|es| - 1], t);
      StepAt(Run(s, front), es[|es| - 1], t);
    }
  }

  /** The sync that clears it hands it back; it stays resolved, and the next active sync reopens it once. */
  lemma ClearedThenReopened(s: State, e: Evaluation, now: int, e': Evaluation, now': int, t: AlertType)
    requires UserResolved(At(s.rows, t)) && !Active(e, t) && Active(e', t)
    ensures var u := Synced(s, e, now); var v := Synced(u, e', now');
      && At(u.rows, t).Some? && At(v.rows, t).Some?
      && At(u.rows, t).value.status == Resolved && At(u.rows, t).value.lifecycle.resolvedBy == Some(Engine)
      && At(v.rows, t).value.status == Open && At(v.rows, t).value.lifecycle == NO_LIFECYCLE
      && Count(u.notified, t) == Count(s.notified, t) && Count(v.notified, t) == Count(u.notified, t) + 1
  {
    hide Synced, Triggers, Active;
    SyncedAt(s, e, now, t);
    SyncedAt(Synced(s, e, now), e', now', t);
  }

  /** Over a run, a user-resolved alert is live again only if a sync cleared it first. */
  lemma ReopenNeedsClear(s: State, es: seq<Event>, t: AlertType)
    requires UserResolved(At(s.rows, t)) && Live(At(Run(s, es).rows, t))
    ensures EverCleared(es, t)
  {
    if !EverCleared(es, t) { UserResolvedStays(s, es, t); }
  }

  // ---- Notifications --------------------------------------------------------------------------------

  /** The number of steps of the run that make t live. */
  ghost function Openings(s: State, es: seq<Event>, t: AlertType): nat {
    if es == [] then 0 else
    var u := Run(s, es[..|es| - 1]);
    Openings(s, es[..|es| - 1], t) + if !Live(At(u.rows, t)) && Live(At(Step(u, es[|es| - 1]).rows, t)) then 1 else 0
  }

  lemma StepNotifies(s: State, ev: Event, t: AlertType)
    ensures Count(Step(s, ev).notified, t)
      == Count(s.notified, t) + if !Live(At(s.rows, t)) && Live(At(Step(s, ev).rows, t)) then 1 else 0
  {
    StepAt(s, ev, t);
    if ev.Sync? { SyncedAt(s, ev.e, ev.now, t); }
  }

  /** Store users are notified of t exactly as often as t was created or reopened. */
  lemma {:induction false} NotificationsAreOpenings(es: seq<Event>, t: AlertType)
    ensures Count(Run(Start, es).notified, t) == Openings(Start, es, t)
  {
    hide Step;
    if es != [] {
      NotificationsAreOpenings(es[..|es| - 1], t);
      StepNotifies(Run(Start, es[..|es| - 1]), es[|es| - 1], t);
    }
  }

  // ---- Repeating a sync -----------------------------------------------------------------------------

  ghost predicate SameTrigger(e: Evaluation, g: Trigger, h: Trigger) {
    g in Triggers(e) && h in Triggers(e) && g.kind == h.kind ==> g == h
  }

  lemma TriggerUnique(e: Evaluation, g: Trigger, h: Trigger)
    ensures SameTrigger(e, g, h)
  {
    TriggersDistinct(e);
  }

  lemma SyncTwiceRow(r: Option<Row>, e: Evaluation, t: AlertType, now: int, later: int)
    ensures SyncedRow(SyncedRow(r, e, t, now), e, t, later) == SyncedRow(r, e, t, now)
    ensures !(Edge(SyncedRow(r, e, t, now)) && Active(e, t))
  {
    if Active(e, t) {
      forall g, h ensures SameTrigger(e, g, h) { TriggerUnique(e, g, h); }
    }
  }

  lemma {:induction false} QuietUpserts(s: State, gs: seq<Trigger>, confidence: int, now: int)
    requires DistinctKinds(gs) && forall g :: g in gs ==> !Edge(At(s.rows, g.kind))
    ensures RaisedAll(s, gs, confidence, now).notified == s.notified
  {
    if gs != [] {
      var front, last := gs[..|gs| - 1], gs[|gs| - 1];
      assert gs == front + [last];
      QuietUpserts(s, front, confidence, now);
      RaisedAt(s, front, confidence, now, last.kind);
      assert forall k :: 0 <= k < |front| ==> front[k].kind != gs[|gs| - 1].kind;
      assert last in gs;
    }
  }

  /** Repeating a sync with the same evaluation changes no row and notifies nobody. */
  lemma SyncIdempotent(s: State, e: Evaluation, now: int, later: int)
    ensures Synced(Synced(s, e, now), e, later) == Synced(s, e, now)
  {
    hide Triggers;
    var u := Synced(s, e, now);
    var v := Synced(u, e, later);
    forall t ensures At(v.rows, t) == At(u.rows, t) {
      SyncedAt(s, e, now, t);
      SyncedAt(u, e, later, t);
      SyncTwiceRow(At(s.rows, t), e, t, now, later);
    }
    forall t ensures t in v.rows <==> t in u.rows { assert At(v.rows, t) == At(u.rows, t); }
    forall t | t in u.rows ensures v.rows[t] == u.rows[t] { assert At(v.rows, t) == At(u.rows, t); }
    assert v.rows == u.rows;
    forall g | g in Triggers(e) ensures !Edge(At(u.rows, g.kind)) {
      SyncedAt(s, e, now, g.kind);
      SyncTwiceRow(At(s.rows, g.kind), e, g.kind, now, later);
    }
    TriggersDistinct(e);
    QuietUpserts(u, Triggers(e), e.confidence, later);
  }

  // ---- Acknowledgements survive syncs -----------------------------------------------------------------

  ghost predicate OnlyActiveSyncs(es: seq<Event>, t: AlertType) {
    forall k :: 0 <= k < |es| ==> es[k].Sync? && Active(es[k].e, t)
  }

  /** While its condition persists, an acknowledged alert keeps its acknowledgement through every sync. */
  lemma {:induction false} AckSurvives(s: State, es: seq<Event>, t: AlertType)
    requires Live(At(s.rows, t)) && OnlyActiveSyncs(es, t)
    ensures var r, r' := At(s.rows, t), At(Run(s, es).rows, t);
      r'.Some? && r'.value.status == r.value.status && r'.value.lifecycle == r.value.lifecycle
        && r'.value.openedAt == r.value.openedAt
  {
    hide Step;
    if es != [] {
      var front := es[..|es| - 1];
      forall k | 0 <= k < |front| ensures front[k].Sync? && Active(front[k].e, t) { assert front[k] == es[k]; }
      AckSurvives(s, front, t);
      StepAt(Run(s, front), es[|es| - 1], t);
    }
  }
}

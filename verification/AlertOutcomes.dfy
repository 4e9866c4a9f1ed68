/** The row of every alert type after a sync, an acknowledgement or a resolution, on the fields of what was asked. */
module AlertOutcomes {
  import opened Options
  import opened Alerts
  import opened AlertRuns

  function SeverityOf(e: Evaluation, t: AlertType): Severity {
    match t
    case Stockout => Critical
    case LowStock => if e.stockoutLevel == Severe then Critical else if e.stockoutLevel == High then Warning else Info
    case DeadStock => if e.deadStockCritical then Critical else Warning
    case Overstock => if e.overstockScore >= e.criticalRiskThreshold then Warning else Info
    case SlowMoving => Warning
    case UnusualDemand => if e.anomaly.CriticalSpike? then Critical else Warning
  }

  function DemandScore(z: int): int {
    var size := if z < 0 then -z else z;
    if size >= 498 then 100 else (size + 2) / 5
  }

  function ScoreOf(e: Evaluation, t: AlertType): int {
    match t
    case Stockout => 100
    case LowStock => e.stockoutScore
    case DeadStock | Overstock => e.overstockScore
    case SlowMoving => 0
    case UnusualDemand => if e.anomaly.NoAnomaly? then 0 else DemandScore(e.anomaly.z)
  }

  lemma AnomalyScoreIs(z: int)
    ensures AnomalyScore(z) == DemandScore(z)
  {
    var a := if z < 0 then -z else z;
    var q := (a + 2) / 5;
    assert 5 * q <= a + 2 < 5 * q + 5;
    assert 10 * q <= 2 * a + 5 < 10 * q + 10;
    assert (2 * a + 5) / 10 == q;
  }

  lemma TriggerCarries(e: Evaluation, g: Trigger)
    requires g in Triggers(e)
    ensures g.severity == SeverityOf(e, g.kind) && g.riskScore == ScoreOf(e, g.kind)
  {
    InTriggers(e, g);
    if !e.anomaly.NoAnomaly? { AnomalyScoreIs(e.anomaly.z); }
    hide Triggers, AnomalyScore, DemandScore;
  }

  /** The row of a type after a sync: created, left to the owner who resolved it, reopened or refreshed while its
      condition holds; resolved or handed back to the engine once it does not. */
  function RowAfterSync(r: Option<Row>, e: Evaluation, t: AlertType, now: int): Option<Row> {
    if Condition(e, t) then
      match r
      case None =>
        Some(Row(status := Open, severity := SeverityOf(e, t), riskScore := ScoreOf(e, t), confidence := e.confidence,
                 lifecycle := NO_LIFECYCLE, openedAt := now, resolvedAt := None))
      case Some(row) =>
        if row.status != Resolved
        then Some(row.(severity := SeverityOf(e, t), riskScore := ScoreOf(e, t), confidence := e.confidence))
        else if row.lifecycle.resolvedBy == Some(User) then r
        else Some(Row(status := Open, severity := SeverityOf(e, t), riskScore := ScoreOf(e, t),
                      confidence := e.confidence, lifecycle := NO_LIFECYCLE, openedAt := now, resolvedAt := None))
    else
      match r
      case None => None
      case Some(row) =>
        if row.status != Resolved then Some(row.(status := Resolved, resolvedAt := Some(now)))
        else if row.lifecycle.resolvedBy == Some(User)
        then Some(row.(lifecycle := row.lifecycle.(resolvedBy := Some(Engine))))
        else r
  }

  /** Every sync leaves every row as its condition, on the fields of the evaluation, says, and announces exactly the
      rows it creates or reopens. Live rows carry no resolvedBy. */
  lemma SyncOutcome(s: State, e: Evaluation, now: int, t: AlertType)
    requires LiveUnresolved(s)
    ensures var r := At(s.rows, t); var u := Synced(s, e, now);
      && At(u.rows, t) == RowAfterSync(r, e, t, now)
      && Count(u.notified, t) == Count(s.notified, t) +
           if Condition(e, t) && (r.None? || (r.value.status == Resolved && r.value.lifecycle.resolvedBy != Some(User)))
           then 1 else 0
  {
    SyncedAt(s, e, now, t);
    ActiveIff(e, t);
    var r := At(s.rows, t);
    EdgeIs(r);
    assert LiveRow(r);
    hide Synced, Triggers, Condition, SeverityOf, ScoreOf, Raised, Cleared, Edge, RowAfterSync, LiveUnresolved, LiveRow;
    if Active(e, t) {
      var g :| g in Triggers(e) && g.kind == t && SyncedRow(r, e, t, now) == Some(Raised(r, g, e.confidence, now));
      TriggerCarries(e, g);
      RaisedIs(r, e, g, now);
    } else {
      ClearedIs(r, e, t, now);
    }
  }

  predicate LiveRow(r: Option<Row>) { Live(r) ==> r.value.lifecycle.resolvedBy.None? }

  lemma EdgeIs(r: Option<Row>)
    ensures Edge(r) <==> r.None? || (r.value.status == Resolved && r.value.lifecycle.resolvedBy != Some(User))
  {}

  lemma RaisedIs(r: Option<Row>, e: Evaluation, g: Trigger, now: int)
    requires Condition(e, g.kind) && g.severity == SeverityOf(e, g.kind) && g.riskScore == ScoreOf(e, g.kind)
    ensures Some(Raised(r, g, e.confidence, now)) == RowAfterSync(r, e, g.kind, now)
  {
    hide Condition, SeverityOf, ScoreOf;
  }

  lemma ClearedIs(r: Option<Row>, e: Evaluation, t: AlertType, now: int)
    requires !Condition(e, t) && LiveRow(r)
    ensures (if r.None? then None else Some(Cleared(r.value, now))) == RowAfterSync(r, e, t, now)
  {
    hide Condition;
  }

  /** Over every run from the start, at every sync of it. */
  lemma RunSyncOutcome(es: seq<Event>, e: Evaluation, now: int, t: AlertType)
    ensures At(Run(Start, es + [Sync(e, now)]).rows, t) == RowAfterSync(At(Run(Start, es).rows, t), e, t, now)
  {
    RunInvariants(es);
    SyncOutcome(Run(Start, es), e, now, t);
    assert (es + [Sync(e, now)])[..|es|] == es;
    hide Step, Synced, RowAfterSync;
    StepIsSync(Run(Start, es), e, now);
  }

  lemma StepIsSync(s: State, e: Evaluation, now: int)
    ensures Step(s, Sync(e, now)) == Synced(s, e, now)
  {}

  /** When acknowledging or resolving is refused, and when it changes nothing. */
  lemma OwnerOutcome(s: State, t: AlertType, actor: Option<int>, note: Option<string>, now: int)
    ensures var (u, error) := AcknowledgedState(s, t, actor, note, now); var r := At(s.rows, t);
      && (error == Some(NotFound) <==> r.None?)
      && (error == Some(AlreadyResolved) <==> r.Some? && r.value.status == Resolved)
      && (u != s ==> r.Some? && r.value.status != Resolved)
      && (r.Some? && r.value.status == Acknowledged && (note.None? || note.value == "") ==> u == s)
      && (r.Some? && (r.value.status == Open || (r.value.status == Acknowledged && note.Some? && note.value != "")) ==>
            var a := At(u.rows, t).value;
            && a == r.value.(status := Acknowledged, lifecycle := a.lifecycle)
            && a.lifecycle == r.value.lifecycle.(ack := Some(Ack(actor, now, CleanNote(note)))))
    ensures var (u, error) := ResolvedState(s, t, actor, now); var r := At(s.rows, t);
      && (error == Some(NotFound) <==> r.None?) && error != Some(AlreadyResolved)
      && (r.None? || r.value.status == Resolved ==> u == s)
      && (r.Some? && r.value.status != Resolved ==>
            At(u.rows, t) == Some(r.value.(status := Resolved, resolvedAt := Some(now),
              lifecycle := r.value.lifecycle.(resolvedBy := Some(User), resolvedById := actor))))
  {
    hide CleanNote;
  }

  /** A stored note is what was typed without the white space around it, and there is none if that is all there was. */
  lemma CleanNoteIs(note: string)
    ensures match CleanNote(Some(note))
      case None => forall i :: 0 <= i < |note| ==> IsSpace(note[i])
      case Some(clean) =>
        && clean != "" && !IsSpace(clean[0]) && !IsSpace(clean[|clean| - 1])
        && exists a, b :: 0 <= a <= b <= |note| && clean == note[a..b]
             && (forall i :: 0 <= i < a ==> IsSpace(note[i])) && forall i :: b <= i < |note| ==> IsSpace(note[i])
  {
    var a, b := Ends(note);
    hide TrimLeft, TrimRight, IsSpace;
    if a == b { assert note[a..b] == ""; } else { assert note[a..b] != "" && note[a..b][0] == note[a]; }
  }

  lemma Ends(note: string) returns (a: nat, b: nat)
    ensures a <= b <= |note| && TrimLeft(TrimRight(note)) == note[a..b]
    ensures a < b ==> !IsSpace(note[a]) && !IsSpace(note[b - 1])
    ensures a == b ==> b == 0
    ensures (forall i :: 0 <= i < a ==> IsSpace(note[i])) && forall i :: b <= i < |note| ==> IsSpace(note[i])
  {
    b := RightEnd(note);
    a := LeftEnd(note[..b]);
    assert note[..b][a..] == note[a..b];
    assert forall i :: 0 <= i < b ==> note[..b][i] == note[i];
    hide TrimLeft, TrimRight;
    forall i | 0 <= i < a ensures IsSpace(note[i]) { assert IsSpace(note[..b][i]); }
  }

  lemma RightEnd(s: string) returns (b: nat)
    ensures b <= |s| && TrimRight(s) == s[..b] && (b > 0 ==> !IsSpace(s[b - 1]))
    ensures forall i :: b <= i < |s| ==> IsSpace(s[i])
  {
    if s != [] && IsSpace(s[|s| - 1]) {
      b := RightEnd(s[..|s| - 1]);
      assert s[..|s| - 1][..b] == s[..b];
      forall i | b <= i < |s| ensures IsSpace(s[i]) { if i < |s| - 1 { assert s[..|s| - 1][i] == s[i]; } }
    } else {
      b := |s|;
      assert s[..b] == s;
    }
  }

  lemma LeftEnd(s: string) returns (a: nat)
    ensures a <= |s| && TrimLeft(s) == s[a..] && (a < |s| ==> !IsSpace(s[a]))
    ensures forall i :: 0 <= i < a ==> IsSpace(s[i])
  {
    if s != [] && IsSpace(s[0]) {
      var k := LeftEnd(s[1..]);
      a := k + 1;
      assert s[1..][k..] == s[a..];
      forall i | 0 <= i < a ensures IsSpace(s[i]) { if i > 0 { assert s[1..][i - 1] == s[i]; } }
    } else {
      a := 0;
      assert s[0..] == s;
    }
  }
}

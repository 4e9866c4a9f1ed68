/** What every run of the idempotency-key protocol keeps. */
module IdempotencyRuns {
  import opened Options
  import opened Idempotency

  ghost predicate HasPhase(s: State, id: nat, reclaiming: bool) {
    id in s.requests && (if reclaiming then s.requests[id].phase == Reclaiming else s.requests[id].phase.Handling?)
  }

  /** Without a row nothing has happened; every request arrived no later than now. */
  ghost predicate Grounded(s: State) {
    && s.ttl > 0
    && (forall id :: id in s.requests ==> s.requests[id].now <= s.clock)
    && (s.record.None? ==> s.effects == [] && forall id :: id in s.requests ==>
          s.requests[id].phase.Finding? || s.requests[id].phase.Creating?)
  }

  /** At most one handler is inside its lease, and while the row is PROCESSING it carries that lease. */
  ghost predicate OneHandler(s: State) {
    && (forall a, b :: Live(s, a) && Live(s, b) ==> a == b)
    && (forall h :: Live(s, h) && s.record.Some? && s.record.value.status == Processing ==>
          s.record.value.expiresAt == s.requests[h].now + s.ttl)
  }

  /** Once the effect is committed, no live handler can commit again and no request can reclaim the row. */
  ghost predicate Spent(s: State) {
    && |s.effects| <= 1
    && (s.effects != [] ==>
          && (forall h :: Live(s, h) ==> s.requests[h].phase.committed)
          && (forall id :: HasPhase(s, id, true) ==> !Reclaimable(s.record, s.requests[id].hash, s.requests[id].now)))
  }

  ghost predicate Safe(s: State) {
    Grounded(s) && OneHandler(s) && Spent(s)
  }

  /** The keys a transaction inserts: one row under the effect key itself, or the movements of an inventory
      operation. */
  predicate WellKeyed(op: Operation, suffixes: set<string>) { suffixes != {} && (op != Inventory ==> suffixes == {""}) }

  predicate Begins(s0: State) {
    s0 == Initial(s0.op, s0.ttl, s0.ekey, s0.suffixes, s0.view) && s0.ttl > 0 && WellKeyed(s0.op, s0.suffixes)
  }

  /** A recovery attempt at s that does not see a committed effect. */
  ghost predicate Blind(s: State, e: Event) {
    e.TryRecover? && e.id in s.requests && s.requests[e.id].phase.Recovering?
    && s.effects != [] && Recover(s.op, Present(s), s.view).None?
  }

  /** A handler that commits or answers past its lease. */
  ghost predicate Late(s: State, e: Event) {
    (e.Commit? || e.Answer?) && e.id in s.requests && s.requests[e.id].phase.Handling? && !Live(s, e.id)
  }

  ghost predicate Lapse(s: State, e: Event) { Blind(s, e) || Late(s, e) }

  lemma FindSafe(s: State, id: nat)
    requires Safe(s)
    ensures Safe(FindStep(s, id)) && Safe(LookStep(s, id))
  {
    OtherPhases(s, FindStep(s, id), id);
    OtherPhases(s, LookStep(s, id), id);
  }

  /** A step that only moves one request, and not into Handling or Reclaiming, keeps everything. */
  lemma OtherPhases(s: State, t: State, id: nat)
    requires Safe(s)
    requires t == s || (id in s.requests && id in t.requests && t == Moved(s, id, t.requests[id].phase)
               && !t.requests[id].phase.Handling? && !t.requests[id].phase.Reclaiming?
               && (s.record.None? ==> t.requests[id].phase.Creating?))
    ensures Safe(t)
  {
    forall h | Live(t, h) ensures Live(s, h) && t.requests[h] == s.requests[h] {}
    forall r | HasPhase(t, r, true) ensures HasPhase(s, r, true) && t.requests[r] == s.requests[r] {}
  }

  lemma CreateSafe(s: State, id: nat)
    requires Safe(s)
    ensures Safe(CreateStep(s, id))
  {
    var t := CreateStep(s, id);
    if In(s, id, Creating) && s.record.None? {
      forall h | Live(t, h) ensures h == id {}
      assert Live(t, id) ==> t.record.value.expiresAt == t.requests[id].now + t.ttl;
    } else {
      OtherPhases(s, t, id);
    }
  }

  lemma RecoverSafe(s: State, id: nat)
    requires Safe(s) && !Lapse(s, TryRecover(id))
    ensures Safe(RecoverStep(s, id))
  {
    var t := RecoverStep(s, id);
    forall h | Live(t, h) ensures Live(s, h) && t.requests[h] == s.requests[h] {}
    if s.effects != [] {
      forall r | HasPhase(t, r, true) ensures HasPhase(s, r, true) && t.requests[r] == s.requests[r] {}
    }
  }

  lemma CompleteSafe(s: State, id: nat)
    requires Safe(s)
    ensures Safe(CompleteStep(s, id))
  {
    var t := CompleteStep(s, id);
    forall h | Live(t, h) ensures Live(s, h) && t.requests[h] == s.requests[h] {}
  }

  lemma ReclaimSafe(s: State, id: nat)
    requires Safe(s)
    ensures Safe(ReclaimStep(s, id))
  {
    var t := ReclaimStep(s, id);
    if In(s, id, Reclaiming) && Reclaimable(s.record, s.requests[id].hash, s.requests[id].now) {
      assert HasPhase(s, id, true);
      assert s.effects == [];
      forall h | Live(t, h) ensures h == id { assert h != id ==> Live(s, h); }
    } else {
      OtherPhases(s, t, id);
    }
  }

  lemma CommitSafe(s: State, id: nat)
    requires Safe(s) && !Late(s, Commit(id))
    ensures Safe(CommitStep(s, id))
  {
    var t := CommitStep(s, id);
    if t != s {
      assert Live(s, id) && !s.requests[id].phase.committed;
      assert s.effects == [];
      forall h | Live(t, h) ensures h == id { assert Live(s, h); }
    }
  }

  lemma AnswerSafe(s: State, id: nat, code: int, body: Body)
    requires Safe(s)
    ensures Safe(AnswerStep(s, id, code, body))
  {
    var t := AnswerStep(s, id, code, body);
    forall h | Live(t, h) ensures Live(s, h) && t.requests[h] == s.requests[h] {}
    forall r | HasPhase(t, r, true) ensures HasPhase(s, r, true) && t.requests[r] == s.requests[r] {}
  }

  lemma OutsideSafe(s: State, e: Event)
    requires Safe(s) && (e.Arrive? || e.Crash? || e.Tick? || e.Touch? || e.Foreign?)
    ensures Safe(Step(s, e))
  {
    var t := Step(s, e);
    forall h | Live(t, h) ensures Live(s, h) && t.requests[h] == s.requests[h] {}
    forall r | HasPhase(t, r, true) ensures HasPhase(s, r, true) && t.requests[r] == s.requests[r] {}
  }

  lemma StepSafe(s: State, e: Event)
    requires Safe(s) && !Lapse(s, e)
    ensures Safe(Step(s, e))
  {
    match e {
      case Find(id) => FindSafe(s, id);
      case Look(id) => FindSafe(s, id);
      case Create(id) => CreateSafe(s, id);
      case TryRecover(id) => RecoverSafe(s, id);
      case Complete(id) => CompleteSafe(s, id);
      case Reclaim(id) => ReclaimSafe(s, id);
      case Commit(id) => CommitSafe(s, id);
      case Answer(id, code, body) => AnswerSafe(s, id, code, body);
      case _ => OutsideSafe(s, e);
    }
  }

  // ---- The effect happens at most once ------------------------------------------------------------

  /** No handler of the run acts past its lease. */
  ghost predicate OnTime(s: State, es: seq<Event>) {
    es == [] || (OnTime(s, es[..|es| - 1]) && !Late(Run(s, es[..|es| - 1]), es[|es| - 1]))
  }

  /** Nor does a recovery of the run miss a committed effect. */
  ghost predicate NoLapse(s: State, es: seq<Event>) {
    es == [] || (NoLapse(s, es[..|es| - 1]) && !Lapse(Run(s, es[..|es| - 1]), es[|es| - 1]))
  }

  lemma {:induction false} RunSafe(s: State, es: seq<Event>)
    requires Safe(s) && NoLapse(s, es)
    ensures Safe(Run(s, es))
  {
    hide Step, Safe, Lapse;
    if es != [] {
      RunSafe(s, es[..|es| - 1]);
      StepSafe(Run(s, es[..|es| - 1]), es[|es| - 1]);
    }
  }

  lemma InitialSafe(s0: State)
    requires Begins(s0)
    ensures Safe(s0) && Closed(s0)
  {
  }

  /** Whatever guards the handlers have or lack: the effect commits at most once in a run in which no handler outlives
      its lease and no recovery misses a committed effect. */
  lemma AtMostOnce(s0: State, es: seq<Event>)
    requires Begins(s0) && NoLapse(s0, es)
    ensures |Run(s0, es).effects| <= 1
  {
    InitialSafe(s0);
    RunSafe(s0, es);
  }

  /** A guarded effect that has been committed closes its guard. */
  ghost predicate GuardShut(s: State) {
    GuardOf(s.op) != Unguarded && WellKeyed(s.op, s.suffixes) &&
    |s.effects| <= 1 && (s.effects != [] && GuardOf(s.op) == StatusMove ==> !Ready(s.op, s.view))
  }

  lemma GuardStep(s: State, e: Event)
    requires GuardShut(s)
    ensures GuardShut(Step(s, e))
  {
    if e.Commit? && Step(s, e) != s && GuardOf(s.op) == UniqueKey {
      var x :| x in s.suffixes;
      assert s.ekey + x in OwnKeys(s);
    }
  }

  /** A handler under a unique key or a status guard commits at most once in every run, lapses or not. */
  lemma {:induction false} GuardedAtMostOnce(s0: State, es: seq<Event>)
    requires Begins(s0) && GuardOf(s0.op) != Unguarded
    ensures GuardShut(Run(s0, es))
  {
    hide Step;
    if es != [] {
      GuardedAtMostOnce(s0, es[..|es| - 1]);
      GuardStep(Run(s0, es[..|es| - 1]), es[|es| - 1]);
    }
  }

  lemma RunNil(s: State)
    ensures Run(s, []) == s && OnTime(s, [])
  {}

  lemma RunSnoc(s: State, es: seq<Event>, e: Event)
    ensures Run(s, es + [e]) == Step(Run(s, es), e)
    ensures OnTime(s, es + [e]) <==> OnTime(s, es) && !Late(Run(s, es), e)
  {
    hide Step, Late;
    assert (es + [e])[..|es + [e]| - 1] == es;
  }

  /** The first request commits its effect and crashes before it answers. */
  lemma CommitThenCrash(s0: State, hash: int) returns (es: seq<Event>)
    requires Begins(s0) && GuardOf(s0.op) == Unguarded
    ensures Run(s0, es) == s0.(record := Some(Record(hash, Processing, 0, Falsy, s0.ttl)), effects := [1])
      && OnTime(s0, es)
  {
    hide Run, OnTime, Present, PrefixIn, Table, OwnKeys;
    RunNil(s0);
    es := [];
    RunSnoc(s0, es, Arrive(1, hash));
    es := es + [Arrive(1, hash)];
    var r := Request(hash, 0, Finding);
    assert Run(s0, es) == s0.(requests := map[1 := r]);
    RunSnoc(s0, es, Find(1));
    es := es + [Find(1)];
    assert Run(s0, es) == s0.(requests := map[1 := r.(phase := Creating)]);
    RunSnoc(s0, es, Create(1));
    es := es + [Create(1)];
    var s3 := s0.(requests := map[1 := r.(phase := Handling(false))],
      record := Some(Record(hash, Processing, 0, Falsy, s0.ttl)));
    assert Run(s0, es) == s3;
    RunSnoc(s0, es, Commit(1));
    es := es + [Commit(1)];
    assert [] + [1 as nat] == [1];
    assert Run(s0, es) == s3.(requests := map[1 := r.(phase := Handling(true))], effects := [1]);
    RunSnoc(s0, es, Crash(1));
    es := es + [Crash(1)];
    assert Run(s0, es).requests == map[];
  }

  /** Without a guard a retry after a crash executes the operation again, though no handler outlives its lease. */
  lemma RetryExecutesAgain(s0: State, hash: int) returns (es: seq<Event>)
    requires Begins(s0) && GuardOf(s0.op) == Unguarded
    ensures |Run(s0, es).effects| == 2 && OnTime(s0, es)
  {
    hide Run, OnTime, Present, PrefixIn, Table, OwnKeys;
    es := CommitThenCrash(s0, hash);
    var ttl := s0.ttl;
    var s1 := s0.(record := Some(Record(hash, Processing, 0, Falsy, ttl)), effects := [1], clock := ttl);
    RunSnoc(s0, es, Tick(ttl));
    es := es + [Tick(ttl)];
    assert Run(s0, es) == s1;
    RunSnoc(s0, es, Arrive(2, hash));
    es := es + [Arrive(2, hash)];
    var r := Request(hash, ttl, Finding);
    assert Run(s0, es) == s1.(requests := map[2 := r]);
    RunSnoc(s0, es, Find(2));
    es := es + [Find(2)];
    assert Run(s0, es) == s1.(requests := map[2 := r.(phase := Recovering(false))]);
    RunSnoc(s0, es, TryRecover(2));
    es := es + [TryRecover(2)];
    assert Run(s0, es) == s1.(requests := map[2 := r.(phase := Reclaiming)]);
    RunSnoc(s0, es, Reclaim(2));
    es := es + [Reclaim(2)];
    assert In(s1.(requests := map[2 := r.(phase := Reclaiming)]), 2, Reclaiming);
    assert Run(s0, es).requests == map[2 := r.(phase := Handling(false))];
    RunSnoc(s0, es, Commit(2));
    es := es + [Commit(2)];
  }

  /** Recovery finds its own committed effect whatever else the database holds. */
  ghost predicate AlwaysRecovers(op: Operation) {
    forall v :: Recover(op, true, v).Some?
  }

  lemma RecoveredOperations(op: Operation)
    ensures AlwaysRecovers(op) <==> op == OrderCreate || op == ReturnCreate || op == Inventory
    ensures AlwaysRecovers(op) ==> GuardOf(op) == UniqueKey
  {
    var v := View(0, false, false, false, false, false, Draft, false);
    assert Recover(op, true, v).Some? <==> op == OrderCreate || op == ReturnCreate || op == Inventory;
  }

  lemma StepFixed(s: State, e: Event)
    ensures var t := Step(s, e); t.op == s.op && t.ttl == s.ttl && t.ekey == s.ekey && t.suffixes == s.suffixes
  {
    hide Present, Recover, Admitted, Table, OwnKeys, Reclaimable, Forward;
  }

  lemma {:induction false} SetupFixed(s: State, es: seq<Event>)
    ensures var t := Run(s, es); t.op == s.op && t.ttl == s.ttl && t.ekey == s.ekey && t.suffixes == s.suffixes
  {
    hide Step;
    if es != [] {
      SetupFixed(s, es[..|es| - 1]);
      StepFixed(Run(s, es[..|es| - 1]), es[|es| - 1]);
    }
  }

  /** The effect of an operation commits at most once in every run, exactly but for creating a stock take and entering
      its counts, whose handlers have no guard. */
  lemma AtMostOnceIff(op: Operation, ttl: int, ekey: string, suffixes: set<string>, hash: int)
    requires ttl > 0 && WellKeyed(op, suffixes)
    ensures (forall v, es :: |Run(Initial(op, ttl, ekey, suffixes, v), es).effects| <= 1) <==>
      op != StockTakeCreate && op != StockTakeCounts
  {
    if GuardOf(op) != Unguarded {
      forall v, es
        ensures |Run(Initial(op, ttl, ekey, suffixes, v), es).effects| <= 1
      {
        GuardedAtMostOnce(Initial(op, ttl, ekey, suffixes, v), es);
      }
    } else {
      var v := View(0, false, false, false, false, false, Draft, false);
      var es := RetryExecutesAgain(Initial(op, ttl, ekey, suffixes, v), hash);
    }
  }

  // ---- Recovery instead of re-execution -----------------------------------------------------------

  lemma PresentWhenCommitted(s: State)
    requires WellKeyed(s.op, s.suffixes) && s.effects != []
    ensures Present(s)
  {
    var x :| x in s.suffixes;
    assert s.ekey + x in Table(s) && StartsWith(s.ekey + x, s.ekey);
    if s.op != Inventory {
      assert "" in s.suffixes && s.ekey + "" == s.ekey;
      assert s.ekey + "" in OwnKeys(s);
    }
  }

  lemma NeverBlind(s: State, e: Event)
    requires WellKeyed(s.op, s.suffixes) && AlwaysRecovers(s.op)
    ensures !Blind(s, e)
  {
    if s.effects != [] { PresentWhenCommitted(s); }
  }

  /** After the commit no further request starts the handler, unless its recovery missed the effect. */
  lemma NoHandlerStartsAfterCommit(s: State, e: Event, id: nat)
    requires Safe(s) && !Lapse(s, e) && s.effects != [] && HasPhase(Step(s, e), id, false)
    ensures HasPhase(s, id, false)
  {
    if e.Reclaim? && e.id == id && In(s, id, Reclaiming) {
      assert HasPhase(s, id, true);
    }
  }

  /** A crash after the commit, seen once the lease is over: the row is PROCESSING and expired, or a retry has completed
      it from the committed data, and nobody can act on it in any other way. */
  ghost predicate Answerable(s: State) {
    && Safe(s) && s.effects != [] && s.record.Some? && (forall h :: !Live(s, h)) && JsonOutcomes(s)
    && (if s.record.value.status == Processing then s.record.value.expiresAt <= s.clock
        else s.record.value.status == Completed && s.record.value.body.Json?)
  }

  /** What recovery has found is a JSON object. */
  ghost predicate JsonOutcomes(s: State) {
    forall i :: i in s.requests && s.requests[i].phase.Completing? ==> s.requests[i].phase.outcome.body.Json?
  }

  lemma JsonOutcomesKept(s: State, e: Event)
    requires JsonOutcomes(s)
    ensures JsonOutcomes(Step(s, e))
  {
    hide Present, Admitted;
  }

  ghost predicate RowFollows(r: Record, r': Record) {
    && r'.hash == r.hash && (r.status == Completed ==> r'.status == Completed)
    && (r'.status == Processing ==> r' == r)
  }

  lemma AnswerableKept(s: State, e: Event)
    requires Answerable(s) && !Lapse(s, e)
    ensures Answerable(Step(s, e)) && Step(s, e).effects == s.effects
      && RowFollows(s.record.value, Step(s, e).record.value)
  {
    StepSafe(s, e);
    JsonOutcomesKept(s, e);
    hide Grounded, OneHandler, Present, Admitted, Recover;
    var t := Step(s, e);
    if e.Reclaim? && In(s, e.id, Reclaiming) { assert HasPhase(s, e.id, true); }
    if e.Commit? || e.Answer? { assert !Live(s, e.id); }
    forall h ensures Live(t, h) ==> Live(s, h) {}
  }

  /** In runs in time recovery of these operations misses nothing. */
  lemma {:induction false} RunTimely(s0: State, es: seq<Event>)
    requires Begins(s0) && AlwaysRecovers(s0.op) && OnTime(s0, es)
    ensures Safe(Run(s0, es)) && JsonOutcomes(Run(s0, es))
  {
    hide Step, Safe, Late, Blind, AlwaysRecovers, WellKeyed, JsonOutcomes;
    if es == [] {
      InitialSafe(s0);
      NoOutcomes(s0);
    } else {
      var s, e := Run(s0, es[..|es| - 1]), es[|es| - 1];
      RunTimely(s0, es[..|es| - 1]);
      SetupFixed(s0, es[..|es| - 1]);
      NeverBlind(s, e);
      StepSafe(s, e);
      JsonOutcomesKept(s, e);
    }
  }

  lemma NoOutcomes(s: State)
    requires s.requests == map[]
    ensures JsonOutcomes(s)
  {}

  predicate OwnEvent(e: Event, id: nat) { !e.Tick? && !e.Touch? && !e.Foreign? && e.id == id }

  /** The steps a request takes itself, in order. */
  ghost function Turns(es: seq<Event>, id: nat): seq<Event> {
    if es == [] then []
    else Turns(es[..|es| - 1], id) + if OwnEvent(es[|es| - 1], id) then [es[|es| - 1]] else []
  }

  /** How a retry goes that is let finish. */
  function RetryTurns(id: nat, hash: int): seq<Event> { [Arrive(id, hash), Find(id), TryRecover(id), Complete(id)] }

  ghost predicate Answered(s: State, p: Phase) {
    p.Done? && p.reply.Replayed? && p.reply.outcome.body.Json? && s.record.Some? && s.record.value.status == Completed
  }

  /** Where a retry is after n of its turns; a replay can come early. */
  ghost predicate RetryAt(s: State, id: nat, hash: int, n: nat) {
    if n == 0 then id !in s.requests
    else
      && id in s.requests && s.requests[id].hash == hash
      && var r := s.requests[id];
         if n == 1 then r.phase == Finding && s.record.Some?
           && (s.record.value.status == Processing ==> s.record.value.expiresAt <= r.now)
         else Answered(s, r.phase) || (n == 2 && r.phase == Recovering(false)) || (n == 3 && r.phase.Completing?)
  }

  lemma RetryMoves(s: State, e: Event, id: nat, hash: int, n: nat)
    requires Answerable(s) && !Lapse(s, e) && s.record.value.hash == hash && RetryAt(s, id, hash, n) && n < 4
    requires e == RetryTurns(id, hash)[n]
    ensures RetryAt(Step(s, e), id, hash, n + 1)
  {
    hide Safe, Present, Recover, Late;
  }

  lemma RetryWaits(s: State, e: Event, id: nat, hash: int, n: nat)
    requires Answerable(s) && !Lapse(s, e) && RetryAt(s, id, hash, n) && !OwnEvent(e, id)
    ensures RetryAt(Step(s, e), id, hash, n)
  {
    AnswerableKept(s, e);
    OthersWait(s, e, id);
    hide Step, Safe, Answerable, Lapse;
  }

  lemma OthersWait(s: State, e: Event, id: nat)
    requires !OwnEvent(e, id)
    ensures (id in Step(s, e).requests <==> id in s.requests)
    ensures id in s.requests ==> Step(s, e).requests[id] == s.requests[id]
  {
    hide Present, Recover, Admitted, Reclaimable, Forward;
  }

  lemma {:induction false} RetryProgress(s: State, es: seq<Event>, id: nat, hash: int)
    requires Answerable(s) && AlwaysRecovers(s.op) && WellKeyed(s.op, s.suffixes) && OnTime(s, es)
    requires s.record.value.hash == hash && id !in s.requests && Turns(es, id) <= RetryTurns(id, hash)
    ensures var t := Run(s, es);
      && Answerable(t) && t.effects == s.effects && t.record.value.hash == hash && RetryAt(t, id, hash, |Turns(es, id)|)
  {
    hide Step, Answerable, Late, Blind, AlwaysRecovers, WellKeyed, RetryAt, OwnEvent, RetryTurns;
    if es == [] {
      NotYet(s, id, hash);
    } else {
      var init, e := es[..|es| - 1], es[|es| - 1];
      var t, n := Run(s, init), |Turns(init, id)|;
      RetryProgress(s, init, id, hash);
      SetupFixed(s, init);
      NeverBlind(t, e);
      AnswerableRow(t);
      AnswerableKept(t, e);
      if OwnEvent(e, id) {
        assert Turns(es, id)[n] == e && RetryTurns(id, hash)[n] == e;
        FourTurns(id, hash);
        RetryMoves(t, e, id, hash, n);
      } else {
        RetryWaits(t, e, id, hash, n);
      }
    }
  }

  lemma NotYet(s: State, id: nat, hash: int)
    requires id !in s.requests
    ensures RetryAt(s, id, hash, 0)
  {}

  lemma FourTurns(id: nat, hash: int)
    ensures |RetryTurns(id, hash)| == 4
  {}

  lemma AnswerableRow(s: State)
    requires Answerable(s)
    ensures s.record.Some?
  {}

  /** A crash after the commit: once the lease is over, a retry of the same request that takes its four turns is
      answered from the committed data, whatever other requests do in between, and nothing more commits. */
  lemma RetryRecovers(s0: State, before: seq<Event>, es: seq<Event>, id: nat, hash: int)
    requires Begins(s0) && AlwaysRecovers(s0.op) && OnTime(s0, before + es)
    requires var s := Run(s0, before);
      && s.effects != [] && id !in s.requests && s.record.Some? && s.record.value.status == Processing
      && s.record.value.hash == hash && s.record.value.expiresAt <= s.clock
    requires Turns(es, id) == RetryTurns(id, hash)
    ensures var s, t := Run(s0, before), Run(s0, before + es);
      t.effects == s.effects && id in t.requests && Answered(t, t.requests[id].phase)
  {
    var s := Run(s0, before);
    hide Step, Late, Blind, AlwaysRecovers, WellKeyed;
    RunAppend(s0, before, es);
    RunTimely(s0, before);
    SetupFixed(s0, before);
    NobodyLive(s);
    RetryProgress(s, es, id, hash);
    FourTurns(id, hash);
  }

  lemma NobodyLive(s: State)
    requires Safe(s) && s.record.Some? && s.record.value.status == Processing && s.record.value.expiresAt <= s.clock
    ensures forall h :: !Live(s, h)
  {}

  lemma SameKeys(s: State, t: State)
    requires t.op == s.op && t.ekey == s.ekey && t.suffixes == s.suffixes && t.foreign == s.foreign
      && (t.effects == [] <==> s.effects == [])
    ensures Present(t) == Present(s) && Table(t) == Table(s)
  {
    assert OwnKeys(t) == OwnKeys(s);
  }

  // ---- Whose effect recovery finds ------------------------------------------------------------------

  /** What the prefix query of an inventory recovery returns. */
  ghost function Matched(s: State): set<string> { set k | k in Table(s) && StartsWith(k, s.ekey) }

  /** Recovery speaks of nothing but this key's own effect. */
  ghost predicate OwnRecovery(s: State) {
    Present(s) ==> s.effects != [] && (s.op == Inventory ==> Matched(s) <= OwnKeys(s))
  }

  /** Keys of others that start with this effect key: they continue it, or equal it when both have a common movement. */
  predicate Clear(s: State) { s.op == Inventory ==> !PrefixIn(s.foreign, s.ekey) }

  ghost predicate KeysApart(s: State) {
    && (s.effects != [] ==> GuardOf(s.op) == UniqueKey ==> OwnKeys(s) !! s.foreign)
    && (s.op != Inventory ==> s.ekey !in s.foreign)
  }

  lemma KeysApartStep(s: State, e: Event)
    requires KeysApart(s) && WellKeyed(s.op, s.suffixes)
    ensures KeysApart(Step(s, e))
  {
    assert OwnKeys(Step(s, e)) == OwnKeys(s);
  }

  lemma {:induction false} RunKeysApart(s0: State, es: seq<Event>)
    requires Begins(s0)
    ensures KeysApart(Run(s0, es))
  {
    hide Step;
    if es != [] {
      RunKeysApart(s0, es[..|es| - 1]);
      SetupFixed(s0, es[..|es| - 1]);
      KeysApartStep(Run(s0, es[..|es| - 1]), es[|es| - 1]);
    }
  }

  lemma OwnRecoveryIff(s: State)
    requires KeysApart(s) && WellKeyed(s.op, s.suffixes) && GuardOf(s.op) == UniqueKey
    ensures OwnRecovery(s) <==> Clear(s)
  {
    if s.op == Inventory && PrefixIn(s.foreign, s.ekey) {
      var k :| k in s.foreign && StartsWith(k, s.ekey);
      assert k in Table(s);
      if s.effects != [] { assert k in Matched(s) && k !in OwnKeys(s); }
    }
  }

  ghost function ForeignKeys(es: seq<Event>): set<string> {
    set i | 0 <= i < |es| && es[i].Foreign? :: es[i].key
  }

  lemma {:induction false} ForeignFrom(s0: State, es: seq<Event>)
    requires s0.foreign == {}
    ensures Run(s0, es).foreign <= ForeignKeys(es)
  {
    if es != [] {
      var init, e := es[..|es| - 1], es[|es| - 1];
      ForeignFrom(s0, init);
      assert ForeignKeys(init) <= ForeignKeys(es) by {
        forall k | k in ForeignKeys(init)
          ensures k in ForeignKeys(es)
        {
          var i :| 0 <= i < |init| && init[i].Foreign? && init[i].key == k;
          assert es[i] == init[i];
        }
      }
      if e.Foreign? { assert es[|es| - 1].key in ForeignKeys(es); }
    }
  }

  /** Over all runs in which others commit keys of a given kind: recovery of an inventory operation never answers with
      someone else's movements if and only if none of those keys starts with this effect key. */
  lemma OwnRecoveryRunsIff(s0: State, keys: iset<string>)
    requires Begins(s0) && s0.op == Inventory
    ensures (forall es :: (forall k :: k in ForeignKeys(es) ==> k in keys) ==> OwnRecovery(Run(s0, es)))
      <==> forall k :: k in keys ==> !StartsWith(k, s0.ekey)
  {
    hide Step, OwnRecovery, StartsWith;
    if forall k :: k in keys ==> !StartsWith(k, s0.ekey) {
      forall es | forall k :: k in ForeignKeys(es) ==> k in keys
        ensures OwnRecovery(Run(s0, es))
      {
        ForeignFrom(s0, es);
        RunKeysApart(s0, es);
        SetupFixed(s0, es);
        assert forall k :: k in Run(s0, es).foreign ==> k in keys;
        OwnRecoveryIff(Run(s0, es));
      }
    } else {
      var k :| k in keys && StartsWith(k, s0.ekey);
      var es := ForeignRecovered(s0, k);
      assert forall x :: x in ForeignKeys(es) ==> x == k;
    }
  }

  lemma ForeignRecovered(s0: State, k: string) returns (es: seq<Event>)
    requires Begins(s0) && s0.op == Inventory && StartsWith(k, s0.ekey)
    ensures es == [Foreign(k)] && !OwnRecovery(Run(s0, es))
  {
    es := [Foreign(k)];
    RunSnoc(s0, [], Foreign(k));
    assert [] + es == es;
    var t := Run(s0, es);
    assert k in t.foreign && k in Table(t) && StartsWith(k, t.ekey);
  }

  /** Recovery of a confirmation or a cancellation goes by the order's status, and speaks of this key if it
      committed. */
  ghost predicate OwnOutcome(s: State) { Recover(s.op, Present(s), s.view).Some? ==> s.effects != [] }

  predicate ByStatus(op: Operation) { op == OrderConfirm || op == OrderCancel }

  /** The order has the status recovery asks for. */
  predicate ShowsStatus(op: Operation, v: View) {
    v.orderId && v.status in (if op == OrderConfirm then {Confirmed, Fulfilled} else {Canceled})
  }

  /** Others change the order in the given ways only. */
  ghost predicate OnlyTouches(es: seq<Event>, others: iset<View>) {
    forall i :: 0 <= i < |es| && es[i].Touch? ==> es[i].view in others
  }

  ghost predicate Unmoved(s0: State, s: State, others: iset<View>) {
    s.effects == [] ==> s.view == s0.view || (s.view in others && Forward(s0.view, s.view))
  }

  lemma UnmovedStep(s0: State, s: State, e: Event, others: iset<View>)
    requires Unmoved(s0, s, others) && (e.Touch? ==> e.view in others)
    ensures Unmoved(s0, Step(s, e), others)
  {
    hide Present, Recover, Admitted, Reclaimable, Table, OwnKeys;
  }

  lemma {:induction false} RunUnmoved(s0: State, es: seq<Event>, others: iset<View>)
    requires Begins(s0) && OnlyTouches(es, others)
    ensures Unmoved(s0, Run(s0, es), others)
  {
    hide Step;
    if es != [] {
      RunUnmoved(s0, es[..|es| - 1], others);
      assert es[|es| - 1].Touch? ==> es[|es| - 1].view in others;
      UnmovedStep(s0, Run(s0, es[..|es| - 1]), es[|es| - 1], others);
    }
  }

  /** Over all runs in which others change the order in given ways, recovery of a confirmation or a cancellation never
      answers for another key if and only if the order neither has the status recovery asks for nor is given it. */
  lemma OwnStatusRunsIff(s0: State, others: iset<View>)
    requires Begins(s0) && ByStatus(s0.op)
    ensures (forall es :: OnlyTouches(es, others) ==> OwnOutcome(Run(s0, es)))
      <==> forall v :: v == s0.view || (v in others && Forward(s0.view, v)) ==> !ShowsStatus(s0.op, v)
  {
    hide Step, Forward;
    if v :| (v == s0.view || (v in others && Forward(s0.view, v))) && ShowsStatus(s0.op, v) {
      var es := if v == s0.view then [] else [Touch(v)];
      RunNil(s0);
      RunSnoc(s0, [], Touch(v));
      assert [] + [Touch(v)] == [Touch(v)];
      TouchView(s0, v);
      assert OnlyTouches(es, others) && Run(s0, es).view == v && Run(s0, es).effects == [] && Run(s0, es).op == s0.op;
      assert !OwnOutcome(Run(s0, es));
    } else {
      forall es | OnlyTouches(es, others)
        ensures OwnOutcome(Run(s0, es))
      {
        RunUnmoved(s0, es, others);
        SetupFixed(s0, es);
        var s := Run(s0, es);
        assert s.effects == [] ==> !ShowsStatus(s0.op, s.view);
      }
    }
  }

  lemma TouchView(s: State, v: View)
    ensures Forward(s.view, v) ==> Step(s, Touch(v)) == s.(view := v)
  {}

  // ---- Identity -----------------------------------------------------------------------------------

  /** Waiting for the row, or turned away. */
  ghost predicate Outside(p: Phase) {
    p.Finding? || p.Creating? || p.Looking? || (p.Done? && p.reply.Rejected?)
  }

  ghost predicate Identified(s: State) {
    forall id :: id in s.requests && !Outside(s.requests[id].phase) ==>
      s.record.Some? && s.record.value.hash == s.requests[id].hash
  }

  lemma IdentifiedKept(s: State, e: Event)
    requires Identified(s) && Grounded(s)
    ensures Identified(Step(s, e))
      && (s.record.Some? ==> Step(s, e).record.Some? && Step(s, e).record.value.hash == s.record.value.hash)
  {
  }

  lemma GroundedKept(s: State, e: Event)
    requires Grounded(s)
    ensures Grounded(Step(s, e))
  {
  }

  lemma {:induction false} RunIdentified(s0: State, es: seq<Event>)
    requires Begins(s0)
    ensures Identified(Run(s0, es)) && Grounded(Run(s0, es))
  {
    hide Step;
    if es != [] {
      var s := Run(s0, es[..|es| - 1]);
      RunIdentified(s0, es[..|es| - 1]);
      IdentifiedKept(s, es[|es| - 1]);
      GroundedKept(s, es[|es| - 1]);
    }
  }

  /** Two requests that are both answered by the handler or by a replay have the same identity. */
  lemma AnsweredAlike(s0: State, es: seq<Event>, a: nat, b: nat)
    requires Begins(s0)
    requires var s := Run(s0, es);
      a in s.requests && b in s.requests && !Outside(s.requests[a].phase) && !Outside(s.requests[b].phase)
    ensures var s := Run(s0, es); s.requests[a].hash == s.requests[b].hash
  {
    RunIdentified(s0, es);
  }

  // ---- The stored response ------------------------------------------------------------------------

  /** A COMPLETED row stays COMPLETED and a FAILED row stays FAILED. */
  ghost predicate Closed(s: State) {
    && (forall id :: id in s.requests && s.requests[id].phase.Completing? ==> s.effects != [])
    && (s.record.Some? && s.record.value.status == Completed ==>
          forall h :: Live(s, h) ==> s.requests[h].phase.committed)
    && (s.record.Some? && s.record.value.status == Failed ==> s.effects == [] && forall h :: !Live(s, h))
  }

  lemma ClosedKept(s: State, e: Event)
    requires Safe(s) && Closed(s) && !Lapse(s, e) && (Recover(s.op, Present(s), s.view).Some? ==> s.effects != [])
    ensures Closed(Step(s, e))
    ensures s.record.Some? && s.record.value.status != Processing ==>
      Step(s, e).record.Some? && Step(s, e).record.value.status == s.record.value.status
  {
    hide Present, Recover, Admitted, Blind, Step;
    match e {
      case Answer(id, code, body) => ClosedByAnswer(s, id, code, body);
      case Commit(id) => ClosedByCommit(s, id);
      case Complete(id) => ClosedByComplete(s, id);
      case Create(_) => ClosedByStart(s, e);
      case Reclaim(_) => ClosedByStart(s, e);
      case _ => ClosedOtherwise(s, e);
    }
  }

  lemma ClosedByAnswer(s: State, id: nat, code: int, body: Body)
    requires Safe(s) && Closed(s) && !Late(s, Answer(id, code, body))
    ensures var t := Step(s, Answer(id, code, body)); Closed(t) && SameFinal(s, t)
  {
    var t := Step(s, Answer(id, code, body));
    if t != s { assert Live(s, id) && !Live(t, id); }
    forall h ensures Live(t, h) ==> Live(s, h) {}
  }

  lemma ClosedByCommit(s: State, id: nat)
    requires Safe(s) && Closed(s) && !Late(s, Commit(id))
    ensures var t := Step(s, Commit(id)); Closed(t) && SameFinal(s, t)
  {
    hide Admitted;
    var t := Step(s, Commit(id));
    if t != s { assert Live(s, id); }
    forall h ensures Live(t, h) ==> Live(s, h) {}
  }

  lemma ClosedByComplete(s: State, id: nat)
    requires Safe(s) && Closed(s)
    ensures var t := Step(s, Complete(id)); Closed(t) && SameFinal(s, t)
  {
    hide Grounded, OneHandler;
    var t := Step(s, Complete(id));
    forall h ensures Live(t, h) ==> Live(s, h) && t.requests[h] == s.requests[h] {}
  }

  /** Who starts to handle the request has not committed, and the row says PROCESSING. */
  lemma ClosedByStart(s: State, e: Event)
    requires Closed(s) && (e.Create? || e.Reclaim?)
    ensures var t := Step(s, e); Closed(t) && SameFinal(s, t)
  {
    var t := Step(s, e);
    forall h | Live(t, h) && !Live(s, h) ensures !t.requests[h].phase.committed
      && t.record.value.status == Processing {}
  }

  lemma ClosedOtherwise(s: State, e: Event)
    requires Closed(s) && (Recover(s.op, Present(s), s.view).Some? ==> s.effects != [])
    requires !e.Answer? && !e.Commit? && !e.Complete? && !e.Create? && !e.Reclaim?
    ensures var t := Step(s, e); Closed(t) && SameFinal(s, t)
  {
    hide Present, Recover;
    var t := Step(s, e);
    assert t.record == s.record && t.effects == s.effects;
    forall h ensures Live(t, h) ==> Live(s, h) && t.requests[h] == s.requests[h] {}
  }

  ghost predicate SameFinal(s: State, t: State) {
    s.record.Some? && s.record.value.status != Processing ==>
      t.record.Some? && t.record.value.status == s.record.value.status
  }

  /** No key that starts with this effect key arrives. */
  ghost predicate StaysClear(s: State, es: seq<Event>) {
    s.op == Inventory ==> forall k :: k in ForeignKeys(es) ==> !StartsWith(k, s.ekey)
  }

  lemma StaysClearPrefix(s: State, es: seq<Event>)
    requires es != [] && StaysClear(s, es)
    ensures StaysClear(s, es[..|es| - 1])
      && (s.op == Inventory && es[|es| - 1].Foreign? ==> !StartsWith(es[|es| - 1].key, s.ekey))
  {
    var init := es[..|es| - 1];
    forall k | k in ForeignKeys(init)
      ensures k in ForeignKeys(es)
    {
      var i :| 0 <= i < |init| && init[i].Foreign? && init[i].key == k;
      assert es[i] == init[i];
    }
    if es[|es| - 1].Foreign? { assert es[|es| - 1].key in ForeignKeys(es); }
  }

  lemma ClearStep(s: State, e: Event)
    requires Clear(s) && (s.op == Inventory && e.Foreign? ==> !StartsWith(e.key, s.ekey))
    ensures Clear(Step(s, e))
  {}

  lemma ClearIsSound(s: State)
    requires Clear(s) && KeysApart(s) && WellKeyed(s.op, s.suffixes) && AlwaysRecovers(s.op)
    ensures Recover(s.op, Present(s), s.view).Some? ==> s.effects != []
  {
    RecoveredOperations(s.op);
    OwnRecoveryIff(s);
  }

  /** For the operations recovery always finds: as long as no handler outlives its lease and no other movement key
      starts with the effect key, a row that is COMPLETED or FAILED keeps that status. */
  lemma {:induction false} StatusIsFinal(s: State, es: seq<Event>)
    requires Safe(s) && Closed(s) && Clear(s) && KeysApart(s) && WellKeyed(s.op, s.suffixes) && AlwaysRecovers(s.op)
    requires OnTime(s, es) && StaysClear(s, es)
    ensures var t := Run(s, es); Safe(t) && Closed(t) && Clear(t) && KeysApart(t) && SameFinal(s, t)
  {
    hide Step, Late, Safe, Closed, Clear, KeysApart, WellKeyed, AlwaysRecovers, StaysClear;
    if es != [] {
      var t, e := Run(s, es[..|es| - 1]), es[|es| - 1];
      StaysClearPrefix(s, es);
      StatusIsFinal(s, es[..|es| - 1]);
      SetupFixed(s, es[..|es| - 1]);
      NeverBlind(t, e);
      assert !Lapse(t, e);
      ClearIsSound(t);
      StepSafe(t, e);
      ClosedKept(t, e);
      ClearStep(t, e);
      KeysApartStep(t, e);
    }
  }

  /** A movement under a key that continues this one turns a FAILED row of an inventory operation into a COMPLETED one
      with another request's data, though nothing of this key has committed. */
  lemma FailedRowCompleted(s0: State, k: string, hash: int) returns (es: seq<Event>, more: seq<Event>)
    requires Begins(s0) && s0.op == Inventory && StartsWith(k, s0.ekey)
    ensures OnTime(s0, es + more) && ForeignKeys(es + more) == {k}
    ensures var s, t := Run(s0, es), Run(s0, es + more);
      && s.record.Some? && s.record.value.status == Failed && t.record.Some? && t.record.value.status == Completed
        && t.effects == []
      && 2 in t.requests && t.requests[2].phase == Done(Replayed(Outcome(200, Json(s0.view.row))))
  {
    hide Run, OnTime;
    var q, row := Request(hash, s0.ttl, Recovering(false)), Record(hash, Processing, 0, Falsy, s0.ttl);
    es := ThirdReclaims(s0, hash);
    RunSnoc(s0, es, Answer(3, 409, Falsy));
    es := es + [Answer(3, 409, Falsy)];
    var s3 := Run(s0, es);
    assert s3.requests == map[2 := q, 3 := q.(phase := Done(Handled(Outcome(409, Falsy))))];
    assert s3.record == Some(row.(expiresAt := s0.ttl + s0.ttl, status := Failed, code := 409));
    more := CompleteFromForeign(s0, es, k);
  }

  lemma NothingPresent(s: State)
    requires s.foreign == {} && s.effects == []
    ensures !Present(s) && Table(s) == {}
  {}

  lemma CompleteFromForeign(s0: State, es: seq<Event>, k: string) returns (more: seq<Event>)
    requires s0.op == Inventory && StartsWith(k, s0.ekey) && OnTime(s0, es) && ForeignKeys(es) == {}
    requires var s := Run(s0, es);
      && s.op == Inventory && s.ekey == s0.ekey && s.foreign == {} && s.effects == [] && s.record.Some?
      && 2 in s.requests && s.requests[2].phase == Recovering(false) && s.view == s0.view
    ensures OnTime(s0, es + more) && ForeignKeys(es + more) == {k}
    ensures var t := Run(s0, es + more);
      && t.record.Some? && t.record.value.status == Completed && t.effects == []
      && 2 in t.requests && t.requests[2].phase == Done(Replayed(Outcome(200, Json(s0.view.row))))
  {
    hide Run, OnTime, ForeignKeys;
    var s := Run(s0, es);
    NothingPresent(s);
    RunSnoc(s0, es, Foreign(k));
    var a := Run(s0, es + [Foreign(k)]);
    assert a == s.(foreign := {k});
    assert k in Table(a) && StartsWith(k, a.ekey) && Present(a);
    RunSnoc(s0, es + [Foreign(k)], TryRecover(2));
    var b := Run(s0, es + [Foreign(k)] + [TryRecover(2)]);
    assert b == Moved(a, 2, Completing(Outcome(200, Json(s0.view.row))));
    RunSnoc(s0, es + [Foreign(k)] + [TryRecover(2)], Complete(2));
    more := [Foreign(k), TryRecover(2), Complete(2)];
    assert es + more == es + [Foreign(k)] + [TryRecover(2)] + [Complete(2)];
    OneForeign(es, more, k);
  }

  lemma ForeignListed(es: seq<Event>, i: nat)
    requires i < |es|
    ensures es[i].Foreign? ==> es[i].key in ForeignKeys(es)
  {}

  lemma OneForeign(es: seq<Event>, more: seq<Event>, k: string)
    requires ForeignKeys(es) == {} && more == [Foreign(k), TryRecover(2), Complete(2)]
    ensures ForeignKeys(es + more) == {k}
  {
    var all := es + more;
    assert all[|es|] == Foreign(k);
    forall i: nat | i < |es|
      ensures !all[i].Foreign?
    {
      ForeignListed(es, i);
    }
  }

  /** Exactly then: over all runs in time in which others commit keys of a given kind, the status of a finished row of
      an inventory operation never changes if and only if none of those keys starts with this effect key. */
  lemma StatusIsFinalIff(s0: State, keys: iset<string>, hash: int)
    requires Begins(s0) && s0.op == Inventory
    ensures (forall es, more :: OnTime(s0, es + more) && (forall k :: k in ForeignKeys(es + more) ==> k in keys)
               ==> SameFinal(Run(s0, es), Run(s0, es + more)))
      <==> forall k :: k in keys ==> !StartsWith(k, s0.ekey)
  {
    hide Step, SameFinal, StartsWith, Late;
    if forall k :: k in keys ==> !StartsWith(k, s0.ekey) {
      forall es, more | OnTime(s0, es + more) && forall k :: k in ForeignKeys(es + more) ==> k in keys
        ensures SameFinal(Run(s0, es), Run(s0, es + more))
      {
        FinalAcross(s0, es, more);
      }
    } else {
      var k :| k in keys && StartsWith(k, s0.ekey);
      var es, more := FailedRowCompleted(s0, k, hash);
      NotSameFinal(Run(s0, es), Run(s0, es + more));
    }
  }

  lemma NotSameFinal(s: State, t: State)
    requires s.record.Some? && s.record.value.status == Failed && t.record.Some? && t.record.value.status == Completed
    ensures !SameFinal(s, t)
  {}

  lemma {:induction false} RunAppend(s: State, a: seq<Event>, b: seq<Event>)
    ensures Run(s, a + b) == Run(Run(s, a), b)
    ensures OnTime(s, a + b) <==> OnTime(s, a) && OnTime(Run(s, a), b)
  {
    hide Step, Late;
    if b == [] {
      assert a + b == a;
    } else {
      RunAppend(s, a, b[..|b| - 1]);
      assert (a + b)[..|a + b| - 1] == a + b[..|b| - 1];
    }
  }

  lemma FinalAcross(s0: State, es: seq<Event>, more: seq<Event>)
    requires Begins(s0) && s0.op == Inventory && OnTime(s0, es + more)
    requires forall k :: k in ForeignKeys(es + more) ==> !StartsWith(k, s0.ekey)
    ensures SameFinal(Run(s0, es), Run(s0, es + more))
  {
    hide Step, Late, SameFinal, StartsWith;
    InitialSafe(s0);
    RecoveredOperations(s0.op);
    RunAppend(s0, es, more);
    SetupFixed(s0, es);
    ForeignSplit(es, more);
    assert Clear(s0) && KeysApart(s0);
    StatusIsFinal(s0, es);
    StatusIsFinal(Run(s0, es), more);
  }

  lemma ForeignSplit(a: seq<Event>, b: seq<Event>)
    ensures ForeignKeys(a) <= ForeignKeys(a + b) && ForeignKeys(b) <= ForeignKeys(a + b)
  {
    forall k | k in ForeignKeys(a)
      ensures k in ForeignKeys(a + b)
    {
      var i :| 0 <= i < |a| && a[i].Foreign? && a[i].key == k;
      assert (a + b)[i] == a[i];
    }
    forall k | k in ForeignKeys(b)
      ensures k in ForeignKeys(a + b)
    {
      var i :| 0 <= i < |b| && b[i].Foreign? && b[i].key == k;
      assert (a + b)[|a| + i] == b[i];
    }
  }

  // ---- Replacing a stored response ------------------------------------------------------------------

  ghost predicate SameResponse(s: State, t: State)
    requires s.record.Some?
  {
    t.record.Some? && t.record.value.status == s.record.value.status
    && t.record.value.code == s.record.value.code && t.record.value.body == s.record.value.body
  }

  /** Whether recovery can find anything now or later, without another execution of this key's handler. */
  predicate MayRecover(s: State) {
    match s.op
    case OrderCreate | ReturnCreate | PosSaleCreate => s.effects != []
    case Inventory => true
    case OrderConfirm => s.view.orderId && s.view.status != Canceled
    case OrderCancel => s.view.orderId
    case _ => false
  }

  /** A request in flight that can still change the stored response: it runs the handler, inside its lease where only
      continuations in time are asked for; it is about to ask for a committed outcome that can be there; or it is about
      to store another outcome than the stored one. */
  ghost predicate Writer(s: State, id: nat, inTime: bool)
    requires s.record.Some?
  {
    id in s.requests &&
    match s.requests[id].phase
    case Handling(_) => inTime ==> Live(s, id)
    case Recovering(_) => MayRecover(s)
    case Completing(out) => out.code != s.record.value.code || out.body != s.record.value.body
    case _ => false
  }

  ghost predicate NoWriter(s: State, inTime: bool) {
    s.record.Some? && s.record.value.status == Completed && forall id :: !Writer(s, id, inTime)
  }

  lemma NothingToRecover(s: State)
    requires !MayRecover(s) && KeysApart(s) && WellKeyed(s.op, s.suffixes)
    ensures Recover(s.op, Present(s), s.view).None?
  {}

  lemma NoWriterKept(s: State, e: Event, inTime: bool)
    requires NoWriter(s, inTime) && KeysApart(s) && WellKeyed(s.op, s.suffixes) && (inTime ==> !Late(s, e))
    ensures NoWriter(Step(s, e), inTime) && SameResponse(s, Step(s, e))
  {
    hide Present, Recover, Admitted, WellKeyed, KeysApart;
    var t := Step(s, e);
    if e.TryRecover? && e.id in s.requests && s.requests[e.id].phase.Recovering? {
      assert !Writer(s, e.id, inTime);
      NothingToRecover(s);
    }
    if e.Answer? || e.Commit? || e.Complete? { assert !Writer(s, e.id, inTime); }
    assert MayRecover(t) ==> MayRecover(s);
    forall id
      ensures !Writer(t, id, inTime)
    {
      assert !Writer(s, id, inTime);
    }
  }

  lemma {:induction false} NoWriterForever(s: State, es: seq<Event>, inTime: bool)
    requires NoWriter(s, inTime) && KeysApart(s) && WellKeyed(s.op, s.suffixes) && (inTime ==> OnTime(s, es))
    ensures NoWriter(Run(s, es), inTime) && KeysApart(Run(s, es)) && SameResponse(s, Run(s, es))
  {
    hide Step, Writer, KeysApart, WellKeyed, Late;
    if es != [] {
      NoWriterForever(s, es[..|es| - 1], inTime);
      SetupFixed(s, es[..|es| - 1]);
      NoWriterKept(Run(s, es[..|es| - 1]), es[|es| - 1], inTime);
      KeysApartStep(Run(s, es[..|es| - 1]), es[|es| - 1]);
    }
  }

  /** What the environment needs to do for recovery to find something with another row. */
  lemma RecoveryArrives(s: State, row: int) returns (es: seq<Event>)
    requires MayRecover(s) && WellKeyed(s.op, s.suffixes)
    ensures var t := Run(s, es);
      && Recover(t.op, Present(t), t.view).Some? && Recover(t.op, Present(t), t.view).value.body == Json(row)
      && t.requests == s.requests && t.record == s.record && OnTime(s, es)
  {
    var status := match s.op case OrderConfirm => (if s.view.status == Draft then Confirmed else s.view.status)
                             case OrderCancel => Canceled case _ => s.view.status;
    var v := View(row, true, true, true, true, s.view.orderId, status, s.view.moved);
    RunSnoc(s, [], Touch(v));
    assert [] + [Touch(v)] == [Touch(v)];
    RunNil(s);
    hide Run, OnTime;
    var a := Run(s, [Touch(v)]);
    assert a == s.(view := v);
    if s.op == Inventory && !Present(a) {
      RunSnoc(s, [Touch(v)], Foreign(s.ekey));
      es := [Touch(v)] + [Foreign(s.ekey)];
      var b := Run(s, es);
      assert StartsWith(s.ekey, s.ekey);
      assert s.ekey in Table(b);
    } else {
      es := [Touch(v)];
      if s.effects != [] { PresentWhenCommitted(a); }
    }
  }

  lemma RecoveringCanChange(s: State, id: nat, row: int) returns (es: seq<Event>)
    requires s.record.Some? && MayRecover(s) && WellKeyed(s.op, s.suffixes) && s.record.value.body != Json(row)
    requires id in s.requests && s.requests[id].phase.Recovering?
    ensures !SameResponse(s, Run(s, es)) && OnTime(s, es)
  {
    hide Present, Recover, WellKeyed, MayRecover, Run, OnTime;
    es := RecoveryArrives(s, row);
    var a := Run(s, es);
    RunSnoc(s, es, TryRecover(id));
    var b := Step(a, TryRecover(id));
    assert b == Moved(a, id, Completing(Recover(a.op, Present(a), a.view).value));
    RunSnoc(s, es + [TryRecover(id)], Complete(id));
    assert Step(b, Complete(id)).record.value.body == Json(row);
    es := es + [TryRecover(id)] + [Complete(id)];
  }

  lemma WriterCanChange(s: State, id: nat, inTime: bool) returns (es: seq<Event>)
    requires s.record.Some? && s.record.value.status == Completed && Writer(s, id, inTime)
      && WellKeyed(s.op, s.suffixes)
    ensures !SameResponse(s, Run(s, es)) && (inTime ==> OnTime(s, es))
  {
    hide Present, Recover, Admitted, WellKeyed, MayRecover;
    var row := if s.record.value.body == Json(0) then 1 else 0;
    match s.requests[id].phase {
      case Handling(_) =>
        var code := if s.requests[id].phase.committed then 200 else 409;
        RunSnoc(s, [], Answer(id, code, Json(row)));
        es := [] + [Answer(id, code, Json(row))];
      case Completing(_) =>
        RunSnoc(s, [], Complete(id));
        es := [] + [Complete(id)];
      case Recovering(_) =>
        es := RecoveringCanChange(s, id, row);
    }
  }

  /** Some continuation, or some continuation in which no handler outlives its lease, changes the stored response
      exactly if such a request is in flight. */
  lemma OverwrittenIff(s: State, inTime: bool)
    requires s.record.Some? && s.record.value.status == Completed && KeysApart(s) && WellKeyed(s.op, s.suffixes)
    ensures (exists es :: (inTime ==> OnTime(s, es)) && !SameResponse(s, Run(s, es))) <==>
      exists id :: Writer(s, id, inTime)
  {
    hide Step, Writer, SameResponse, KeysApart, WellKeyed, OnTime;
    if id :| Writer(s, id, inTime) {
      var es := WriterCanChange(s, id, inTime);
    } else {
      forall es | inTime ==> OnTime(s, es)
        ensures SameResponse(s, Run(s, es))
      {
        NoWriterForever(s, es, inTime);
      }
    }
  }

  /** It happens: request 2 looks while the lease of the crashed request 1 is over, request 3 reclaims and
      commits, 2 recovers and completes the row, and then 3 answers and replaces the stored response. */
  lemma CompletedResponseReplaced(s0: State, hash: int, body: Body) returns (es: seq<Event>, stored: Record)
    requires Begins(s0) && s0.op == OrderCreate && body != Json(s0.view.row)
    ensures Run(s0, es).record == Some(stored) && stored.status == Completed && stored.body == Json(s0.view.row)
    ensures Run(s0, es + [Answer(3, 201, body)]).record == Some(stored.(body := body))
      && OnTime(s0, es + [Answer(3, 201, body)])
  {
    hide Run, OnTime, Present, Table, OwnKeys;
    var s;
    es, s := SecondCommits(s0, hash);
    PresentWhenCommitted(s);
    RunSnoc(s0, es, TryRecover(2));
    es := es + [TryRecover(2)];
    var t := Moved(s, 2, Completing(Outcome(201, Json(s0.view.row))));
    assert Run(s0, es) == t;
    RunSnoc(s0, es, Complete(2));
    es := es + [Complete(2)];
    stored := Record(hash, Completed, 201, Json(s0.view.row), s0.ttl + s0.ttl);
    RunSnoc(s0, es, Answer(3, 201, body));
    ReplacedByAnswer(t, hash, s0.view.row, body);
  }

  lemma ReplacedByAnswer(t: State, hash: int, row: int, body: Body)
    requires 2 in t.requests && t.requests[2].phase == Completing(Outcome(201, Json(row))) && 3 in t.requests
    requires t.requests[3] == Request(hash, t.clock, Handling(true)) && t.requests[2].now == t.clock == t.ttl > 0
    requires t.record.Some? && t.record.value.hash == hash
    ensures var a := Step(t, Complete(2)); var stored := Record(hash, Completed, 201, Json(row), t.ttl + t.ttl);
      && a.record == Some(stored) && !Late(a, Answer(3, 201, body))
      && Step(a, Answer(3, 201, body)).record == Some(stored.(body := body))
  {
  }

  lemma SecondCommits(s0: State, hash: int) returns (es: seq<Event>, t: State)
    requires Begins(s0) && s0.op == OrderCreate
    ensures Run(s0, es) == t && OnTime(s0, es)
    ensures var q := Request(hash, s0.ttl, Recovering(false));
      t == s0.(clock := s0.ttl, record := Some(Record(hash, Processing, 0, Falsy, s0.ttl + s0.ttl)),
               requests := map[2 := q, 3 := q.(phase := Handling(true))], effects := [3])
  {
    hide Run, OnTime;
    es := ThirdReclaims(s0, hash);
    var q := Request(hash, s0.ttl, Recovering(false));
    var s2 := s0.(clock := s0.ttl, record := Some(Record(hash, Processing, 0, Falsy, s0.ttl + s0.ttl)),
                  requests := map[2 := q, 3 := q.(phase := Handling(false))]);
    NothingPresent(s2);
    RunSnoc(s0, es, Commit(3));
    es := es + [Commit(3)];
    assert [] + [3 as nat] == [3];
    t := s2.(requests := map[2 := q, 3 := q.(phase := Handling(true))], effects := [3]);
  }

  /** The second of the two retries finds nothing to recover and reclaims the row. */
  lemma ThirdReclaims(s0: State, hash: int) returns (es: seq<Event>)
    requires Begins(s0) && (s0.op == OrderCreate || s0.op == Inventory)
    ensures var q := Request(hash, s0.ttl, Recovering(false));
      Run(s0, es) == s0.(clock := s0.ttl, record := Some(Record(hash, Processing, 0, Falsy, s0.ttl + s0.ttl)),
                         requests := map[2 := q, 3 := q.(phase := Handling(false))])
    ensures OnTime(s0, es) && ForeignKeys(es) == {}
  {
    hide Run, OnTime, Present;
    es := TwoRetries(s0, hash);
    var q, row := Request(hash, s0.ttl, Recovering(false)), Record(hash, Processing, 0, Falsy, s0.ttl);
    var s := s0.(clock := s0.ttl, record := Some(row), requests := map[2 := q, 3 := q]);
    NothingPresent(s);
    RunSnoc(s0, es, TryRecover(3));
    es := es + [TryRecover(3)];
    var s1 := s.(requests := map[2 := q, 3 := q.(phase := Reclaiming)]);
    assert Run(s0, es) == s1;
    RunSnoc(s0, es, Reclaim(3));
    es := es + [Reclaim(3)];
    assert In(s1, 3, Reclaiming);
  }

  /** Request 1 crashes before it commits, and two retries look at its expired lease. */
  lemma TwoRetries(s0: State, hash: int) returns (es: seq<Event>)
    requires Begins(s0)
    ensures var q := Request(hash, s0.ttl, Recovering(false));
      Run(s0, es) == s0.(clock := s0.ttl, record := Some(Record(hash, Processing, 0, Falsy, s0.ttl)),
        requests := map[2 := q, 3 := q])
    ensures OnTime(s0, es) && ForeignKeys(es) == {}
  {
    hide Run, OnTime;
    RunNil(s0);
    var ttl := s0.ttl;
    es := [];
    RunSnoc(s0, es, Arrive(1, hash));
    es := es + [Arrive(1, hash)];
    assert Run(s0, es) == s0.(requests := map[1 := Request(hash, 0, Finding)]);
    RunSnoc(s0, es, Find(1));
    es := es + [Find(1)];
    assert Run(s0, es) == s0.(requests := map[1 := Request(hash, 0, Creating)]);
    RunSnoc(s0, es, Create(1));
    es := es + [Create(1)];
    RunSnoc(s0, es, Crash(1));
    es := es + [Crash(1)];
    assert Run(s0, es).requests == map[];
    RunSnoc(s0, es, Tick(ttl));
    es := es + [Tick(ttl)];
    var s := s0.(clock := ttl, record := Some(Record(hash, Processing, 0, Falsy, ttl)));
    assert Run(s0, es) == s;
    var q := Request(hash, ttl, Recovering(false));
    RunSnoc(s0, es, Arrive(2, hash));
    es := es + [Arrive(2, hash)];
    assert Run(s0, es) == s.(requests := map[2 := Request(hash, ttl, Finding)]);
    RunSnoc(s0, es, Find(2));
    es := es + [Find(2)];
    assert Run(s0, es) == s.(requests := map[2 := q]);
    RunSnoc(s0, es, Arrive(3, hash));
    es := es + [Arrive(3, hash)];
    assert Run(s0, es) == s.(requests := map[2 := q, 3 := Request(hash, ttl, Finding)]);
    RunSnoc(s0, es, Find(3));
    es := es + [Find(3)];
  }

  /** The response is final: stored, and nobody is left who could write the row. */
  ghost predicate Settled(s: State) {
    && s.record.Some? && s.record.value.status == Completed && s.record.value.body.Json?
    && forall id :: id in s.requests ==>
         !s.requests[id].phase.Recovering? && !s.requests[id].phase.Completing? && !s.requests[id].phase.Handling?
  }

  /** How a request that arrives after the response is final ends. */
  ghost function FinalReply(r: Record, hash: int): Reply {
    if hash == r.hash then Replayed(Outcome(CodeOr200(r.code), r.body)) else Rejected(KeyReused)
  }

  lemma SettledKept(s: State, e: Event)
    requires Settled(s)
    ensures Settled(Step(s, e)) && Step(s, e).record == s.record && Step(s, e).effects == s.effects
  {
  }

  ghost predicate OnlyReplays(s: State, news: set<nat>) {
    s.record.Some? && forall id :: id in news && id in s.requests ==>
      s.requests[id].phase == Finding || s.requests[id].phase == Done(FinalReply(s.record.value, s.requests[id].hash))
  }

  /** From a settled state on, in every run: the row and the effects never change, and every request that
      arrives from then on is answered with the stored response, or refused if its identity differs. */
  lemma {:induction false} SettledForever(s: State, es: seq<Event>, news: set<nat>)
    requires Settled(s) && forall id :: id in news ==> id !in s.requests
    ensures var t := Run(s, es); Settled(t) && t.record == s.record && t.effects == s.effects && OnlyReplays(t, news)
  {
    if es != [] {
      var t := Run(s, es[..|es| - 1]);
      SettledForever(s, es[..|es| - 1], news);
      SettledKept(t, es[|es| - 1]);
      ReplaysKept(t, es[|es| - 1], news);
    }
  }

  lemma ReplaysKept(s: State, e: Event, news: set<nat>)
    requires Settled(s) && OnlyReplays(s, news)
    ensures OnlyReplays(Step(s, e), news)
  {
    SettledKept(s, e);
  }
}

/** What an answer promises: the business result a request is told about is in the database, and a retry of a request
    that left no result executes it. */
module IdempotencyResults {
  import opened Options
  import opened Idempotency
  import opened IdempotencyRuns

  /** The business result of an operation, as the database shows it. */
  ghost predicate ResultThere(s: State) {
    match s.op
    case OrderCreate | ReturnCreate | HistoricalCommit => s.ekey in Table(s)
    case PosSaleCreate => s.ekey in Table(s) && s.view.paid && s.view.storeActive && s.view.movement && s.view.warehouse
    case Inventory => exists k :: k in Table(s) && s.ekey <= k
    case OrderConfirm => s.view.orderId && s.view.status in {Confirmed, Fulfilled}
    case OrderCancel => s.view.orderId && s.view.status == Canceled
    case ImportCommit | StockTakeStart | StockTakeComplete | StockTakeCancel => s.view.moved
    case StockTakeCreate | StockTakeCounts => s.effects != []
  }

  /** What nobody takes back of it. */
  ghost predicate Lasting(s: State) {
    match s.op
    case OrderCreate | ReturnCreate | HistoricalCommit | PosSaleCreate => s.ekey in Table(s)
    case OrderConfirm => s.view.status != Draft
    case _ => ResultThere(s)
  }

  /** The operations recovery has a query for, and the code their handlers answer with. */
  predicate Asked(op: Operation) {
    op in {OrderCreate, PosSaleCreate, ReturnCreate, Inventory, OrderConfirm, OrderCancel}
  }

  function SuccessCode(op: Operation): int {
    if op in {OrderCreate, PosSaleCreate, ReturnCreate, StockTakeCreate} then 201 else 200
  }

  /** Recovery answers exactly when the operation has a query and its result is there, with the code of the operation
      and the row that was found. */
  lemma RecoveryAnswersIff(s: State, id: nat)
    requires id in s.requests && s.requests[id].phase.Recovering?
    ensures var t := Step(s, TryRecover(id));
      if Asked(s.op) && ResultThere(s)
      then t == Moved(s, id, Completing(Outcome(SuccessCode(s.op), Json(s.view.row))))
      else t == Moved(s, id, if s.requests[id].phase.again then Done(Rejected(InProgress)) else Reclaiming)
  {
    hide Table;
    if s.op == Inventory && exists k :: k in Table(s) && s.ekey <= k {
      var k :| k in Table(s) && s.ekey <= k;
      assert StartsWith(k, s.ekey);
    }
    if Present(s) && s.op == Inventory { var k :| k in Table(s) && StartsWith(k, s.ekey); }
  }

  /** A transaction that goes through leaves the result, and one whose guard is a status finds none before it. */
  lemma CommitLeavesResult(s: State, id: nat)
    requires In(s, id, Handling(false)) && Admitted(s) && WellKeyed(s.op, s.suffixes)
    ensures ResultThere(Step(s, Commit(id)))
    ensures GuardOf(s.op) == StatusMove ==> !ResultThere(s)
    ensures var t := Step(s, Commit(id));
      && t.effects == s.effects + [id] && t.record == s.record && t.foreign == s.foreign
      && (s.op == OrderConfirm ==> t.view == s.view.(status := Confirmed))
      && (s.op == OrderCancel ==> t.view == s.view.(status := Canceled))
      && (s.op == PosSaleCreate ==> t.view == s.view.(paid := true, movement := true))
      && (s.op != OrderConfirm && s.op != OrderCancel && s.op != PosSaleCreate ==>
            t.view == s.view.(moved := t.view.moved) && (s.view.moved ==> t.view.moved))
  {
    var t := Step(s, Commit(id));
    assert OwnKeys(t) == OwnKeys(s) && OwnKeys(t) <= Table(t);
    var x :| x in s.suffixes;
    assert s.ekey + x in OwnKeys(s);
    if s.op != Inventory { assert x == "" && s.ekey + x == s.ekey; }
  }

  lemma LastingKept(s: State, e: Event)
    requires Lasting(s)
    ensures Lasting(Step(s, e))
  {
    hide Present, Recover, Admitted, Reclaimable, OwnKeys;
    var t := Step(s, e);
    assert OwnKeys(t) == OwnKeys(s) by { SameOwnKeys(s, t, e); }
    assert Table(s) <= Table(t);
  }

  lemma SameOwnKeys(s: State, t: State, e: Event)
    requires t == Step(s, e)
    ensures OwnKeys(t) == OwnKeys(s)
  {
    StepFixed(s, e);
  }

  /** Handlers that succeed answer with the code of their operation. */
  predicate OwnCodes(op: Operation, es: seq<Event>) {
    forall i :: 0 <= i < |es| && es[i].Answer? && es[i].code < 400 ==> es[i].code == SuccessCode(op)
  }

  /** The result was there at some point of the run. */
  ghost predicate WasThere(s0: State, es: seq<Event>) {
    exists n :: 0 <= n <= |es| && ResultThere(Run(s0, es[..n]))
  }

  /** Requests that tell of a result, or are about to. */
  predicate Tells(p: Phase) {
    match p
    case Handling(committed) => committed
    case Completing(_) => true
    case Done(Replayed(_)) => true
    case Done(Handled(out)) => out.code < 400
    case _ => false
  }

  predicate RightCode(p: Phase, code: int) {
    match p
    case Completing(out) => out.code == code
    case Done(Replayed(out)) => out.code == code
    case Done(Handled(out)) => out.code < 400 ==> out.code == code
    case _ => true
  }

  ghost predicate Backed(s: State, was: bool) {
    && (forall id :: id in s.requests ==> BackedPhase(s.requests[id].phase, SuccessCode(s.op), was))
    && BackedRow(s, was) && (was ==> Lasting(s))
  }

  predicate BackedPhase(p: Phase, code: int, was: bool) { (Tells(p) ==> was) && RightCode(p, code) }

  ghost predicate BackedRow(s: State, was: bool) {
    s.record.Some? && s.record.value.status == Completed ==> was && s.record.value.code == SuccessCode(s.op)
  }

  lemma ResultLasts(s: State)
    requires ResultThere(s)
    ensures Lasting(s)
  {}

  /** Requests that wait or find the row tell of it only what it tells. */
  lemma PhaseKept(s: State, e: Event, was: bool, id: nat)
    requires Backed(s, was) && !e.Commit? && !e.TryRecover? && !e.Answer? && id in Step(s, e).requests
    ensures BackedPhase(Step(s, e).requests[id].phase, SuccessCode(s.op), was)
  {
    hide Lasting, Forward, SuccessCode;
    if id in s.requests { assert BackedPhase(s.requests[id].phase, SuccessCode(s.op), was); }
    CodesGiven(s.op);
  }

  lemma CodesGiven(op: Operation)
    ensures 0 < SuccessCode(op) < 400
  {}

  lemma WaitKeeps(s: State, e: Event, was: bool)
    requires Backed(s, was) && !e.Commit? && !e.TryRecover? && !e.Answer?
    ensures var t := Step(s, e); BackedRow(t, was) && t.op == s.op
    ensures var t := Step(s, e);
      forall id :: id in t.requests ==> BackedPhase(t.requests[id].phase, SuccessCode(t.op), was)
  {
    StepFixed(s, e);
    forall id | id in Step(s, e).requests
      ensures BackedPhase(Step(s, e).requests[id].phase, SuccessCode(s.op), was)
    {
      PhaseKept(s, e, was, id);
    }
    if e.Complete? && e.id in s.requests { assert BackedPhase(s.requests[e.id].phase, SuccessCode(s.op), was); }
    hide BackedPhase, Lasting, Forward, SuccessCode;
  }

  lemma RecoverKeeps(s: State, id: nat, was: bool)
    requires Backed(s, was) && (ResultThere(s) ==> was)
    ensures var t := Step(s, TryRecover(id)); BackedRow(t, was) && t.op == s.op
    ensures var t := Step(s, TryRecover(id));
      forall id :: id in t.requests ==> BackedPhase(t.requests[id].phase, SuccessCode(t.op), was)
  {
    if id in s.requests && s.requests[id].phase.Recovering? { RecoveryAnswersIff(s, id); }
    hide Lasting, ResultThere, Recover, Present, SuccessCode;
  }

  lemma CommitKeeps(s: State, id: nat, was: bool, now: bool)
    requires Backed(s, was) && WellKeyed(s.op, s.suffixes) && (was ==> now)
    requires ResultThere(Step(s, Commit(id))) ==> now
    ensures var t := Step(s, Commit(id)); BackedRow(t, now) && t.op == s.op
    ensures var t := Step(s, Commit(id));
      forall id :: id in t.requests ==> BackedPhase(t.requests[id].phase, SuccessCode(t.op), now)
  {
    if In(s, id, Handling(false)) && Admitted(s) { CommitLeavesResult(s, id); }
    hide Lasting, ResultThere, Admitted, SuccessCode, WellKeyed;
  }

  lemma AnswerKeeps(s: State, e: Event, was: bool, now: bool)
    requires Backed(s, was) && WellKeyed(s.op, s.suffixes) && (was ==> now) && (ResultThere(s) ==> now)
    requires e.Answer? && (e.code < 400 ==> e.code == SuccessCode(s.op))
    ensures var t := Step(s, e); BackedRow(t, now) && t.op == s.op
    ensures var t := Step(s, e);
      forall id :: id in t.requests ==> BackedPhase(t.requests[id].phase, SuccessCode(t.op), now)
  {
    if (s.op == HistoricalCommit || s.op == ImportCommit) && !Admitted(s) { SkippedMeansThere(s); }
    if e.id in s.requests { assert BackedPhase(s.requests[e.id].phase, SuccessCode(s.op), was); }
    hide Lasting, ResultThere, Admitted, SuccessCode, WellKeyed;
  }

  lemma BackedKept(s: State, e: Event, was: bool, now: bool)
    requires Backed(s, was) && WellKeyed(s.op, s.suffixes)
    requires was ==> now
    requires ResultThere(s) || ResultThere(Step(s, e)) ==> now
    requires now ==> was || ResultThere(Step(s, e))
    requires e.Answer? && e.code < 400 ==> e.code == SuccessCode(s.op)
    ensures Backed(Step(s, e), now)
  {
    if was { LastingKept(s, e); }
    if ResultThere(Step(s, e)) { ResultLasts(Step(s, e)); }
    BackedWeakens(s, was, now && (was || ResultThere(s)));
    hide Step, Lasting, ResultThere, WellKeyed, BackedPhase, SuccessCode;
    match e {
      case Commit(id) => CommitKeeps(s, id, was, now);
      case TryRecover(id) => RecoverKeeps(s, id, was || ResultThere(s));
      case Answer(_, _, _) => AnswerKeeps(s, e, was, now);
      case _ => WaitKeeps(s, e, was);
    }
    PhasesWeaken(Step(s, e), was, now);
    PhasesWeaken(Step(s, e), was || ResultThere(s), now);
  }

  lemma BackedWeakens(s: State, was: bool, now: bool)
    requires Backed(s, was) && (was ==> now) && (now ==> was || ResultThere(s))
    ensures Backed(s, now)
  {
    if ResultThere(s) { ResultLasts(s); }
    hide Lasting, ResultThere, SuccessCode;
  }

  lemma PhasesWeaken(t: State, was: bool, now: bool)
    requires was ==> now
    ensures (forall id :: id in t.requests ==> BackedPhase(t.requests[id].phase, SuccessCode(t.op), was)) ==>
      forall id :: id in t.requests ==> BackedPhase(t.requests[id].phase, SuccessCode(t.op), now)
  {}

  lemma SkippedMeansThere(s: State)
    requires (s.op == HistoricalCommit || s.op == ImportCommit) && !Admitted(s) && WellKeyed(s.op, s.suffixes)
    ensures ResultThere(s)
  {
    if s.op == HistoricalCommit {
      var k :| k in OwnKeys(s) && k in Table(s);
      assert k == s.ekey + "" == s.ekey;
    }
  }

  lemma {:induction false} RunBacked(s0: State, es: seq<Event>)
    requires Begins(s0) && OwnCodes(s0.op, es)
    ensures Backed(Run(s0, es), WasThere(s0, es))
  {
    hide Step, ResultThere, Backed, WellKeyed;
    if es == [] {
      NothingBacked(s0);
    } else {
      var init, e, k := es[..|es| - 1], es[|es| - 1], |es| - 1;
      assert OwnCodes(s0.op, init) && (e.Answer? && e.code < 400 ==> e.code == SuccessCode(s0.op));
      RunBacked(s0, init);
      SetupFixed(s0, init);
      assert es[..k] == init && es[..|es|] == es;
      assert forall n :: 0 <= n <= k ==> init[..n] == es[..n];
      BackedKept(Run(s0, init), e, WasThere(s0, init), WasThere(s0, es));
    }
  }

  lemma NothingBacked(s0: State)
    requires Begins(s0)
    ensures Backed(s0, WasThere(s0, []))
  {
    if WasThere(s0, []) {
      var n :| 0 <= n <= 0 && ResultThere(Run(s0, [][..n]));
      assert Run(s0, [][..n]) == s0;
    }
  }

  /** In every run, lapses and crashes included: a request that is answered below 400, by its handler or by a replay, is
      answered with the code of its operation, the result was there at some point before, and what lasts of it is
      there still. */
  lemma AnsweredHasResult(s0: State, es: seq<Event>, id: nat)
    requires Begins(s0) && OwnCodes(s0.op, es)
    requires var s := Run(s0, es); id in s.requests && s.requests[id].phase.Done?
    ensures var s := Run(s0, es); var reply := s.requests[id].phase.reply;
      (reply.Replayed? || (reply.Handled? && reply.outcome.code < 400)) ==>
        && reply.outcome.code == SuccessCode(s0.op)
        && (exists n :: 0 <= n <= |es| && ResultThere(Run(s0, es[..n])))
        && Lasting(s)
  {
    RunBacked(s0, es);
    SetupFixed(s0, es);
    hide Lasting, ResultThere, SuccessCode, Run;
    assert Tells(Run(s0, es).requests[id].phase) || Run(s0, es).requests[id].phase.reply.Rejected?
      || Run(s0, es).requests[id].phase.reply.Handled?;
  }

  // ---- A retry of a request that left nothing ------------------------------------------------------------------

  function ExecutingTurns(id: nat, hash: int): seq<Event> { [Arrive(id, hash), Find(id), TryRecover(id), Reclaim(id)] }

  /** Nobody else writes the row of the key. */
  predicate AloneWriting(es: seq<Event>, id: nat) {
    forall i :: 0 <= i < |es| && (es[i].Complete? || es[i].Reclaim? || es[i].Answer?) ==> es[i].id == id
  }

  /** Where the retry is after n of its turns, the row being as the crashed request left it until the last one. */
  ghost predicate ExecutingAt(s: State, row: Record, id: nat, n: nat) {
    && (n < 4 ==> s.record == Some(row))
    && if n == 0 then id !in s.requests && row.expiresAt <= s.clock
       else
         && id in s.requests && s.requests[id].hash == row.hash && s.requests[id].now >= row.expiresAt
         && s.requests[id].phase ==
            if n == 1 then Finding else if n == 2 then Recovering(false) else if n == 3 then Reclaiming
            else Handling(false)
  }

  lemma ExecutingMoves(s: State, row: Record, id: nat, n: nat)
    requires ExecutingAt(s, row, id, n) && n < 4 && row.status == Processing
    requires !(Asked(s.op) && ResultThere(s))
    ensures ExecutingAt(Step(s, ExecutingTurns(id, row.hash)[n]), row, id, n + 1)
  {
    if n == 2 { RecoveryAnswersIff(s, id); }
    hide Present, Recover, ResultThere, Asked;
  }

  lemma ExecutingWaits(s: State, row: Record, e: Event, id: nat, n: nat)
    requires ExecutingAt(s, row, id, n) && !OwnEvent(e, id)
    requires e.Complete? || e.Reclaim? || e.Answer? ==> e.id == id
    ensures ExecutingAt(Step(s, e), row, id, n)
  {
    OthersWait(s, e, id);
    hide Present, Recover, Admitted, Forward;
  }

  /** From the row of a crashed request whose lease is over, while no result of the operation appears and nobody else
      writes the row: a retry gets as far as its turns. */
  lemma {:induction false} ExecutingProgress(s: State, es: seq<Event>, row: Record, id: nat)
    requires ExecutingAt(s, row, id, 0) && row.status == Processing && AloneWriting(es, id)
    requires Turns(es, id) <= ExecutingTurns(id, row.hash)
    requires Asked(s.op) ==> forall n :: 0 <= n <= |es| ==> !ResultThere(Run(s, es[..n]))
    ensures ExecutingAt(Run(s, es), row, id, |Turns(es, id)|)
  {
    hide Step, ExecutingAt, ResultThere, OwnEvent, ExecutingTurns, Asked;
    if es != [] {
      var init, e := es[..|es| - 1], es[|es| - 1];
      var t, n := Run(s, init), |Turns(init, id)|;
      assert forall k :: 0 <= k <= |init| ==> init[..k] == es[..k];
      assert init[..|init|] == init;
      assert Turns(init, id) <= Turns(es, id);
      ExecutingProgress(s, init, row, id);
      SetupFixed(s, init);
      if OwnEvent(e, id) {
        assert Turns(es, id)[n] == e && ExecutingTurns(id, row.hash)[n] == e;
        FourExecuting(id, row.hash);
        ExecutingMoves(t, row, id, n);
      } else {
        ExecutingWaits(t, row, e, id, n);
      }
    }
  }

  lemma FourExecuting(id: nat, hash: int)
    ensures |ExecutingTurns(id, hash)| == 4
  {}

  /** A crash before the commit: once the lease is over, a retry of the same request that takes its four turns runs the
      handler, if no result of the operation is there meanwhile and nobody else writes the row; what recovery has no
      query for is executed in any case. */
  lemma RetryExecutes(s0: State, before: seq<Event>, es: seq<Event>, id: nat, hash: int)
    requires Begins(s0) && AloneWriting(es, id)
    requires var s := Run(s0, before);
      && id !in s.requests && s.record.Some? && s.record.value.status == Processing
      && s.record.value.hash == hash && s.record.value.expiresAt <= s.clock
    requires Asked(s0.op) ==> forall n :: 0 <= n <= |es| ==> !ResultThere(Run(s0, before + es[..n]))
    requires Turns(es, id) == ExecutingTurns(id, hash)
    ensures var t := Run(s0, before + es); id in t.requests && t.requests[id].phase == Handling(false)
  {
    var s := Run(s0, before);
    hide Step, ResultThere, Asked;
    RunAppend(s0, before, es);
    SetupFixed(s0, before);
    forall n | 0 <= n <= |es|
      ensures Run(s0, before + es[..n]) == Run(s, es[..n])
    {
      RunAppend(s0, before, es[..n]);
    }
    ExecutingProgress(s, es, s.record.value, id);
    FourExecuting(id, hash);
  }

  /** What the answer of a handler means for the next request of the same key: below 400 it is replayed, from 400 on the
      key is used up. A handler that has committed nothing may answer below 400 when an import finds its job done or
      its rows there. */
  lemma NextAfterAnswer(s: State, id: nat, code: int, body: Body, next: nat)
    requires id in s.requests && s.requests[id].phase.Handling? && s.record.Some?
    requires s.requests[id].phase.committed ==> code < 400
    requires !s.requests[id].phase.committed && code < 400 ==>
      (s.op == ImportCommit && s.view.moved) || (s.op == HistoricalCommit && !(OwnKeys(s) !! Table(s)))
    requires next !in s.requests && body.Json? && code > 0
    ensures var t := Step(Step(Step(s, Answer(id, code, body)), Arrive(next, s.record.value.hash)), Find(next));
      t.requests[next].phase ==
        if code < 400 then Done(Replayed(Outcome(code, body))) else Done(Rejected(RequestFailed))
  {
    hide Table, OwnKeys;
    var a := Step(s, Answer(id, code, body));
    var b := Step(a, Arrive(next, s.record.value.hash));
    assert b.requests[next] == Request(s.record.value.hash, a.clock, Finding);
  }

  // ---- What a request is told, and what it does next ---------------------------------------------------------------

  /** The first look at the row: no row leads to its creation; another identity is refused, a stored response replayed,
      a running lease refused, an expired one recovered, a failed request refused for good. */
  lemma FoundIs(s: State, id: nat)
    requires In(s, id, Finding)
    ensures var req := s.requests[id];
      Step(s, Find(id)) == Moved(s, id,
        if s.record.None? then Creating
        else
          var r := s.record.value;
          if req.hash != r.hash then Done(Rejected(KeyReused))
          else
            match r.status
            case Completed =>
              if r.body.Falsy? then Creating
              else Done(Replayed(Outcome(code := if r.code == 0 then 200 else r.code, body := r.body)))
            case Processing => if req.now < r.expiresAt then Done(Rejected(InProgress)) else Recovering(again := false)
            case Failed => Done(Rejected(RequestFailed)))
  {}

  /** The second look, after the row was there already: the same but for a failed request, which is told that one is in
      progress, as is whoever finds no row or an unusable response. */
  lemma LookedIs(s: State, id: nat)
    requires In(s, id, Looking)
    ensures var req := s.requests[id];
      Step(s, Look(id)) == Moved(s, id,
        if s.record.None? then Done(Rejected(InProgress))
        else
          var r := s.record.value;
          if req.hash != r.hash then Done(Rejected(KeyReused))
          else if r.status == Completed && !r.body.Falsy?
          then Done(Replayed(Outcome(code := if r.code == 0 then 200 else r.code, body := r.body)))
          else if r.status == Processing && req.now >= r.expiresAt then Recovering(again := true)
          else Done(Rejected(InProgress)))
  {}

  /** Creating the row takes a lease from the arrival of the request; reclaiming it takes a new one, if the row is still
      PROCESSING under the same identity and its lease over; a recovered outcome completes it whatever it holds. */
  lemma RowWrites(s: State, id: nat)
    ensures In(s, id, Creating) ==> var req := s.requests[id];
      Step(s, Create(id)) ==
        if s.record.Some? then Moved(s, id, Looking)
        else Moved(s, id, Handling(committed := false)).(
          record := Some(Record(hash := req.hash, status := Processing, code := 0, body := Falsy,
                                expiresAt := req.now + s.ttl)))
    ensures In(s, id, Reclaiming) ==> var req := s.requests[id];
      Step(s, Reclaim(id)) ==
        if s.record.Some? && s.record.value.status == Processing && s.record.value.hash == req.hash &&
           req.now >= s.record.value.expiresAt
        then Moved(s, id, Handling(committed := false)).(
          record := Some(s.record.value.(expiresAt := req.now + s.ttl)))
        else Moved(s, id, Done(Rejected(InProgress)))
    ensures id in s.requests && s.requests[id].phase.Completing? && s.record.Some? ==>
      var req, out := s.requests[id], s.requests[id].phase.outcome;
      Step(s, Complete(id)) == Moved(s, id, Done(Replayed(out))).(
        record := Some(Record(hash := s.record.value.hash, status := Completed, code := out.code, body := out.body,
                              expiresAt := req.now + s.ttl)))
  {}
}

/** The idempotency-key protocol for one (store, operation, key), with concurrent requests and crashes.

  The middleware awaits the database between its statements; every statement or transaction is one atomic step, and
  steps of different requests interleave in any order. `now` is read once when a request arrives, and its lease ends
  `ttl` later. A handler may commit and answer at any time; runs in which none does so past its lease are named where
  a result needs them. The business transaction of every operation carries the guard its handler has in the source.
 */
module Idempotency {
  import opened Options

  datatype Status = Processing | Completed | Failed

  /** The JSON column; `Falsy` stands for null, false, 0 and the empty string. */
  datatype Body = Falsy | Json(text: int)

  /** The unique row of the key. */
  datatype Record = Record(hash: int, status: Status, code: int, body: Body, expiresAt: int)

  datatype Operation =
    | OrderCreate | PosSaleCreate | ReturnCreate | Inventory | OrderConfirm | OrderCancel
    | ImportCommit | HistoricalCommit | StockTakeCreate | StockTakeStart | StockTakeCounts
    | StockTakeComplete | StockTakeCancel

  datatype OrderStatus = Draft | Confirmed | Fulfilled | Canceled

  /** What keeps a second execution from taking effect: rows under a unique key, whose second insertion is refused or
      skipped; a status the transaction moves on; or nothing. */
  datatype Guard = UniqueKey | StatusMove | Unguarded

  function GuardOf(op: Operation): Guard {
    match op
    case OrderCreate | PosSaleCreate | ReturnCreate | Inventory | HistoricalCommit => UniqueKey
    case OrderConfirm | OrderCancel | ImportCommit | StockTakeStart | StockTakeComplete | StockTakeCancel => StatusMove
    case StockTakeCreate | StockTakeCounts => Unguarded
  }

  /** What else the handlers and recovery read: the row that recovery returns, what a POS receipt needs, whether the
      path names an order, the order's status, and whether a job or stock take has left the status the transaction
      starts from. */
  datatype View = View(row: int, paid: bool, storeActive: bool, movement: bool, warehouse: bool, orderId: bool,
      status: OrderStatus, moved: bool)

  function Rank(status: OrderStatus): nat {
    match status case Draft => 0 case Confirmed => 1 case Fulfilled => 2 case Canceled => 3
  }

  /** Statuses only move on, and the path of the requests stays what it is. */
  predicate Forward(v: View, w: View) {
    Rank(v.status) <= Rank(w.status) && (v.moved ==> w.moved) && w.orderId == v.orderId
  }

  datatype Outcome = Outcome(code: int, body: Body)

  datatype Reply = Replayed(outcome: Outcome) | Handled(outcome: Outcome) | Rejected(reason: Reason)
  datatype Reason = KeyReused | InProgress | RequestFailed

  /** Where a request stands: the next database statement it will run. `again` marks the path after a
      unique-key violation. */
  datatype Phase =
    | Finding
    | Creating
    | Looking
    | Recovering(again: bool)
    | Completing(outcome: Outcome)
    | Reclaiming
    | Handling(committed: bool)
    | Done(reply: Reply)

  datatype Request = Request(hash: int, now: int, phase: Phase)

  /** `ekey` is the effect key; a transaction under a unique key inserts `ekey` with each of the suffixes: the key
      itself for an order, a return or one moved item, the key, a colon and the item for several. `foreign` are the keys
      that requests with other idempotency keys have committed; `effects` lists the commits of this one. */
  datatype State = State(op: Operation, ttl: int, ekey: string, suffixes: set<string>, clock: int,
      record: Option<Record>, requests: map<nat, Request>, effects: seq<nat>, foreign: set<string>, view: View)

  function OwnKeys(s: State): set<string> { set x | x in s.suffixes :: s.ekey + x }

  function Table(s: State): set<string> { s.foreign + if s.effects != [] then OwnKeys(s) else {} }

  /** startsWith: another key's movements match when their key continues this one. */
  predicate StartsWith(k: string, prefix: string) { prefix <= k }

  predicate PrefixIn(keys: set<string>, prefix: string) { exists k :: k in keys && StartsWith(k, prefix) }

  /** What the query of recovery for committed rows finds. */
  predicate Present(s: State) {
    if s.op == Inventory then PrefixIn(Table(s), s.ekey) else s.ekey in Table(s)
  }

  /** recoverCommittedOutcome; `present` is the outcome of its first query by effect key. */
  function Recover(op: Operation, present: bool, v: View): Option<Outcome> {
    match op
    case OrderCreate => if present then Some(Outcome(201, Json(v.row))) else None
    case PosSaleCreate =>
      if present && v.paid && v.storeActive && v.movement && v.warehouse then Some(Outcome(201, Json(v.row))) else None
    case ReturnCreate => if present then Some(Outcome(201, Json(v.row))) else None
    case Inventory => if present then Some(Outcome(200, Json(v.row))) else None
    case OrderConfirm =>
      if v.orderId && (v.status == Confirmed || v.status == Fulfilled) then Some(Outcome(200, Json(v.row))) else None
    case OrderCancel => if v.orderId && v.status == Canceled then Some(Outcome(200, Json(v.row))) else None
    case _ => None
  }

  /** The status from which the transaction starts; a POS sale needs its store and a warehouse. */
  predicate Ready(op: Operation, v: View) {
    match op
    case OrderConfirm => v.orderId && v.status == Draft
    case OrderCancel => v.orderId && v.status != Canceled
    case PosSaleCreate => v.storeActive && v.warehouse
    case ImportCommit | StockTakeStart | StockTakeComplete | StockTakeCancel => !v.moved
    case _ => true
  }

  /** What the transaction does besides inserting its keys; a POS sale writes its payment and its movement. */
  function MovedOn(op: Operation, v: View): View {
    match op
    case OrderConfirm => v.(status := Confirmed)
    case OrderCancel => v.(status := Canceled)
    case PosSaleCreate => v.(paid := true, movement := true)
    case ImportCommit | StockTakeStart | StockTakeComplete | StockTakeCancel => v.(moved := true)
    case _ => v
  }

  /** Whether the business transaction goes through. */
  predicate Admitted(s: State) {
    match GuardOf(s.op)
    case UniqueKey => OwnKeys(s) !! Table(s) && Ready(s.op, s.view)
    case StatusMove => Ready(s.op, s.view)
    case Unguarded => true
  }

  datatype Event =
    | Arrive(id: nat, hash: int)
    | Find(id: nat)
    | Create(id: nat)
    | Look(id: nat)
    | TryRecover(id: nat)
    | Complete(id: nat)
    | Reclaim(id: nat)
    | Commit(id: nat)
    | Answer(id: nat, code: int, body: Body)
    | Crash(id: nat)
    | Tick(dt: nat)
    | Touch(view: View)
    | Foreign(key: string)

  predicate In(s: State, id: nat, phase: Phase) {
    id in s.requests && s.requests[id].phase == phase
  }

  function Moved(s: State, id: nat, phase: Phase): State
    requires id in s.requests
  {
    s.(requests := s.requests[id := s.requests[id].(phase := phase)])
  }

  function CodeOr200(code: int): int {
    if code == 0 then 200 else code
  }

  /** The branches after the first findUnique. */
  function AfterFind(existing: Option<Record>, hash: int, now: int): Phase {
    if existing.None? then Creating else
    var r := existing.value;
    if r.hash != hash then Done(Rejected(KeyReused))
    else if r.status == Completed && r.body.Json? then Done(Replayed(Outcome(CodeOr200(r.code), r.body)))
    else if r.status == Processing then
      if r.expiresAt > now then Done(Rejected(InProgress)) else Recovering(false)
    else if r.status == Failed then Done(Rejected(RequestFailed))
    else Creating
  }

  /** The branches after the second findUnique, reached when create() violates the unique key. */
  function AfterLook(concurrent: Option<Record>, hash: int, now: int): Phase {
    if concurrent.Some? && concurrent.value.hash != hash then Done(Rejected(KeyReused))
    else if concurrent.Some? && concurrent.value.status == Completed && concurrent.value.body.Json?
    then Done(Replayed(Outcome(CodeOr200(concurrent.value.code), concurrent.value.body)))
    else if concurrent.Some? && concurrent.value.status == Processing && concurrent.value.expiresAt <= now
    then Recovering(true)
    else Done(Rejected(InProgress))
  }

  function ArriveStep(s: State, id: nat, hash: int): State {
    if id in s.requests then s else s.(requests := s.requests[id := Request(hash, s.clock, Finding)])
  }

  function FindStep(s: State, id: nat): State {
    if !In(s, id, Finding) then s
    else Moved(s, id, AfterFind(s.record, s.requests[id].hash, s.requests[id].now))
  }

  function CreateStep(s: State, id: nat): State {
    if !In(s, id, Creating) then s
    else if s.record.Some? then Moved(s, id, Looking)
    else var r := s.requests[id];
         Moved(s, id, Handling(false)).(record := Some(Record(r.hash, Processing, 0, Falsy, r.now + s.ttl)))
  }

  function LookStep(s: State, id: nat): State {
    if !In(s, id, Looking) then s
    else Moved(s, id, AfterLook(s.record, s.requests[id].hash, s.requests[id].now))
  }

  function RecoverStep(s: State, id: nat): State {
    if !(id in s.requests && s.requests[id].phase.Recovering?) then s else
    match Recover(s.op, Present(s), s.view)
    case Some(outcome) => Moved(s, id, Completing(outcome))
    case None => Moved(s, id, if s.requests[id].phase.again then Done(Rejected(InProgress)) else Reclaiming)
  }

  function CompleteStep(s: State, id: nat): State {
    if !(id in s.requests && s.requests[id].phase.Completing? && s.record.Some?) then s else
    var out := s.requests[id].phase.outcome;
    Moved(s, id, Done(Replayed(out))).(
      record := Some(s.record.value.(status := Completed, code := out.code, body := out.body,
                                     expiresAt := s.requests[id].now + s.ttl)))
  }

  /** The compare-and-set reclaim: still PROCESSING, same identity, lease over by this request's clock. */
  predicate Reclaimable(record: Option<Record>, hash: int, now: int) {
    record.Some? && record.value.status == Processing && record.value.hash == hash && record.value.expiresAt <= now
  }

  function ReclaimStep(s: State, id: nat): State {
    if !In(s, id, Reclaiming) then s else
    var r := s.requests[id];
    if Reclaimable(s.record, r.hash, r.now)
    then Moved(s, id, Handling(false)).(record := Some(s.record.value.(expiresAt := r.now + s.ttl)))
    else Moved(s, id, Done(Rejected(InProgress)))
  }

  /** The request runs the business handler and its lease is not over. */
  predicate Live(s: State, id: nat) {
    id in s.requests && s.requests[id].phase.Handling? && s.clock < s.requests[id].now + s.ttl
  }

  /** The business transaction; a guard that refuses it rolls it back. */
  function CommitStep(s: State, id: nat): State {
    if !In(s, id, Handling(false)) || !Admitted(s) then s
    else Moved(s, id, Handling(true)).(
      effects := s.effects + [id], view := MovedOn(s.op, s.view))
  }

  /** A handler answers below 400 exactly when its transaction has gone through; an import does so as well when its job
      is done or its rows are there already. */
  predicate MayAnswer(s: State, id: nat, code: int)
    requires id in s.requests && s.requests[id].phase.Handling?
  {
    if s.requests[id].phase.committed then code < 400
    else code >= 400 || ((s.op == HistoricalCommit || s.op == ImportCommit) && !Admitted(s))
  }

  /** The hooked res.json: an answer below 400 completes the row, any other fails it. */
  function AnswerStep(s: State, id: nat, code: int, body: Body): State {
    if !(id in s.requests && s.requests[id].phase.Handling?) || s.record.None? || !MayAnswer(s, id, code) then s else
    var r := s.record.value;
    Moved(s, id, Done(Handled(Outcome(code, body)))).(
      record := Some(if code < 400 then r.(status := Completed, code := code, body := body)
                     else r.(status := Failed, code := code)))
  }

  /** A row committed under another idempotency key. Only movement keys can continue or equal this effect key. */
  function ForeignStep(s: State, key: string): State {
    if key in Table(s) || (s.op != Inventory && (key == s.ekey || key in OwnKeys(s))) then s
    else s.(foreign := s.foreign + {key})
  }

  function Step(s: State, e: Event): State {
    match e
    case Arrive(id, hash) => ArriveStep(s, id, hash)
    case Find(id) => FindStep(s, id)
    case Create(id) => CreateStep(s, id)
    case Look(id) => LookStep(s, id)
    case TryRecover(id) => RecoverStep(s, id)
    case Complete(id) => CompleteStep(s, id)
    case Reclaim(id) => ReclaimStep(s, id)
    case Commit(id) => CommitStep(s, id)
    case Answer(id, code, body) => AnswerStep(s, id, code, body)
    case Crash(id) => s.(requests := s.requests - {id})
    case Tick(dt) => s.(clock := s.clock + dt)
    case Touch(view) => if Forward(s.view, view) then s.(view := view) else s
    case Foreign(key) => ForeignStep(s, key)
  }

  ghost function Run(s: State, es: seq<Event>): State {
    if es == [] then s else Step(Run(s, es[..|es| - 1]), es[|es| - 1])
  }

  function Initial(op: Operation, ttl: int, ekey: string, suffixes: set<string>, view: View): State {
    State(op, ttl, ekey, suffixes, 0, None, map[], [], {}, view)
  }

  /** The shared row and the requests in flight, changed statement by statement. */
  class IdempotencyRow {
    const op: Operation
    const ttl: int
    const ekey: string
    const suffixes: set<string>
    var clock: int
    var record: Option<Record>
    var requests: map<nat, Request>
    var effects: seq<nat>
    var foreign: set<string>
    var view: View

    function Model(): State
      reads this
    {
      State(op, ttl, ekey, suffixes, clock, record, requests, effects, foreign, view)
    }

    constructor (op: Operation, ttl: int, ekey: string, suffixes: set<string>, view: View)
      ensures Model() == Initial(op, ttl, ekey, suffixes, view)
    {
      this.op, this.ttl, this.ekey, this.suffixes, this.view := op, ttl, ekey, suffixes, view;
      clock, record, requests, effects, foreign := 0, None, map[], [], {};
    }

    method Find(id: nat)
      requires In(Model(), id, Finding)
      modifies this
      ensures Model() == old(FindStep(Model(), id))
    {
      var req := requests[id];
      var phase := Creating;
      match record {
        case None =>
        case Some(existing) =>
          if existing.hash != req.hash {
            phase := Done(Rejected(KeyReused));
          } else if existing.status == Completed && existing.body != Falsy {
            phase := Done(Replayed(Outcome(CodeOr200(existing.code), existing.body)));
          } else if existing.status == Processing {
            if existing.expiresAt > req.now {
              phase := Done(Rejected(InProgress));
            } else {
              phase := Recovering(false);
            }
          } else if existing.status == Failed {
            phase := Done(Rejected(RequestFailed));
          }
      }
      requests := requests[id := req.(phase := phase)];
    }

    /** Inserts the row; a duplicate key sends the request on to look at the row again. */
    method Create(id: nat)
      requires In(Model(), id, Creating)
      modifies this
      ensures Model() == old(CreateStep(Model(), id))
    {
      var req := requests[id];
      if record != None {
        requests := requests[id := req.(phase := Looking)];
        return;
      }
      record := Some(Record(req.hash, Processing, 0, Falsy, req.now + ttl));
      requests := requests[id := req.(phase := Handling(false))];
    }

    method Look(id: nat)
      requires In(Model(), id, Looking)
      modifies this
      ensures Model() == old(LookStep(Model(), id))
    {
      var req := requests[id];
      var phase := Done(Rejected(InProgress));
      if record.Some? {
        var concurrent := record.value;
        if concurrent.hash != req.hash {
          phase := Done(Rejected(KeyReused));
        } else if concurrent.status == Completed && concurrent.body != Falsy {
          phase := Done(Replayed(Outcome(CodeOr200(concurrent.code), concurrent.body)));
        } else if concurrent.status == Processing && concurrent.expiresAt <= req.now {
          phase := Recovering(true);
        }
      }
      requests := requests[id := req.(phase := phase)];
    }

    method TryRecover(id: nat)
      requires id in requests && requests[id].phase.Recovering?
      modifies this
      ensures Model() == old(RecoverStep(Model(), id))
    {
      var req := requests[id];
      var recovered := Recover(op, Present(Model()), view);
      if recovered.Some? {
        requests := requests[id := req.(phase := Completing(recovered.value))];
      } else if req.phase.again {
        requests := requests[id := req.(phase := Done(Rejected(InProgress)))];
      } else {
        requests := requests[id := req.(phase := Reclaiming)];
      }
    }

    method Complete(id: nat)
      requires id in requests && requests[id].phase.Completing? && record.Some?
      modifies this
      ensures Model() == old(CompleteStep(Model(), id))
    {
      var req := requests[id];
      var out := req.phase.outcome;
      record := Some(record.value.(status := Completed, code := out.code, body := out.body,
        expiresAt := req.now + ttl));
      requests := requests[id := req.(phase := Done(Replayed(out)))];
    }

    method Reclaim(id: nat)
      requires In(Model(), id, Reclaiming)
      modifies this
      ensures Model() == old(ReclaimStep(Model(), id))
    {
      var req := requests[id];
      var count := 0;
      if record.Some? && record.value.status == Processing && record.value.hash == req.hash
        && record.value.expiresAt <= req.now {
        record := Some(record.value.(expiresAt := req.now + ttl));
        count := 1;
      }
      var phase := if count != 1 then Done(Rejected(InProgress)) else Handling(false);
      requests := requests[id := req.(phase := phase)];
    }

    /** The handler's transaction: all of it, or nothing when its unique key or its status guard refuses it. */
    method Handle(id: nat) returns (ok: bool)
      requires In(Model(), id, Handling(false))
      modifies this
      ensures Model() == old(CommitStep(Model(), id)) && ok == old(Admitted(Model()))
    {
      match GuardOf(op) {
        case UniqueKey =>
          var keys := OwnKeys(Model());
          if exists k :: k in keys && k in Table(Model()) { return false; }
          if !Ready(op, view) { return false; }
        case StatusMove =>
          if !Ready(op, view) { return false; }
        case Unguarded =>
      }
      view := MovedOn(op, view);
      effects := effects + [id];
      requests := requests[id := requests[id].(phase := Handling(true))];
      ok := true;
    }

    method Answer(id: nat, code: int, body: Body)
      requires id in requests && requests[id].phase.Handling? && record.Some? && MayAnswer(Model(), id, code)
      modifies this
      ensures Model() == old(AnswerStep(Model(), id, code, body))
      ensures record.Some? && record.value.status == if code < 400 then Completed else Failed
    {
      if code < 400 {
        record := Some(record.value.(status := Completed, code := code, body := body));
      } else {
        record := Some(record.value.(status := Failed, code := code));
      }
      requests := requests[id := requests[id].(phase := Done(Handled(Outcome(code, body))))];
    }
  }
}

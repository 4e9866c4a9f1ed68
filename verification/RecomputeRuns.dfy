/** Runs of the recompute queue next to the data it keeps up to date.

  A row holds the facts of one SKU (`stock`, and `sales` per business day), the materialised daily
  `summary`, and the inputs its last recomputation read. recomputeSku is a function of those inputs, so a
  derived result is up to date for every such function iff the inputs are. A rebuild and a recomputation are
  transactions: each reads at one moment and writes what it has read at a later one, and anything may happen in between.
 */
module RecomputeRuns {
  import opened Options
  import opened RecomputeQueue

  datatype Sku = Sku(store: int, id: int)
  datatype Inputs = Inputs(stock: int, sales: map<int, int>)
  datatype Row = Row(stock: int, sales: map<int, int>, summary: map<int, int>, derived: Inputs)
  type Db = map<Sku, Row>

  /** A committed business transaction whose enqueue call has not run yet. */
  datatype Owed = Owed(store: int, skus: set<int>, days: set<int>)
  /** A rebuild of these days that failed and was only logged. */
  datatype LostSpan = LostSpan(store: int, days: set<int>)
  /** What the caller of a pending promise asked for, and when. */
  datatype Ask = Ask(store: int, skus: set<int>, days: set<int>, at: nat)

  /** The transaction the drain is waiting for, with what it has read; `lostDay` says that a recomputation has read a
      day whose rebuild failed. */
  datatype Flight =
    | Rebuilding(store: int, days: set<int>, sales: map<Sku, map<int, int>>)
    | Recomputing(s: Sku, inputs: Option<Inputs>, lostDay: bool)

  /** `tried` and `built` say when the last attempt for a SKU or a day began. */
  datatype World = World(db: Db, q: Queue, flight: Option<Flight>, owed: seq<Owed>, lost: set<Sku>,
      lostSpans: set<LostSpan>, clock: nat, asks: seq<Ask>, tried: map<Sku, nat>, built: map<(int, int), nat>)

  datatype Event =
    | Commit(store: int, changes: map<int, Inputs>, days: set<int>)
    | Announce(k: nat)
    | Enqueue(store: int, skus: set<int>, days: set<int>)
    | Timer(pick: int)
    | Flush(pick: int)
    | StartRebuild
    | Rebuilt(ok: bool)
    | StartRecompute(id: int)
    | Recomputed(ok: bool)
    | StoreDone(pick: int)

  ghost function Initial(db: Db): World {
    World(db, Empty, None, [], {}, {}, 0, [], map[], map[])
  }

  /** A commit gives existing SKUs of one store new facts; sales change only on days the trigger will span. */
  ghost predicate LegalCommit(db: Db, store: int, changes: map<int, Inputs>, days: set<int>) {
    forall id :: id in changes ==>
      && id > 0 && Sku(store, id) in db
      && forall d :: !InSpan(days, d) ==> SameDay(db[Sku(store, id)].sales, changes[id].sales, d)
  }

  ghost predicate SameDay(a: map<int, int>, b: map<int, int>, d: int) {
    (d in a <==> d in b) && (d in a ==> a[d] == b[d])
  }

  ghost function Committed(db: Db, store: int, changes: map<int, Inputs>): Db {
    map s | s in db ::
      if s.store == store && s.id in changes
      then db[s].(stock := changes[s.id].stock, sales := changes[s.id].sales) else db[s]
  }

  /** Delete the summaries of the spanned days, write them again from the sales. */
  ghost function Patched(summary: map<int, int>, sales: map<int, int>, days: set<int>): map<int, int> {
    map d | d in summary.Keys + sales.Keys && (if InSpan(days, d) then d in sales else d in summary)
      :: if InSpan(days, d) then sales[d] else summary[d]
  }

  ghost function SalesOf(db: Db, store: int): map<Sku, map<int, int>> {
    map s | s in db && s.store == store :: db[s].sales
  }

  ghost function RebuiltDb(db: Db, days: set<int>, sales: map<Sku, map<int, int>>): Db {
    map s | s in db :: if s in sales then db[s].(summary := Patched(db[s].summary, sales[s], days)) else db[s]
  }

  ghost function RecomputedDb(db: Db, s: Sku, inputs: Option<Inputs>): Db {
    if s in db && inputs.Some? then db[s := db[s].(derived := inputs.value)] else db
  }

  ghost function WithEnqueue(w: World, store: int, skus: set<int>, days: set<int>): World {
    if skus == {} && days == {} then w
    else w.(q := Enqueued(w.q, store, skus, days), asks := w.asks + [Ask(store, skus, days, w.clock)],
      clock := w.clock + 1)
  }

  ghost function CommitStep(w: World, store: int, changes: map<int, Inputs>, days: set<int>): World {
    if LegalCommit(w.db, store, changes, days)
    then w.(db := Committed(w.db, store, changes), owed := w.owed + [Owed(store, changes.Keys, days)]) else w
  }

  ghost function AnnounceStep(w: World, k: nat): World {
    if k < |w.owed|
    then WithEnqueue(w.(owed := w.owed[..k] + w.owed[k+1..]), w.owed[k].store, PositiveIds(w.owed[k].skus),
                     w.owed[k].days)
    else w
  }

  ghost function Stamped(built: map<(int, int), nat>, store: int, days: set<int>, at: nat): map<(int, int), nat> {
    map p | p in built.Keys + (set d | d in days :: (store, d)) ::
      if p.0 == store && p.1 in days then at else built[p]
  }

  /** The transaction in flight is the one the drain awaits. */
  ghost predicate Fits(w: World) {
    w.flight.Some? ==> match w.flight.value
      case Rebuilding(store, days, _) => AwaitsRebuild(w.q) && w.q.live.value.current == store
        && CurrentWork(w.q).days == days
      case Recomputing(s, _, _) => AwaitsSku(w.q, s.id) && w.q.live.value.current == s.store
  }

  /** The rebuild reads the sales of its store; a retry after a deadlock reads them again. */
  ghost function StartRebuildStep(w: World): World {
    if !AwaitsRebuild(w.q) then w else
    var store, days := w.q.live.value.current, CurrentWork(w.q).days;
    w.(flight := Some(Rebuilding(store, days, SalesOf(w.db, store))), clock := w.clock + 1,
      built := Stamped(w.built, store, days, w.clock))
  }

  ghost function RebuiltStep(w: World, ok: bool): World {
    if !(w.flight.Some? && w.flight.value.Rebuilding? && Fits(w)) then w else
    var Rebuilding(store, days, sales) := w.flight.value;
    var u := w.(q := RebuildReturned(w.q), flight := None);
    if ok
    then u.(db := RebuiltDb(w.db, days, sales),
            lostSpans := set l | l in w.lostSpans && !(l.store == store && forall x :: x in l.days ==> InSpan(days, x)))
    else u.(lostSpans := w.lostSpans + {LostSpan(store, days)})
  }

  ghost function StartRecomputeStep(w: World, id: int): World {
    if !AwaitsSku(w.q, id)
      || (w.flight.Some? && !(w.flight.value.Recomputing? && w.flight.value.s.id == id))
    then w else
    var s := Sku(w.q.live.value.current, id);
    var inputs := if s in w.db then Some(Inputs(w.db[s].stock, w.db[s].summary)) else None;
    w.(flight := Some(Recomputing(s, inputs, ReadsLostDay(w, s))), clock := w.clock + 1, tried := w.tried[s := w.clock])
  }

  ghost function RecomputedStep(w: World, ok: bool): World {
    if !(w.flight.Some? && w.flight.value.Recomputing? && Fits(w)) then w else
    var Recomputing(s, inputs, lostDay) := w.flight.value;
    var u := w.(q := SkuReturned(w.q, s.id), flight := None);
    if ok then u.(db := RecomputedDb(w.db, s, inputs), lost := if lostDay then w.lost + {s} else w.lost - {s})
    else u.(lost := w.lost + {s})
  }

  /** One step. An event that is not possible in w leaves w as it is. */
  ghost function Step(w: World, e: Event): World {
    match e
    case Commit(store, changes, days) => CommitStep(w, store, changes, days)
    case Announce(k) => AnnounceStep(w, k)
    case Enqueue(store, skus, days) => WithEnqueue(w, store, PositiveIds(skus), days)
    case Timer(pick) => w.(q := TimerFired(w.q, pick))
    case Flush(pick) => w.(q := Flushed(w.q, pick))
    case StartRebuild => StartRebuildStep(w)
    case Rebuilt(ok) => RebuiltStep(w, ok)
    case StartRecompute(id) => StartRecomputeStep(w, id)
    case Recomputed(ok) => RecomputedStep(w, ok)
    case StoreDone(pick) => w.(q := StoreReturned(w.q, pick))
  }

  ghost predicate StaleDay(row: Row, d: int) {
    !SameDay(row.summary, row.sales, d)
  }

  ghost predicate LostDay(lost: set<LostSpan>, s: Sku, d: int) {
    exists l :: l in lost && l.store == s.store && InSpan(l.days, d)
  }

  /** A recomputation of s reads a summary whose rebuild failed. */
  ghost predicate ReadsLostDay(w: World, s: Sku) {
    s in w.db && exists d :: StaleDay(w.db[s], d) && LostDay(w.lostSpans, s, d)
  }

  ghost function Run(w: World, es: seq<Event>): World {
    if es == [] then w else Step(Run(w, es[..|es| - 1]), es[|es| - 1])
  }

  // ---- Shape of the queue -------------------------------------------------------------------------

  /** A promise is stored but no coroutine runs: schedule() and drain() return early from now on. */
  ghost predicate Wedged(q: Queue) {
    q.draining && q.live.None?
  }

  ghost predicate Shape(q: Queue) {
    && (q.live.Some? ==> q.draining && q.live.value.current in q.live.value.batch)
    && (q.timer ==> !q.draining && q.pending != map[])
    && (q.pending != map[] && !Wedged(q) ==> q.timer || q.live.Some?)
    && (Wedged(q) ==> !q.timer)
    && (q.pending == map[] ==> q.waiters == [])
  }

  lemma EnqueuedShape(q: Queue, store: int, skus: set<int>, days: set<int>)
    requires Shape(q)
    ensures Shape(Enqueued(q, store, skus, days))
  {
    assert store in AddWork(q.pending, store, skus, days);
  }

  lemma DrainShape(q: Queue, pick: int)
    requires Shape(q)
    ensures Shape(TimerFired(q, pick)) && Shape(Flushed(q, pick)) && Shape(StoreReturned(q, pick))
  {
  }

  lemma ReturnShape(q: Queue, id: int)
    requires Shape(q)
    ensures Shape(RebuildReturned(q)) && Shape(SkuReturned(q, id))
  {
  }

  /** What an event does to the queue. */
  ghost function QueueAfter(w: World, e: Event): Queue {
    match e
    case Announce(k) =>
      if k < |w.owed| then Enqueued(w.q, w.owed[k].store, PositiveIds(w.owed[k].skus), w.owed[k].days) else w.q
    case Enqueue(store, skus, days) => Enqueued(w.q, store, PositiveIds(skus), days)
    case Timer(pick) => TimerFired(w.q, pick)
    case Flush(pick) => Flushed(w.q, pick)
    case StoreDone(pick) => StoreReturned(w.q, pick)
    case Rebuilt(_) => if Returning(w, true) then RebuildReturned(w.q) else w.q
    case Recomputed(_) => if Returning(w, false) then SkuReturned(w.q, w.flight.value.s.id) else w.q
    case _ => w.q
  }

  ghost predicate Returning(w: World, rebuild: bool) {
    w.flight.Some? && w.flight.value.Rebuilding? == rebuild && Fits(w)
  }

  lemma QueueIs(w: World, e: Event)
    ensures Step(w, e).q == QueueAfter(w, e)
  {
    hide AddWork, Scheduled, TimerFired, Flushed, StoreReturned, RebuildReturned, SkuReturned, Fits, LegalCommit;
  }

  lemma ShapeKept(w: World, e: Event)
    requires Shape(w.q)
    ensures Shape(Step(w, e).q)
  {
    QueueIs(w, e);
    hide Step, Shape, Enqueued, TimerFired, Flushed, StoreReturned, RebuildReturned, SkuReturned, Fits;
    match e {
      case Announce(k) =>
        if k < |w.owed| { EnqueuedShape(w.q, w.owed[k].store, PositiveIds(w.owed[k].skus), w.owed[k].days); }
      case Enqueue(store, skus, days) => EnqueuedShape(w.q, store, PositiveIds(skus), days);
      case Timer(pick) => DrainShape(w.q, pick);
      case Flush(pick) => DrainShape(w.q, pick);
      case StoreDone(pick) => DrainShape(w.q, pick);
      case Rebuilt(_) => ReturnShape(w.q, 0);
      case Recomputed(_) => if w.flight.Some? && w.flight.value.Recomputing? { ReturnShape(w.q, w.flight.value.s.id); }
      case _ =>
    }
  }

  /** Every promise ever handed out is in exactly one place: resolved, waiting for the batch in flight, or
      waiting for the pending work; and promises resolve in the order they were handed out. */
  ghost predicate Promises(q: Queue) {
    q.resolved + (if q.live.Some? then q.live.value.waiters else []) + q.waiters == seq(q.next, i => i)
  }

  lemma EnqueuedPromises(q: Queue, store: int, skus: set<int>, days: set<int>)
    requires Promises(q)
    ensures Promises(Enqueued(q, store, skus, days))
  {
    var q' := Enqueued(q, store, skus, days);
    if q'.next != q.next {
      var front := q.resolved + (if q.live.Some? then q.live.value.waiters else []);
      assert q'.resolved + (if q'.live.Some? then q'.live.value.waiters else []) + q'.waiters
        == (front + q.waiters) + [q.next];
      assert seq(q.next, i => i) + [q.next] == seq(q.next + 1, i => i);
    }
  }

  lemma DrainPromises(q: Queue, pick: int, id: int)
    requires Shape(q) && Promises(q)
    ensures Promises(TimerFired(q, pick)) && Promises(Flushed(q, pick)) && Promises(StoreReturned(q, pick))
    ensures Promises(RebuildReturned(q)) && Promises(SkuReturned(q, id))
  {
    assert q.resolved + [] + q.waiters == q.resolved + q.waiters + [];
    if q.live.Some? {
      assert (q.resolved + q.live.value.waiters) + q.waiters + [] == q.resolved + q.live.value.waiters + q.waiters;
      assert (q.resolved + q.live.value.waiters) + [] + q.waiters == q.resolved + q.live.value.waiters + q.waiters;
    }
  }

  lemma PromisesKept(w: World, e: Event)
    requires Shape(w.q) && Promises(w.q)
    ensures Promises(Step(w, e).q)
  {
    QueueIs(w, e);
    hide Step, Shape, Promises, Enqueued, TimerFired, Flushed, StoreReturned, RebuildReturned, SkuReturned, Fits;
    match e {
      case Announce(k) =>
        if k < |w.owed| { EnqueuedPromises(w.q, w.owed[k].store, PositiveIds(w.owed[k].skus), w.owed[k].days); }
      case Enqueue(store, skus, days) => EnqueuedPromises(w.q, store, PositiveIds(skus), days);
      case Timer(pick) => DrainPromises(w.q, pick, 0);
      case Flush(pick) => DrainPromises(w.q, pick, 0);
      case StoreDone(pick) => DrainPromises(w.q, pick, 0);
      case Rebuilt(_) => DrainPromises(w.q, 0, 0);
      case Recomputed(_) =>
        if w.flight.Some? && w.flight.value.Recomputing? { DrainPromises(w.q, 0, w.flight.value.s.id); }
      case _ =>
    }
  }

  lemma NoFlightFits(w: World)
    requires w.flight.None?
    ensures Fits(w)
  {}

  lemma FitsKept(w: World, e: Event)
    requires Shape(w.q) && Fits(w)
    ensures Fits(Step(w, e))
  {
    if e.Announce? && e.k < |w.owed| { assert Step(w, e).flight == w.flight && Step(w, e).q.live == w.q.live; }
  }

  lemma {:induction false} RunShape(db: Db, es: seq<Event>)
    ensures var w := Run(Initial(db), es); Shape(w.q) && Promises(w.q) && Fits(w)
  {
    hide Step, Fits;
    if es == [] {
      assert seq(0, i => i) == [];
      NoFlightFits(Initial(db));
    } else {
      RunShape(db, es[..|es| - 1]);
      FitsKept(Run(Initial(db), es[..|es| - 1]), es[|es| - 1]);
      ShapeKept(Run(Initial(db), es[..|es| - 1]), es[|es| - 1]);
      PromisesKept(Run(Initial(db), es[..|es| - 1]), es[|es| - 1]);
    }
  }

  // ---- When the queue stops serving ---------------------------------------------------------------

  /** Step i of the run is a flush() call that finds no pending work and no stored promise. */
  ghost predicate IdleFlush(db: Db, es: seq<Event>, i: nat)
    requires i < |es|
  {
    es[i].Flush? && Idle(Run(Initial(db), es[..i]).q)
  }

  ghost predicate HadIdleFlush(db: Db, es: seq<Event>) {
    exists i: nat :: i < |es| && IdleFlush(db, es, i)
  }

  lemma HadIdleFlushStep(db: Db, es: seq<Event>)
    requires es != []
    ensures var n := |es| - 1;
      HadIdleFlush(db, es) <==> HadIdleFlush(db, es[..n]) || (es[n].Flush? && Idle(Run(Initial(db), es[..n]).q))
  {
    hide Step;
    var n := |es| - 1;
    forall i: nat | i < n ensures IdleFlush(db, es[..n], i) == IdleFlush(db, es, i) {
      assert es[..n][..i] == es[..i];
    }
    assert IdleFlush(db, es, n) == (es[n].Flush? && Idle(Run(Initial(db), es[..n]).q));
    if i: nat :| i < n && IdleFlush(db, es[..n], i) { assert IdleFlush(db, es, i); }
  }

  /** The queue is wedged exactly in the runs that contain a flush() of the idle, empty queue. */
  lemma {:induction false} WedgedIffIdleFlush(db: Db, es: seq<Event>)
    ensures Wedged(Run(Initial(db), es).q) <==> HadIdleFlush(db, es)
  {
    hide Step;
    if es != [] {
      var n := |es| - 1;
      WedgedIffIdleFlush(db, es[..n]);
      RunShape(db, es[..n]);
      WedgedStep(Run(Initial(db), es[..n]), es[n]);
      HadIdleFlushStep(db, es);
    }
  }

  ghost predicate Idle(q: Queue) {
    q.pending == map[] && !q.draining
  }

  lemma EnqueuedWedged(q: Queue, store: int, skus: set<int>, days: set<int>)
    ensures Wedged(Enqueued(q, store, skus, days)) <==> Wedged(q)
  {}

  lemma DrainWedged(q: Queue, pick: int, id: int)
    requires Shape(q)
    ensures Wedged(TimerFired(q, pick)) <==> Wedged(q)
    ensures Wedged(Flushed(q, pick)) <==> Wedged(q) || Idle(q)
    ensures Wedged(StoreReturned(q, pick)) <==> Wedged(q)
    ensures Wedged(RebuildReturned(q)) == Wedged(SkuReturned(q, id)) == Wedged(q)
  {}

  lemma WedgedStep(w: World, e: Event)
    requires Shape(w.q)
    ensures Wedged(Step(w, e).q) <==> Wedged(w.q) || (e.Flush? && Idle(w.q))
  {
    QueueIs(w, e);
    hide Step, Shape, Wedged, Enqueued, TimerFired, Flushed, StoreReturned, RebuildReturned, SkuReturned, Fits;
    match e {
      case Announce(k) =>
        if k < |w.owed| { EnqueuedWedged(w.q, w.owed[k].store, PositiveIds(w.owed[k].skus), w.owed[k].days); }
      case Enqueue(store, skus, days) => EnqueuedWedged(w.q, store, PositiveIds(skus), days);
      case Timer(pick) => DrainWedged(w.q, pick, 0);
      case Flush(pick) => DrainWedged(w.q, pick, 0);
      case StoreDone(pick) => DrainWedged(w.q, pick, 0);
      case Rebuilt(_) => DrainWedged(w.q, 0, 0);
      case Recomputed(_) =>
        if w.flight.Some? && w.flight.value.Recomputing? { DrainWedged(w.q, 0, w.flight.value.s.id); }
      case _ =>
    }
  }

  /** Pending work has a timer or a running drain, unless an idle flush wedged the queue; and then it has neither. */
  lemma PendingIsServedIff(db: Db, es: seq<Event>)
    ensures var q := Run(Initial(db), es).q;
      q.pending != map[] ==> ((q.timer || q.live.Some?) <==> !HadIdleFlush(db, es))
  {
    hide Step;
    RunShape(db, es);
    WedgedIffIdleFlush(db, es);
  }

  ghost predicate Frozen(q: Queue, q': Queue) {
    Shape(q') && Wedged(q') && q'.resolved == q.resolved && q.waiters <= q'.waiters && q.pending.Keys <= q'.pending.Keys
  }

  lemma FrozenStep(w: World, e: Event)
    requires Shape(w.q) && Wedged(w.q)
    ensures Frozen(w.q, Step(w, e).q)
  {
    ShapeKept(w, e);
    WedgedStep(w, e);
    QueueIs(w, e);
    hide Step, Shape, Fits, AddWork;
  }

  /** Once wedged, no later event of any kind resolves a promise or takes pending work. */
  lemma {:induction false} WedgedForever(w: World, es: seq<Event>)
    requires Shape(w.q) && Wedged(w.q)
    ensures Frozen(w.q, Run(w, es).q)
  {
    hide Step;
    if es != [] {
      WedgedForever(w, es[..|es| - 1]);
      FrozenStep(Run(w, es[..|es| - 1]), es[|es| - 1]);
    }
  }

  /** Flush the new queue, then enqueue one SKU: its promise never resolves, whatever happens later. */
  lemma FlushThenEnqueueIsNeverServed(db: Db, pick: int, store: int, id: int, later: seq<Event>) returns (w: World)
    requires id > 0
    ensures w == Step(Step(Initial(db), Flush(pick)), Enqueue(store, {id}, {}))
    ensures var q := Run(w, later).q; q.resolved == [] && 0 in q.waiters && store in q.pending
  {
    w := FlushThenEnqueue(db, pick, store, id);
    WedgedForever(w, later);
    assert Run(w, later).q.waiters[0] == 0;
  }

  lemma FlushThenEnqueue(db: Db, pick: int, store: int, id: int) returns (w: World)
    requires id > 0
    ensures w == Step(Step(Initial(db), Flush(pick)), Enqueue(store, {id}, {}))
    ensures w.q.waiters == [0] && w.q.resolved == [] && store in w.q.pending && Wedged(w.q) && Shape(w.q)
  {
    var w1 := Step(Initial(db), Flush(pick));
    assert w1.q == Empty.(draining := true);
    assert PositiveIds({id}) == {id};
    w := Step(w1, Enqueue(store, {id}, {}));
    assert w == WithEnqueue(w1, store, {id}, {});
    assert w1.q.waiters + [0] == [0];
  }

  /** The steps the process takes on its own: the timer, and the transactions it starts and awaits. */
  ghost predicate OwnStep(e: Event) {
    e.Timer? || e.StoreDone? || e.StartRebuild? || e.StartRecompute? || (e.Rebuilt? && e.ok) || (e.Recomputed? && e.ok)
  }

  ghost predicate OwnSteps(es: seq<Event>) {
    forall i :: 0 <= i < |es| ==> OwnStep(es[i])
  }

  lemma {:induction false} RunFront(w: World, e: Event, es: seq<Event>)
    ensures Run(w, [e] + es) == Run(Step(w, e), es)
  {
    hide Step;
    var all := [e] + es;
    if es == [] {
      assert all[..0] == [] && Run(w, all[..0]) == w;
    } else {
      RunFront(w, e, es[..|es| - 1]);
      assert all[..|all| - 1] == [e] + es[..|es| - 1];
    }
  }

  ghost function AnyStore(work: map<int, Work>): int {
    if exists st :: st in work then var st :| st in work; st else 0
  }

  lemma AnyStoreIn(work: map<int, Work>)
    ensures work != map[] ==> AnyStore(work) in work
  {
    if !exists st :: st in work { assert work == map[]; }
  }

  /** The next step of the drain: start the transaction it is to await, or return from it. */
  ghost function NextStep(w: World): Event
    requires w.q.live.Some?
  {
    var q := w.q;
    var work, rest := CurrentWork(q), q.live.value.batch - {q.live.value.current};
    if w.flight.Some? then (if w.flight.value.Rebuilding? then Rebuilt(true) else Recomputed(true))
    else if work.days != {} then StartRebuild
    else if exists id :: id in work.skus then var id :| id in work.skus; StartRecompute(id)
    else StoreDone(AnyStore(if rest != map[] then rest else q.pending))
  }

  /** What a running drain still has to do, largest part first. */
  ghost function Cycles(q: Queue): nat { if q.pending == map[] then 0 else 1 }
  ghost function Stores(q: Queue): nat { if q.live.Some? then |q.live.value.batch| else 0 }
  ghost function Skus(q: Queue): nat { |CurrentWork(q).skus| }
  ghost function Rebuilds(q: Queue): nat { if CurrentWork(q).days == {} then 0 else 1 }

  ghost function Unstarted(w: World): nat { if w.flight.None? then 1 else 0 }

  ghost predicate LessLeft(q': Queue, q: Queue) {
    || Cycles(q') < Cycles(q)
    || (Cycles(q') == Cycles(q) && Stores(q') < Stores(q))
    || (Cycles(q') == Cycles(q) && Stores(q') == Stores(q) && Skus(q') < Skus(q))
    || (Cycles(q') == Cycles(q) && Stores(q') == Stores(q) && Skus(q') == Skus(q) && Rebuilds(q') < Rebuilds(q))
  }

  /** Every return of the running drain leaves less to do, or ends the drain with nothing pending. */
  lemma ReturnProgress(q: Queue, id: int)
    requires Shape(q) && q.live.Some?
    ensures AwaitsRebuild(q) ==> RebuildReturned(q).live.Some? && LessLeft(RebuildReturned(q), q)
    ensures AwaitsSku(q, id) ==> SkuReturned(q, id).live.Some? && LessLeft(SkuReturned(q, id), q)
  {
    var d := q.live.value;
    if AwaitsRebuild(q) {
      assert RebuildReturned(q).live.value.batch.Keys == d.batch.Keys;
    }
    if AwaitsSku(q, id) {
      assert SkuReturned(q, id).live.value.batch.Keys == d.batch.Keys;
      assert CurrentWork(SkuReturned(q, id)).skus == CurrentWork(q).skus - {id};
    }
  }

  lemma StoreProgress(q: Queue, pick: int)
    requires Shape(q) && AwaitsStore(q)
    requires var rest := q.live.value.batch - {q.live.value.current};
             if rest != map[] then pick in rest else q.pending != map[] ==> pick in q.pending
    ensures var q' := StoreReturned(q, pick);
      if q'.live.Some? then LessLeft(q', q) else q'.pending == map[] && q'.waiters == []
  {
    var d := q.live.value;
    var rest := d.batch - {d.current};
    assert rest.Keys == d.batch.Keys - {d.current};
    assert |rest.Keys| == |d.batch.Keys| - 1;
  }

  lemma NextStepProgress(w: World)
    requires Shape(w.q) && w.q.live.Some? && Fits(w)
    ensures var u := Step(w, NextStep(w));
      if u.q.live.Some? then LessLeft(u.q, w.q) || (u.q == w.q && Unstarted(u) < Unstarted(w))
        else u.q.pending == map[] && u.q.waiters == []
  {
    var work := CurrentWork(w.q);
    if w.flight.Some? {
      QueueIs(w, NextStep(w));
      ReturnProgress(w.q, if w.flight.value.Recomputing? then w.flight.value.s.id else 0);
      hide Step, LessLeft, Shape, RebuildReturned, SkuReturned;
    } else if work.days != {} || exists id :: id in work.skus {
      hide LessLeft, Shape;
      assert Step(w, NextStep(w)).flight.Some?;
    } else {
      assert work == Work({}, {});
      AnyStoreIn(w.q.live.value.batch - {w.q.live.value.current});
      AnyStoreIn(w.q.pending);
      QueueIs(w, NextStep(w));
      StoreProgress(w.q, NextStep(w).pick);
      hide Step, LessLeft, Shape, StoreReturned;
    }
  }

  lemma {:induction false} DrainFinishes(w: World) returns (es: seq<Event>)
    requires Shape(w.q) && w.q.live.Some? && Fits(w)
    ensures OwnSteps(es)
    ensures var q := Run(w, es).q; Shape(q) && q.live.None? && q.pending == map[] && q.waiters == []
    decreases Cycles(w.q), Stores(w.q), Skus(w.q), Rebuilds(w.q), Unstarted(w)
  {
    hide Step, Fits;
    var e := NextStep(w);
    NextStepProgress(w);
    ShapeKept(w, e);
    FitsKept(w, e);
    var rest := [];
    if Step(w, e).q.live.Some? {
      rest := DrainFinishes(Step(w, e));
    }
    es := [e] + rest;
    RunFront(w, e, rest);
  }

  ghost predicate AllResolved(q: Queue) {
    q.resolved == seq(q.next, i => i)
  }

  lemma {:induction false} RunPromises(w: World, es: seq<Event>)
    requires Shape(w.q) && Promises(w.q)
    ensures Shape(Run(w, es).q) && Promises(Run(w, es).q)
  {
    hide Step;
    if es != [] {
      RunPromises(w, es[..|es| - 1]);
      ShapeKept(Run(w, es[..|es| - 1]), es[|es| - 1]);
      PromisesKept(Run(w, es[..|es| - 1]), es[|es| - 1]);
    }
  }

  lemma NoneWaiting(q: Queue)
    requires Promises(q) && q.live.None? && q.waiters == []
    ensures AllResolved(q)
  {
    assert q.resolved + [] + q.waiters == q.resolved;
  }

  lemma WedgedNeverResolves(w: World, later: seq<Event>)
    requires Shape(w.q) && Promises(w.q) && Wedged(w.q) && w.q.waiters != []
    ensures !AllResolved(Run(w, later).q)
  {
    hide Step;
    WedgedForever(w, later);
    RunPromises(w, later);
    var q := Run(w, later).q;
    assert |q.resolved + [] + q.waiters| == q.next;
  }

  lemma TimerFinishes(w: World) returns (es: seq<Event>)
    requires Shape(w.q) && !Wedged(w.q) && w.q.live.None? && w.q.waiters != [] && Fits(w)
    ensures OwnSteps(es)
    ensures var q := Run(w, es).q; Shape(q) && q.live.None? && q.pending == map[] && q.waiters == []
  {
    var pick := AnyStore(w.q.pending);
    AnyStoreIn(w.q.pending);
    ShapeKept(w, Timer(pick));
    FitsKept(w, Timer(pick));
    var rest := DrainFinishes(Step(w, Timer(pick)));
    RunFront(w, Timer(pick), rest);
    es := [Timer(pick)] + rest;
  }

  /** Left to itself, the process can resolve every promise it has handed out, unless an idle flush wedged
      the queue and somebody enqueued afterwards. */
  lemma AllCanResolveIff(db: Db, es: seq<Event>)
    ensures var w := Run(Initial(db), es);
      (exists later :: OwnSteps(later) && AllResolved(Run(w, later).q)) <==> !HadIdleFlush(db, es) || w.q.waiters == []
  {
    hide Step;
    var w := Run(Initial(db), es);
    RunShape(db, es);
    WedgedIffIdleFlush(db, es);
    if Wedged(w.q) && w.q.waiters != [] {
      forall later ensures !AllResolved(Run(w, later).q) { WedgedNeverResolves(w, later); }
    } else if w.q.live.Some? {
      var later := DrainFinishes(w);
      RunPromises(w, later);
      NoneWaiting(Run(w, later).q);
    } else if w.q.waiters != [] {
      var later := TimerFinishes(w);
      RunPromises(w, later);
      NoneWaiting(Run(w, later).q);
    } else {
      NoneWaiting(w.q);
      assert OwnSteps([]) && AllResolved(Run(w, []).q);
    }
  }

  // ---- Coalescing loses nothing -------------------------------------------------------------------

  ghost predicate Fresh(row: Row) {
    row.derived == Inputs(row.stock, row.sales)
  }

  ghost predicate AllFresh(db: Db) {
    forall s :: s in db ==> db[s].summary == db[s].sales && Fresh(db[s])
  }

  ghost predicate OwedHas(owed: seq<Owed>, s: Sku) {
    exists k :: 0 <= k < |owed| && owed[k].store == s.store && s.id > 0 && s.id in owed[k].skus
  }

  ghost predicate OwedDay(owed: seq<Owed>, s: Sku, d: int) {
    exists k ::
      0 <= k < |owed| && owed[k].store == s.store && s.id > 0 && s.id in owed[k].skus && InSpan(owed[k].days, d)
  }

  ghost predicate WorkHas(work: map<int, Work>, s: Sku) {
    s.store in work && s.id in work[s.store].skus
  }

  ghost predicate WorkDay(work: map<int, Work>, s: Sku, d: int) {
    WorkHas(work, s) && InSpan(work[s.store].days, d)
  }

  ghost function Batch(q: Queue): map<int, Work> {
    if q.live.Some? then q.live.value.batch else map[]
  }

  ghost predicate Queued(w: World, s: Sku) { OwedHas(w.owed, s) || WorkHas(w.q.pending, s) }

  ghost predicate QueuedDay(w: World, s: Sku, d: int) { OwedDay(w.owed, s, d) || WorkDay(w.q.pending, s, d) }

  ghost predicate DayCovered(w: World, s: Sku, d: int) {
    QueuedDay(w, s, d) || WorkDay(Batch(w.q), s, d) || LostDay(w.lostSpans, s, d)
  }

  ghost predicate SkuCovered(w: World, s: Sku) { Queued(w, s) || WorkHas(Batch(w.q), s) || s in w.lost }

  /** What is out of date is waiting: announced by nobody yet, pending, or in the unprocessed part of the
      batch in flight; or its last attempt failed. */
  ghost predicate Covered(w: World) {
    && (forall s, d :: s in w.db && StaleDay(w.db[s], d) ==> DayCovered(w, s, d))
    && (forall s :: s in w.db && !Fresh(w.db[s]) ==> SkuCovered(w, s))
  }

  /** What has changed since the transaction in flight read it is queued again, behind the batch. */
  ghost predicate SeenCovered(w: World) {
    w.flight.Some? ==> match w.flight.value
      case Rebuilding(store, days, sales) =>
        && (forall s :: s in sales <==> s in w.db && s.store == store)
        && forall s, d :: s in sales && InSpan(days, d) && !SameDay(sales[s], w.db[s].sales, d) ==> QueuedDay(w, s, d)
      case Recomputing(s, inputs, lostDay) =>
        && (inputs.Some? <==> s in w.db)
        && (inputs.Some? && inputs.value != Inputs(w.db[s].stock, w.db[s].sales) ==> lostDay || Queued(w, s))
  }

  ghost predicate QueueGrows(w: World, u: World) {
    && (forall s :: Queued(w, s) ==> Queued(u, s))
    && (forall s, d :: QueuedDay(w, s, d) ==> QueuedDay(u, s, d))
  }

  /** A commit leaves what it changes to a call that is still owed. */
  lemma CommitQueues(w: World, store: int, changes: map<int, Inputs>, days: set<int>)
    requires LegalCommit(w.db, store, changes, days)
    ensures var u := CommitStep(w, store, changes, days);
      && QueueGrows(w, u)
      && (forall s: Sku :: s.store == store && s.id in changes ==> Queued(u, s))
      && (forall s: Sku, d :: s.store == store && s.id in changes && InSpan(days, d) ==> QueuedDay(u, s, d))
  {
    var u := CommitStep(w, store, changes, days);
    assert u.owed[|w.owed|] == Owed(store, changes.Keys, days);
    assert forall j :: 0 <= j < |w.owed| ==> u.owed[j] == w.owed[j];
  }

  lemma CommitCovered(w: World, store: int, changes: map<int, Inputs>, days: set<int>)
    requires Covered(w) && SeenCovered(w)
    ensures Covered(CommitStep(w, store, changes, days)) && SeenCovered(CommitStep(w, store, changes, days))
  {
    var u := CommitStep(w, store, changes, days);
    if LegalCommit(w.db, store, changes, days) {
      CommitQueues(w, store, changes, days);
      hide Queued, QueuedDay;
      forall s, d | s in u.db && StaleDay(u.db[s], d)
        ensures DayCovered(u, s, d)
      {
        if !(s.store == store && s.id in changes && InSpan(days, d)) {
          assert StaleDay(w.db[s], d) && DayCovered(w, s, d);
        }
      }
      forall s | s in u.db && !Fresh(u.db[s])
        ensures SkuCovered(u, s)
      {
        if !(s.store == store && s.id in changes) { assert u.db[s] == w.db[s] && SkuCovered(w, s); }
      }
    }
  }

  lemma SpanGrows(a: set<int>, b: set<int>, d: int)
    requires InSpan(a, d) && a <= b
    ensures InSpan(b, d)
  {
  }

  lemma EnqueueKeepsDay(q: Queue, store: int, skus: set<int>, days: set<int>, s: Sku, d: int)
    requires WorkDay(q.pending, s, d) || (s.store == store && s.id in skus && InSpan(days, d))
    ensures WorkDay(Enqueued(q, store, skus, days).pending, s, d)
  {
    var p' := Enqueued(q, store, skus, days).pending;
    if WorkDay(q.pending, s, d) {
      SpanGrows(q.pending[s.store].days, p'[s.store].days, d);
    } else {
      SpanGrows(days, p'[store].days, d);
    }
  }

  lemma EnqueueQueues(w: World, store: int, skus: set<int>, days: set<int>)
    ensures QueueGrows(w, WithEnqueue(w, store, skus, days))
  {
    var u := WithEnqueue(w, store, skus, days);
    forall s: Sku, d | WorkDay(w.q.pending, s, d)
      ensures WorkDay(u.q.pending, s, d)
    {
      EnqueueKeepsDay(w.q, store, skus, days, s, d);
    }
  }

  lemma AnnounceQueues(w: World, k: nat)
    requires k < |w.owed|
    ensures QueueGrows(w, AnnounceStep(w, k))
  {
    hide Queued, QueuedDay, AnnounceStep;
    forall s: Sku | Queued(w, s) { AnnounceQueuesSku(w, k, s); }
    forall s: Sku, d | QueuedDay(w, s, d) { AnnounceQueuesDay(w, k, s, d); }
  }

  lemma AnnounceQueuesSku(w: World, k: nat, s: Sku)
    requires k < |w.owed| && Queued(w, s)
    ensures Queued(AnnounceStep(w, k), s)
  {
    var u := AnnounceStep(w, k);
    if OwedHas(w.owed, s) {
      var j :| 0 <= j < |w.owed| && w.owed[j].store == s.store && s.id > 0 && s.id in w.owed[j].skus;
      if j != k {
        assert u.owed[if j < k then j else j - 1] == w.owed[j];
      } else {
        assert s.id in PositiveIds(w.owed[k].skus);
      }
    }
  }

  lemma AnnounceQueuesDay(w: World, k: nat, s: Sku, d: int)
    requires k < |w.owed| && QueuedDay(w, s, d)
    ensures QueuedDay(AnnounceStep(w, k), s, d)
  {
    var u, o := AnnounceStep(w, k), w.owed[k];
    if WorkDay(w.q.pending, s, d) {
      EnqueueKeepsDay(w.q, o.store, PositiveIds(o.skus), o.days, s, d);
    } else {
      var j :| 0 <= j < |w.owed| && w.owed[j].store == s.store && s.id > 0 && s.id in w.owed[j].skus
        && InSpan(w.owed[j].days, d);
      if j == k {
        EnqueueKeepsDay(w.q, o.store, PositiveIds(o.skus), o.days, s, d);
      } else {
        assert u.owed[if j < k then j else j - 1] == w.owed[j];
      }
    }
  }

  lemma GrownCovered(w: World, u: World)
    requires Covered(w) && SeenCovered(w) && QueueGrows(w, u)
    requires u.db == w.db && Batch(u.q) == Batch(w.q) && u.lost == w.lost && u.lostSpans == w.lostSpans
      && u.flight == w.flight
    ensures Covered(u) && SeenCovered(u)
  {
    hide Queued, QueuedDay;
    forall s, d | s in u.db && StaleDay(u.db[s], d) ensures DayCovered(u, s, d) { assert DayCovered(w, s, d); }
    forall s | s in u.db && !Fresh(u.db[s]) ensures SkuCovered(u, s) { assert SkuCovered(w, s); }
  }

  /** Handing the pending map over to the drain, or moving to the next store, uncovers nothing. */
  lemma HandOverCovered(w: World, q': Queue)
    requires Covered(w)
    requires forall s :: WorkHas(w.q.pending, s) || WorkHas(Batch(w.q), s) ==>
      WorkHas(q'.pending, s) || WorkHas(Batch(q'), s)
    requires forall s, d :: WorkDay(w.q.pending, s, d) || WorkDay(Batch(w.q), s, d) ==>
      WorkDay(q'.pending, s, d) || WorkDay(Batch(q'), s, d)
    requires SeenCovered(w) && (w.flight.Some? ==> q'.pending == w.q.pending)
    ensures Covered(w.(q := q')) && SeenCovered(w.(q := q'))
  {
    var u := w.(q := q');
    assert w.flight.Some? ==> QueueGrows(w, u);
    forall s, d | s in u.db && StaleDay(u.db[s], d) ensures DayCovered(u, s, d) {
      assert DayCovered(w, s, d);
    }
    forall s | s in u.db && !Fresh(u.db[s]) ensures SkuCovered(u, s) {
      assert SkuCovered(w, s);
    }
  }

  lemma PatchedDay(summary: map<int, int>, sales: map<int, int>, days: set<int>, d: int)
    ensures InSpan(days, d) ==> SameDay(Patched(summary, sales, days), sales, d)
    ensures !InSpan(days, d) ==> SameDay(Patched(summary, sales, days), summary, d)
  {
  }

  lemma SpanNested(inner: set<int>, outer: set<int>, d: int)
    requires InSpan(inner, d) && forall x :: x in inner ==> InSpan(outer, x)
    ensures InSpan(outer, d)
  {
    var a, b :| a in inner && b in inner && a <= d <= b;
    var lo, m :| lo in outer && m in outer && lo <= a <= m;
    var n, hi :| n in outer && hi in outer && n <= b <= hi;
    assert lo <= d <= hi;
  }

  /** At the return of a rebuild: a day it has written is stale only if it changed in the meantime, and then it is
      queued; a day outside its span is as before. */
  lemma RebuildCovered(w: World, ok: bool)
    requires Covered(w) && SeenCovered(w) && Fits(w)
    ensures Covered(RebuiltStep(w, ok)) && SeenCovered(RebuiltStep(w, ok))
  {
    var u := RebuiltStep(w, ok);
    if w.flight.Some? && w.flight.value.Rebuilding? {
      var Rebuilding(store, days, sales) := w.flight.value;
      forall s, d | s in u.db && StaleDay(u.db[s], d)
        ensures DayCovered(u, s, d)
      {
        if ok && s in sales { PatchedDay(w.db[s].summary, sales[s], days, d); }
        if ok && s in sales && InSpan(days, d) {
          assert !SameDay(sales[s], w.db[s].sales, d);
          assert QueuedDay(w, s, d);
        } else {
          assert StaleDay(w.db[s], d);
          StaysCovered(w, ok, s, d);
        }
      }
      forall s | s in u.db && !Fresh(u.db[s]) ensures SkuCovered(u, s) { assert SkuCovered(w, s); }
    }
  }

  lemma StaysCovered(w: World, ok: bool, s: Sku, d: int)
    requires Fits(w) && w.flight.Some? && w.flight.value.Rebuilding? && DayCovered(w, s, d)
    requires ok ==> s.store != w.flight.value.store || !InSpan(w.flight.value.days, d)
    ensures DayCovered(RebuiltStep(w, ok), s, d)
  {
    var u := RebuiltStep(w, ok);
    var Rebuilding(store, days, _) := w.flight.value;
    if QueuedDay(w, s, d) {
      assert QueuedDay(u, s, d);
    } else if LostDay(w.lostSpans, s, d) {
      var l :| l in w.lostSpans && l.store == s.store && InSpan(l.days, d);
      if l !in u.lostSpans { SpanNested(l.days, days, d); }
    } else if s.store == store {
      assert !ok;
      assert LostSpan(store, days) in u.lostSpans;
    }
  }

  lemma StartRebuildCovered(w: World)
    requires Covered(w) && SeenCovered(w)
    ensures Covered(StartRebuildStep(w)) && SeenCovered(StartRebuildStep(w))
  {
    var u := StartRebuildStep(w);
    assert forall s, d :: DayCovered(w, s, d) ==> DayCovered(u, s, d);
    assert forall s :: SkuCovered(w, s) ==> SkuCovered(u, s);
  }

  /** The inputs a recomputation reads differ from the facts only on days that are queued or whose rebuild failed: the
      rebuild of the batch has been done. */
  lemma StartRecomputeCovered(w: World, id: int)
    requires Covered(w) && SeenCovered(w) && Fits(w)
    ensures Covered(StartRecomputeStep(w, id)) && SeenCovered(StartRecomputeStep(w, id))
  {
    var u := StartRecomputeStep(w, id);
    assert forall s, d :: DayCovered(w, s, d) ==> DayCovered(u, s, d);
    assert forall s :: SkuCovered(w, s) ==> SkuCovered(u, s);
    if u != w {
      var s := Sku(w.q.live.value.current, id);
      if s in w.db && w.db[s].summary != w.db[s].sales {
        var d := DifferentDay(w.db[s]);
        assert DayCovered(w, s, d);
        DayNeedsSku(w, s, d);
        assert Queued(w, s) ==> Queued(u, s);
      }
    }
  }

  lemma DayNeedsSku(w: World, s: Sku, d: int)
    ensures QueuedDay(w, s, d) ==> Queued(w, s)
  {
    if OwedDay(w.owed, s, d) {
      var j :| 0 <= j < |w.owed| && w.owed[j].store == s.store && s.id > 0 && s.id in w.owed[j].skus
        && InSpan(w.owed[j].days, d);
    }
  }

  lemma RecomputeCovered(w: World, ok: bool)
    requires Covered(w) && SeenCovered(w) && Fits(w)
    ensures Covered(RecomputedStep(w, ok)) && SeenCovered(RecomputedStep(w, ok))
  {
    var u := RecomputedStep(w, ok);
    if w.flight.Some? && w.flight.value.Recomputing? {
      var t := w.flight.value.s;
      forall s, d | s in u.db && StaleDay(u.db[s], d)
        ensures DayCovered(u, s, d)
      {
        assert StaleDay(w.db[s], d) && DayCovered(w, s, d);
        if WorkDay(Batch(w.q), s, d) { assert s.store != t.store; }
      }
      forall s | s in u.db && !Fresh(u.db[s])
        ensures SkuCovered(u, s)
      {
        assert Queued(w, s) ==> Queued(u, s);
        if !(s == t && ok) { assert SkuCovered(w, s); }
      }
    }
  }

  lemma SameDaysSameMap(row: Row)
    requires forall d :: !StaleDay(row, d)
    ensures row.summary == row.sales
  {
    forall d ensures SameDay(row.summary, row.sales, d) { assert !StaleDay(row, d); }
    forall d ensures d in row.summary.Keys <==> d in row.sales.Keys { assert SameDay(row.summary, row.sales, d); }
    assert row.summary.Keys == row.sales.Keys;
    forall d | d in row.summary ensures row.summary[d] == row.sales[d] { assert SameDay(row.summary, row.sales, d); }
    assert row.summary == row.sales;
  }

  lemma DifferentDay(row: Row) returns (d: int)
    requires row.summary != row.sales
    ensures StaleDay(row, d)
  {
    if forall d :: !StaleDay(row, d) { SameDaysSameMap(row); }
    d :| StaleDay(row, d);
  }

  lemma DrainCovered(w: World, pick: int)
    requires Covered(w) && SeenCovered(w) && Shape(w.q) && Fits(w)
    ensures forall q' | q' == TimerFired(w.q, pick) || q' == Flushed(w.q, pick) || q' == StoreReturned(w.q, pick) ::
              Covered(w.(q := q')) && SeenCovered(w.(q := q'))
  {
    hide Covered, SeenCovered;
    HandOverCovered(w, TimerFired(w.q, pick));
    HandOverCovered(w, Flushed(w.q, pick));
    HandOverCovered(w, StoreReturned(w.q, pick));
  }

  lemma AnnounceCovered(w: World, k: nat)
    requires Covered(w) && SeenCovered(w)
    ensures Covered(AnnounceStep(w, k)) && SeenCovered(AnnounceStep(w, k))
  {
    hide Covered, SeenCovered, QueueGrows;
    if k < |w.owed| {
      AnnounceQueues(w, k);
      GrownCovered(w, AnnounceStep(w, k));
    }
  }

  lemma EnqueueCovered(w: World, store: int, skus: set<int>, days: set<int>)
    requires Covered(w) && SeenCovered(w)
    ensures Covered(WithEnqueue(w, store, skus, days)) && SeenCovered(WithEnqueue(w, store, skus, days))
  {
    hide Covered, SeenCovered, QueueGrows;
    EnqueueQueues(w, store, skus, days);
    GrownCovered(w, WithEnqueue(w, store, skus, days));
  }

  lemma StepCovered(w: World, e: Event)
    requires Covered(w) && SeenCovered(w) && Shape(w.q) && Fits(w)
    ensures Covered(Step(w, e)) && SeenCovered(Step(w, e))
  {
    hide Covered, SeenCovered, Shape, Fits, TimerFired, Flushed, StoreReturned;
    match e {
      case Commit(store, changes, days) => CommitCovered(w, store, changes, days);
      case Announce(k) => AnnounceCovered(w, k);
      case Enqueue(store, skus, days) => EnqueueCovered(w, store, PositiveIds(skus), days);
      case Timer(pick) => DrainCovered(w, pick);
      case Flush(pick) => DrainCovered(w, pick);
      case StoreDone(pick) => DrainCovered(w, pick);
      case StartRebuild => StartRebuildCovered(w);
      case Rebuilt(ok) => RebuildCovered(w, ok);
      case StartRecompute(id) => StartRecomputeCovered(w, id);
      case Recomputed(ok) => RecomputeCovered(w, ok);
    }
  }

  /** In every run, whatever commits and calls come between the reading and the writing of a transaction. */
  lemma {:induction false} RunCovered(db: Db, es: seq<Event>)
    requires AllFresh(db)
    ensures Covered(Run(Initial(db), es)) && SeenCovered(Run(Initial(db), es))
  {
    if es != [] {
      hide Step;
      RunCovered(db, es[..|es| - 1]);
      RunShape(db, es[..|es| - 1]);
      StepCovered(Run(Initial(db), es[..|es| - 1]), es[|es| - 1]);
    }
  }

  // ---- Equal to handling every event on its own ----------------------------------------------------

  ghost predicate Quiet(w: World) {
    w.owed == [] && w.q.pending == map[] && w.q.live.None?
  }

  ghost predicate NoFailure(es: seq<Event>) {
    forall i :: 0 <= i < |es| ==> !(es[i].Rebuilt? && !es[i].ok) && !(es[i].Recomputed? && !es[i].ok)
  }

  ghost predicate NothingLost(w: World) {
    w.lost == {} && w.lostSpans == {} && (w.flight.Some? && w.flight.value.Recomputing? ==> !w.flight.value.lostDay)
  }

  lemma SuccessLosesNothing(w: World, e: Event)
    requires NothingLost(w) && !(e.Rebuilt? && !e.ok) && !(e.Recomputed? && !e.ok)
    ensures NothingLost(Step(w, e))
  {
    match e {
      case Rebuilt(ok) => assert RebuiltStep(w, ok).lostSpans == {};
      case StartRecompute(id) => assert AwaitsSku(w.q, id) ==> !ReadsLostDay(w, Sku(w.q.live.value.current, id));
      case Announce(k) => assert NothingLost(AnnounceStep(w, k));
      case _ =>
    }
  }

  lemma {:induction false} NoFailureLosesNothing(db: Db, es: seq<Event>)
    requires NoFailure(es)
    ensures NothingLost(Run(Initial(db), es))
  {
    hide Step;
    if es != [] {
      NoFailureLosesNothing(db, es[..|es| - 1]);
      SuccessLosesNothing(Run(Initial(db), es[..|es| - 1]), es[|es| - 1]);
    }
  }

  /** The reference: every commit is followed at once by the rebuild of its days and the recomputation of its SKUs. */
  ghost function Direct(db: Db, es: seq<Event>): Db {
    if es == [] then db else
    DirectStep(Direct(db, es[..|es| - 1]), es[|es| - 1])
  }

  ghost function DirectStep(db: Db, e: Event): Db {
    if e.Commit? && LegalCommit(db, e.store, e.changes, e.days)
    then
      var c := Committed(db, e.store, e.changes);
      AllRecomputed(RebuiltDb(c, e.days, SalesOf(c, e.store)), e.store, e.changes.Keys)
    else db
  }

  ghost function AllRecomputed(db: Db, store: int, ids: set<int>): Db {
    map s | s in db :: if s.store == store && s.id in ids then db[s].(derived := Inputs(db[s].stock, db[s].summary))
      else db[s]
  }

  ghost predicate SameFacts(a: Db, b: Db) {
    a.Keys == b.Keys && forall s :: s in a ==> a[s].stock == b[s].stock && a[s].sales == b[s].sales
  }

  lemma DirectStepIsFresh(d: Db, e: Event)
    requires AllFresh(d)
    ensures AllFresh(DirectStep(d, e))
  {
    if e.Commit? && LegalCommit(d, e.store, e.changes, e.days) {
      var c := Committed(d, e.store, e.changes);
      var r := RebuiltDb(c, e.days, SalesOf(c, e.store));
      forall s | s in r ensures r[s].summary == r[s].sales {
        if s.store == e.store {
          forall x ensures !StaleDay(r[s], x) { PatchedDay(c[s].summary, c[s].sales, e.days, x); }
          SameDaysSameMap(r[s]);
        }
      }
    }
  }

  lemma {:induction false} DirectIsFresh(db: Db, es: seq<Event>)
    requires AllFresh(db)
    ensures AllFresh(Direct(db, es))
  {
    if es != [] {
      DirectIsFresh(db, es[..|es| - 1]);
      DirectStepIsFresh(Direct(db, es[..|es| - 1]), es[|es| - 1]);
    }
  }

  lemma SameLegality(a: Db, b: Db, store: int, changes: map<int, Inputs>, days: set<int>)
    requires SameFacts(a, b)
    ensures LegalCommit(a, store, changes, days) == LegalCommit(b, store, changes, days)
  {
  }

  lemma OnlyCommitsChangeFacts(w: World, e: Event)
    requires !e.Commit?
    ensures SameFacts(Step(w, e).db, w.db)
  {
    hide AwaitsRebuild, AwaitsSku, Fits, RebuildReturned, SkuReturned, TimerFired, Flushed, StoreReturned, ReadsLostDay;
    match e {
      case Rebuilt(ok) => assert SameFacts(RebuiltStep(w, ok).db, w.db);
      case Recomputed(ok) => assert SameFacts(RecomputedStep(w, ok).db, w.db);
      case StartRebuild =>
      case StartRecompute(_) =>
      case Announce(k) => assert AnnounceStep(w, k).db == w.db;
      case Enqueue(_, _, _) =>
      case Timer(_) =>
      case Flush(_) =>
      case StoreDone(_) =>
    }
  }

  lemma CommitFacts(a: Db, b: Db, store: int, changes: map<int, Inputs>)
    requires SameFacts(a, b)
    ensures SameFacts(Committed(a, store, changes), Committed(b, store, changes))
  {
  }

  lemma DerivedFacts(c: Db, store: int, days: set<int>, sales: map<Sku, map<int, int>>, ids: set<int>)
    ensures SameFacts(c, AllRecomputed(RebuiltDb(c, days, sales), store, ids))
  {
    hide Patched;
  }

  lemma FactsStep(w: World, d: Db, e: Event)
    requires SameFacts(w.db, d)
    ensures SameFacts(Step(w, e).db, DirectStep(d, e))
  {
    hide LegalCommit, Committed, RebuiltDb, AllRecomputed, SalesOf;
    if e.Commit? {
      SameLegality(w.db, d, e.store, e.changes, e.days);
      CommitFacts(w.db, d, e.store, e.changes);
      var c := Committed(d, e.store, e.changes);
      DerivedFacts(c, e.store, e.days, SalesOf(c, e.store), e.changes.Keys);
    } else {
      OnlyCommitsChangeFacts(w, e);
    }
  }

  lemma {:induction false} FactsAgree(db: Db, es: seq<Event>)
    ensures SameFacts(Run(Initial(db), es).db, Direct(db, es))
  {
    hide Step, DirectStep;
    if es != [] {
      FactsAgree(db, es[..|es| - 1]);
      FactsStep(Run(Initial(db), es[..|es| - 1]), Direct(db, es[..|es| - 1]), es[|es| - 1]);
    }
  }

  /** Coalescing is sound: whatever the interleaving, once the queue is quiet and nothing failed, the data
      equals what handling every committed event on its own would have left. */
  lemma QuietEqualsDirect(db: Db, es: seq<Event>)
    requires AllFresh(db) && NoFailure(es) && Quiet(Run(Initial(db), es))
    ensures Run(Initial(db), es).db == Direct(db, es)
  {
    hide Step, DirectStep;
    var w := Run(Initial(db), es);
    RunCovered(db, es);
    NoFailureLosesNothing(db, es);
    QuietIsFresh(w);
    DirectIsFresh(db, es);
    FactsAgree(db, es);
    forall s | s in w.db ensures w.db[s] == Direct(db, es)[s] {
    }
  }

  /** With failures: once quiet, a SKU whose own recomputation did not fail last and whose summary days were
      all rebuilt is up to date. */
  lemma QuietIsFresh(w: World)
    requires Covered(w) && Quiet(w)
    ensures forall s :: s in w.db && s !in w.lost ==> Fresh(w.db[s])
    ensures forall s :: s in w.db && (forall l :: l in w.lostSpans ==> l.store != s.store) ==>
      w.db[s].summary == w.db[s].sales
  {
    forall s | s in w.db && s !in w.lost ensures Fresh(w.db[s]) {
      assert !SkuCovered(w, s);
    }
    forall s | s in w.db && (forall l :: l in w.lostSpans ==> l.store != s.store)
      ensures w.db[s].summary == w.db[s].sales
    {
      forall d ensures !StaleDay(w.db[s], d) { assert !DayCovered(w, s, d); }
      SameDaysSameMap(w.db[s]);
    }
  }

  // ---- A promise resolves only after its work was attempted -----------------------------------------

  ghost predicate SkuTried(w: World, a: Ask, id: int) {
    Sku(a.store, id) in w.tried && a.at < w.tried[Sku(a.store, id)]
  }

  ghost predicate DayTried(w: World, a: Ask, d: int) {
    (a.store, d) in w.built && a.at < w.built[(a.store, d)]
  }

  ghost predicate AskWithin(w: World, a: Ask, work: map<int, Work>) {
    && (forall id :: id in a.skus ==> SkuTried(w, a, id) || (a.store in work && id in work[a.store].skus))
    && (forall d :: d in a.days ==> DayTried(w, a, d) || (a.store in work && d in work[a.store].days))
  }

  /** The attempt in flight began after every call whose promise waits for the batch. */
  ghost predicate Begun(w: World) {
    w.flight.Some? && w.q.live.Some? ==> forall p :: p in w.q.live.value.waiters ==>
      p < |w.asks| && BegunAfter(w, w.asks[p].at)
  }

  ghost predicate BegunAfter(w: World, at: nat)
    requires w.flight.Some?
  {
    match w.flight.value
    case Rebuilding(store, days, _) => forall d :: d in days ==> (store, d) in w.built && at < w.built[(store, d)]
    case Recomputing(s, _, _) => s in w.tried && at < w.tried[s]
  }

  ghost predicate Attempted(w: World) {
    && |w.asks| == w.q.next
    && (forall i :: 0 <= i < |w.asks| ==> w.asks[i].at < w.clock)
    && AllWithin(w, w.q.waiters, w.q.pending)
    && (w.q.live.Some? ==> AllWithin(w, w.q.live.value.waiters, w.q.live.value.batch))
    && AllWithin(w, w.q.resolved, map[])
  }

  /** Every ask that lies within `work` still lies within it, or within what is left of it after an attempt. */
  lemma WithinKept(w: World, u: World, a: Ask, work: map<int, Work>, work': map<int, Work>)
    requires AskWithin(w, a, work)
    requires forall id :: SkuTried(w, a, id) ==> SkuTried(u, a, id)
    requires forall d :: DayTried(w, a, d) ==> DayTried(u, a, d)
    requires forall id :: a.store in work && id in work[a.store].skus ==>
               SkuTried(u, a, id) || (a.store in work' && id in work'[a.store].skus)
    requires forall d :: a.store in work && d in work[a.store].days ==>
               DayTried(u, a, d) || (a.store in work' && d in work'[a.store].days)
    ensures AskWithin(u, a, work')
  {
  }

  ghost predicate AllWithin(w: World, ps: seq<nat>, work: map<int, Work>) {
    forall p :: p in ps ==> p < |w.asks| && AskWithin(w, w.asks[p], work)
  }

  /** A rebuild or a recomputation starts or returns: what leaves the batch has been attempted. */
  lemma ReturnAttempted(w: World, u: World)
    requires Attempted(w) && w.q.live.Some? && u.q.live.Some?
    requires u.asks == w.asks && w.clock <= u.clock
    requires forall a: Ask, id :: a.at < w.clock && SkuTried(w, a, id) ==> SkuTried(u, a, id)
    requires forall a: Ask, d :: a.at < w.clock && DayTried(w, a, d) ==> DayTried(u, a, d)
    requires u.q == w.q.(live := u.q.live) && u.q.live.value.waiters == w.q.live.value.waiters
    requires forall p, id ::
      p in w.q.live.value.waiters && p < |w.asks| && WorkHas(Batch(w.q), Sku(w.asks[p].store, id)) ==>
               SkuTried(u, w.asks[p], id) || WorkHas(Batch(u.q), Sku(w.asks[p].store, id))
    requires forall p, d :: p in w.q.live.value.waiters && p < |w.asks| && DueDay(Batch(w.q), w.asks[p].store, d) ==>
               DayTried(u, w.asks[p], d) || DueDay(Batch(u.q), w.asks[p].store, d)
    ensures Attempted(u)
  {
    var b, b' := w.q.live.value.batch, u.q.live.value.batch;
    forall p | p in w.q.waiters ensures AskWithin(u, w.asks[p], u.q.pending) {
      WithinKept(w, u, w.asks[p], w.q.pending, u.q.pending);
    }
    forall p | p in w.q.live.value.waiters ensures AskWithin(u, w.asks[p], b') {
      var a := w.asks[p];
      forall id | a.store in b && id in b[a.store].skus
        ensures SkuTried(u, a, id) || (a.store in b' && id in b'[a.store].skus)
      {
        assert WorkHas(Batch(w.q), Sku(a.store, id));
      }
      forall d | a.store in b && d in b[a.store].days
        ensures DayTried(u, a, d) || (a.store in b' && d in b'[a.store].days)
      {
        assert DueDay(Batch(w.q), a.store, d);
      }
      WithinKept(w, u, a, b, b');
    }
    forall p | p in w.q.resolved ensures AskWithin(u, w.asks[p], map[]) {
      WithinKept(w, u, w.asks[p], map[], map[]);
    }
  }

  ghost predicate DueDay(work: map<int, Work>, store: int, d: int) { store in work && d in work[store].days }

  /** A finished store leaves the batch with nothing to do; an emptied batch lets its promises resolve. */
  lemma StoreDoneAttempted(w: World, pick: int)
    requires Attempted(w) && Shape(w.q)
    ensures Attempted(w.(q := StoreReturned(w.q, pick)))
  {
    var u := w.(q := StoreReturned(w.q, pick));
    if u != w {
      var d := w.q.live.value;
      var rest := d.batch - {d.current};
      forall p | p in d.waiters ensures AskWithin(u, w.asks[p], rest) {
        WithinKept(w, u, w.asks[p], d.batch, rest);
      }
      assert AllWithin(u, w.q.waiters, w.q.pending) by {
        forall p | p in w.q.waiters ensures AskWithin(u, w.asks[p], w.q.pending) {
          WithinKept(w, u, w.asks[p], w.q.pending, w.q.pending);
        }
      }
      forall p | p in w.q.resolved ensures AskWithin(u, w.asks[p], map[]) {
        WithinKept(w, u, w.asks[p], map[], map[]);
      }
    }
  }

  lemma EnqueueAttempted(w: World, store: int, skus: set<int>, days: set<int>)
    requires Attempted(w) && Shape(w.q)
    ensures Attempted(WithEnqueue(w, store, skus, days))
  {
    var u := WithEnqueue(w, store, skus, days);
    if u != w {
      EnqueueWaits(w, store, skus, days);
      StaysWithin(w, u, w.q.resolved, map[]);
      if w.q.live.Some? { StaysWithin(w, u, w.q.live.value.waiters, w.q.live.value.batch); }
      hide AllWithin, AddWork, Shape;
    }
  }

  lemma StaysWithin(w: World, u: World, ps: seq<nat>, work: map<int, Work>)
    requires AllWithin(w, ps, work) && w.asks <= u.asks && u.tried == w.tried && u.built == w.built
    ensures AllWithin(u, ps, work)
  {
  }

  lemma EnqueueWaits(w: World, store: int, skus: set<int>, days: set<int>)
    requires AllWithin(w, w.q.waiters, w.q.pending) && |w.asks| == w.q.next && WithEnqueue(w, store, skus, days) != w
    ensures var u := WithEnqueue(w, store, skus, days); AllWithin(u, u.q.waiters, u.q.pending)
  {
    var u, n := WithEnqueue(w, store, skus, days), |w.asks|;
    forall p | p in u.q.waiters
      ensures p < |u.asks| && AskWithin(u, u.asks[p], u.q.pending)
    {
      if p in w.q.waiters {
        WithinKept(w, u, w.asks[p], w.q.pending, u.q.pending);
      } else {
        assert p == n && u.asks[n] == Ask(store, skus, days, w.clock);
      }
    }
  }

  lemma StampedAt(built: map<(int, int), nat>, store: int, days: set<int>, at: nat)
    ensures forall d :: d in days ==>
      (store, d) in Stamped(built, store, days, at) && Stamped(built, store, days, at)[(store, d)] == at
    ensures forall p :: p in built ==>
      p in Stamped(built, store, days, at) && Stamped(built, store, days, at)[p] in {built[p], at}
  {
    forall d | d in days ensures (store, d) in set x | x in days :: (store, x) {}
  }

  lemma StartRebuildAttempted(w: World)
    requires Attempted(w) && AwaitsRebuild(w.q)
    ensures Attempted(StartRebuildStep(w)) && Begun(StartRebuildStep(w))
  {
    var store, days := w.q.live.value.current, CurrentWork(w.q).days;
    StampedAt(w.built, store, days, w.clock);
    ReturnAttempted(w, StartRebuildStep(w));
  }

  lemma StartRecomputeAttempted(w: World, id: int)
    requires Attempted(w) && Begun(w) && AwaitsSku(w.q, id)
    ensures Attempted(StartRecomputeStep(w, id)) && Begun(StartRecomputeStep(w, id))
  {
    if StartRecomputeStep(w, id) != w { ReturnAttempted(w, StartRecomputeStep(w, id)); }
  }

  lemma RebuiltAttempted(w: World, ok: bool)
    requires Attempted(w) && Begun(w) && Fits(w) && w.flight.Some? && w.flight.value.Rebuilding?
    ensures Attempted(RebuiltStep(w, ok))
  {
    ReturnAttempted(w, RebuiltStep(w, ok));
  }

  lemma RecomputedAttempted(w: World, ok: bool)
    requires Attempted(w) && Begun(w) && Fits(w) && w.flight.Some? && w.flight.value.Recomputing?
    ensures Attempted(RecomputedStep(w, ok))
  {
    ReturnAttempted(w, RecomputedStep(w, ok));
  }

  lemma BegunKept(w: World, e: Event)
    requires Attempted(w) && Begun(w) && Shape(w.q) && Fits(w) && !e.StartRebuild? && !e.StartRecompute?
    ensures Begun(Step(w, e))
  {
    hide AllWithin;
    match e {
      case Announce(k) => assert Begun(AnnounceStep(w, k));
      case Enqueue(store, skus, days) => assert Begun(WithEnqueue(w, store, PositiveIds(skus), days));
      case _ =>
    }
  }

  lemma AnnounceAttempted(w: World, k: nat)
    requires Attempted(w) && Shape(w.q) && k < |w.owed|
    ensures Attempted(AnnounceStep(w, k))
  {
    var u := w.(owed := w.owed[..k] + w.owed[k+1..]);
    SameLogs(w, u);
    hide Attempted, Shape;
    EnqueueAttempted(u, w.owed[k].store, PositiveIds(w.owed[k].skus), w.owed[k].days);
  }

  lemma OtherAttempted(w: World, e: Event)
    requires Attempted(w) && Shape(w.q) && (e.Commit? || e.Timer? || e.Flush?)
    ensures Attempted(Step(w, e))
  {
    hide Attempted, LegalCommit;
    SameLogs(w, Step(w, e));
  }

  lemma AttemptedKept(w: World, e: Event)
    requires Attempted(w) && Begun(w) && Shape(w.q) && Fits(w)
    ensures Attempted(Step(w, e))
  {
    hide Attempted, Begun, Shape, Fits;
    match e {
      case StartRebuild => if AwaitsRebuild(w.q) { StartRebuildAttempted(w); }
      case Rebuilt(ok) => if w.flight.Some? && w.flight.value.Rebuilding? { RebuiltAttempted(w, ok); }
      case StartRecompute(id) => if AwaitsSku(w.q, id) { StartRecomputeAttempted(w, id); }
      case Recomputed(ok) => if w.flight.Some? && w.flight.value.Recomputing? { RecomputedAttempted(w, ok); }
      case StoreDone(pick) => StoreDoneAttempted(w, pick);
      case Enqueue(store, skus, days) => EnqueueAttempted(w, store, PositiveIds(skus), days);
      case Announce(k) =>
        if k < |w.owed| { AnnounceAttempted(w, k); }
      case _ => OtherAttempted(w, e);
    }
  }

  lemma StartBegins(w: World, e: Event)
    requires Attempted(w) && Begun(w) && Fits(w) && (e.StartRebuild? || e.StartRecompute?)
    ensures Begun(Step(w, e))
  {
    hide Attempted, Fits;
    match e {
      case StartRebuild => if AwaitsRebuild(w.q) { StartRebuildAttempted(w); }
      case StartRecompute(id) => if AwaitsSku(w.q, id) { StartRecomputeAttempted(w, id); }
    }
  }

  /** The pending work and its promises have become the batch. */
  ghost predicate HandedOver(q: Queue, q': Queue) {
    q'.waiters == [] && q'.live.Some? && q'.live.value.waiters == q.waiters && q'.live.value.batch == q.pending
  }

  lemma SameLogs(w: World, u: World)
    requires Attempted(w)
    requires u.asks == w.asks && u.tried == w.tried && u.built == w.built && u.clock == w.clock
    requires u.q.next == w.q.next && u.q.resolved == w.q.resolved
    requires (u.q.waiters == w.q.waiters && u.q.pending == w.q.pending && u.q.live == w.q.live) || HandedOver(w.q, u.q)
    ensures Attempted(u)
  {
    assert AllWithin(u, w.q.waiters, w.q.pending);
    assert AllWithin(u, w.q.resolved, map[]);
    assert w.q.live.Some? ==> AllWithin(u, w.q.live.value.waiters, w.q.live.value.batch);
  }

  lemma {:induction false} RunAttempted(db: Db, es: seq<Event>)
    ensures Attempted(Run(Initial(db), es)) && Begun(Run(Initial(db), es))
  {
    hide Step;
    if es != [] {
      var w, e := Run(Initial(db), es[..|es| - 1]), es[|es| - 1];
      RunAttempted(db, es[..|es| - 1]);
      RunShape(db, es[..|es| - 1]);
      AttemptedKept(w, e);
      if e.StartRebuild? || e.StartRecompute? { StartBegins(w, e); } else { BegunKept(w, e); }
    }
  }

  /** A resolved promise: for every SKU and date key of the enqueue call an attempt was begun after the call. */
  lemma ResolvedMeansAttempted(db: Db, es: seq<Event>, p: nat)
    requires p in Run(Initial(db), es).q.resolved
    ensures var w := Run(Initial(db), es);
      && p < |w.asks|
      && (forall id :: id in w.asks[p].skus ==> SkuTried(w, w.asks[p], id))
      && (forall d :: d in w.asks[p].days ==> DayTried(w, w.asks[p], d))
  {
    hide Step;
    RunAttempted(db, es);
    assert AskWithin(Run(Initial(db), es), Run(Initial(db), es).asks[p], map[]);
  }
}

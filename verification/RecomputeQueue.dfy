/** The coalescing post-commit queue of the Decision Engine.

  An `await` hands control back to the event loop, so the drain coroutine is cut into one step per
  await: a summary rebuild returned, a SKU recomputation returned, a store is finished. Everything
  between two awaits runs without interruption and is one step here.

  Store ids, stock item ids and business date keys are integers; date keys are numbered so that their
  order is the order of the YYYY-MM-DD strings (BusinessDate.KeyOrderIsDayOrder). A `Map` and a `Set` hand out
  their entries in insertion order; here any order is allowed (`pick`), so what is proved holds for
  insertion order as well.
 */
module RecomputeQueue {
  import opened Options

  datatype Work = Work(skus: set<int>, days: set<int>)

  /** The locals of the suspended drain coroutine. `batch` maps every store that is not finished to the
      work it still needs; `current` is the store being processed. */
  datatype Drain = Drain(batch: map<int, Work>, current: int, waiters: seq<nat>)

  /** `draining` says whether the field holds a promise; `live` whether a coroutine is still running.
      Promises are numbered by `next`; `resolved` lists the resolved ones in order. */
  datatype Queue = Queue(pending: map<int, Work>, waiters: seq<nat>, timer: bool, draining: bool,
      live: Option<Drain>, next: nat, resolved: seq<nat>)

  const Empty := Queue(map[], [], false, false, None, 0, [])

  ghost function PositiveIds(ids: set<int>): set<int> {
    set i | i in ids && i > 0
  }

  ghost function Members(s: seq<int>): set<int> { set x | x in s }

  ghost function AddWork(pending: map<int, Work>, store: int, skus: set<int>, days: set<int>): map<int, Work> {
    var w := if store in pending then pending[store] else Work({}, {});
    pending[store := Work(w.skus + skus, w.days + days)]
  }

  ghost function Scheduled(q: Queue): Queue {
    if q.timer || q.draining then q else q.(timer := true)
  }

  ghost function Enqueued(q: Queue, store: int, skus: set<int>, days: set<int>): Queue {
    if skus == {} && days == {} then q
    else Scheduled(q.(pending := AddWork(q.pending, store, skus, days), waiters := q.waiters + [q.next],
      next := q.next + 1))
  }

  /** The synchronous part of drain(). With nothing pending the async body runs to its end first, its
      `finally` clears `draining`, and only then is the resolved promise stored. */
  ghost function Drained(q: Queue, pick: int): Queue {
    if q.draining then q
    else if q.pending == map[] then q.(draining := true)
    else if pick !in q.pending then q
    else q.(draining := true, live := Some(Drain(q.pending, pick, q.waiters)), pending := map[], waiters := [])
  }

  ghost function TimerFired(q: Queue, pick: int): Queue {
    if !q.timer || (q.pending != map[] && pick !in q.pending) then q else Drained(q.(timer := false), pick)
  }

  ghost function Flushed(q: Queue, pick: int): Queue {
    if !q.draining && q.pending != map[] && pick !in q.pending then q else Drained(q.(timer := false), pick)
  }

  /** The work left for the store being processed. */
  ghost function CurrentWork(q: Queue): Work {
    if q.live.Some? && q.live.value.current in q.live.value.batch
    then q.live.value.batch[q.live.value.current] else Work({}, {})
  }

  ghost function WithCurrent(q: Queue, work: Work): Queue
    requires q.live.Some?
  {
    var d := q.live.value;
    q.(live := Some(d.(batch := d.batch[d.current := work])))
  }

  ghost predicate AwaitsRebuild(q: Queue) {
    q.live.Some? && CurrentWork(q).days != {}
  }

  ghost predicate AwaitsSku(q: Queue, id: int) {
    q.live.Some? && CurrentWork(q).days == {} && id in CurrentWork(q).skus
  }

  ghost predicate AwaitsStore(q: Queue) {
    q.live.Some? && CurrentWork(q) == Work({}, {})
  }

  /** The summary rebuild of the current store returned, successfully or not. */
  ghost function RebuildReturned(q: Queue): Queue {
    if AwaitsRebuild(q) then WithCurrent(q, Work(CurrentWork(q).skus, {})) else q
  }

  /** The recomputation of one SKU of the current store returned, successfully or not. */
  ghost function SkuReturned(q: Queue, id: int): Queue {
    if AwaitsSku(q, id) then WithCurrent(q, Work(CurrentWork(q).skus - {id}, {})) else q
  }

  /** processStore returned: go on with another store of the batch, else resolve the waiters of the
      batch and swap in the pending work, else finish the drain. */
  ghost function StoreReturned(q: Queue, pick: int): Queue {
    if !AwaitsStore(q) then q else
    var d := q.live.value;
    var rest := d.batch - {d.current};
    if rest != map[] then
      if pick in rest then q.(live := Some(d.(batch := rest, current := pick))) else q
    else if q.pending != map[] then
      if pick in q.pending
      then q.(live := Some(Drain(q.pending, pick, q.waiters)), pending := map[], waiters := [],
              resolved := q.resolved + d.waiters)
      else q
    else q.(live := None, draining := false, resolved := q.resolved + d.waiters)
  }

  lemma NoneIfEmpty(s: seq<int>)
    ensures s == [] <==> Members(s) == {}
  {
    if s != [] { assert s[0] in Members(s); }
  }

  lemma FilteredIds(all: seq<int>, ids: seq<int>)
    requires forall x :: x in ids <==> x in all && x > 0
    ensures Members(ids) == PositiveIds(Members(all))
  {
    assert forall x :: x in Members(ids) <==> x in PositiveIds(Members(all));
  }

  lemma SpanIs(keys: seq<int>, lo: int, hi: int)
    requires lo in keys && hi in keys && forall k :: k in keys ==> lo <= k <= hi
    ensures forall d :: InSpan(Members(keys), d) <==> lo <= d <= hi
  {
    var days := Members(keys);
    assert lo in days && hi in days;
  }

  ghost predicate PendingSku(pending: map<int, Work>, store: int, id: int) {
    store in pending && id in pending[store].skus
  }

  ghost predicate PendingDay(pending: map<int, Work>, store: int, d: int) {
    store in pending && d in pending[store].days
  }

  /** What a call adds: the positive ids and the keys it was given, and nothing else. */
  lemma EnqueuedPending(q: Queue, store: int, ids: seq<int>, keys: seq<int>)
    ensures var q' := Enqueued(q, store, PositiveIds(Members(ids)), Members(keys));
      && (forall id :: PendingSku(q'.pending, store, id) <==>
            PendingSku(q.pending, store, id) || (id in ids && id > 0))
      && (forall d :: PendingDay(q'.pending, store, d) <==> PendingDay(q.pending, store, d) || d in keys)
      && (q' == q <==> (forall id :: id in ids ==> id <= 0) && keys == [])
  {
    var skus := PositiveIds(Members(ids));
    NoneIfEmpty(keys);
    assert forall id :: id in skus <==> id in ids && id > 0;
    assert skus == {} <==> forall id :: id in ids ==> id <= 0;
    assert Members(keys) != {} ==> keys != [];
    if skus == {} && Members(keys) == {} { assert forall d :: d in keys ==> d in Members(keys); }
  }

  class DecisionRecomputeQueue {
    var pending: map<int, Work>
    var waiters: seq<nat>
    var timer: bool
    var draining: bool
    var live: Option<Drain>
    var next: nat
    var resolved: seq<nat>

    ghost function Model(): Queue
      reads this
    {
      Queue(pending, waiters, timer, draining, live, next, resolved)
    }

    constructor ()
      ensures Model() == Empty
    {
      pending, waiters, timer, draining := map[], [], false, false;
      live, next, resolved := None, 0, [];
    }

    static method FilterIds(stockItemIds: seq<int>) returns (ids: seq<int>)
      ensures forall x :: x in ids <==> x in stockItemIds && x > 0
    {
      ids := [];
      for i := 0 to |stockItemIds|
        invariant forall x :: x in ids <==> x in stockItemIds[..i] && x > 0
      {
        if stockItemIds[i] > 0 { ids := ids + [stockItemIds[i]]; }
      }
      assert stockItemIds[..|stockItemIds|] == stockItemIds;
    }

    static method Merge(work0: Work, ids: seq<int>, keys: seq<int>) returns (work: Work)
      ensures work == Work(work0.skus + Members(ids), work0.days + Members(keys))
    {
      work := work0;
      for i := 0 to |ids|
        invariant work == Work(work0.skus + Members(ids[..i]), work0.days)
      {
        work := work.(skus := work.skus + {ids[i]});
      }
      assert ids[..|ids|] == ids;
      for i := 0 to |keys|
        invariant work == Work(work0.skus + Members(ids), work0.days + Members(keys[..i]))
      {
        work := work.(days := work.days + {keys[i]});
      }
      assert keys[..|keys|] == keys;
    }

    /** Returns the promise number, or None when the call resolves at once because there is no work. */
    method Enqueue(storeId: int, stockItemIds: seq<int>, summaryDateKeys: seq<int>) returns (done: Option<nat>)
      modifies this
      ensures Model() == old(Enqueued(Model(), storeId, PositiveIds(Members(stockItemIds)), Members(summaryDateKeys)))
      ensures forall id :: PendingSku(pending, storeId, id) <==>
        PendingSku(old(pending), storeId, id) || (id in stockItemIds && id > 0)
      ensures forall d :: PendingDay(pending, storeId, d) <==>
        PendingDay(old(pending), storeId, d) || d in summaryDateKeys
      ensures forall store :: store != storeId && store in old(pending) ==>
        store in pending && pending[store] == old(pending)[store]
      ensures forall store :: store in pending ==> store == storeId || store in old(pending)
      ensures done.None? <==> (forall id :: id in stockItemIds ==> id <= 0) && summaryDateKeys == []
      ensures done.Some? ==> done.value == old(next) && waiters == old(waiters) + [done.value]
    {
      var ids := FilterIds(stockItemIds);
      ghost var skus, days := PositiveIds(Members(stockItemIds)), Members(summaryDateKeys);
      FilteredIds(stockItemIds, ids);
      EnqueuedPending(Model(), storeId, stockItemIds, summaryDateKeys);
      hide PositiveIds, PendingSku, PendingDay;
      NoneIfEmpty(ids);
      NoneIfEmpty(summaryDateKeys);
      if |ids| == 0 && |summaryDateKeys| == 0 {
        return None;
      }
      var work := Merge(if storeId in pending then pending[storeId] else Work({}, {}), ids, summaryDateKeys);
      pending := pending[storeId := work];
      done := Some(next);
      waiters := waiters + [next];
      next := next + 1;
      Schedule();
    }

    method Schedule()
      modifies this`timer
      ensures Model() == old(Scheduled(Model()))
    {
      if timer || draining { return; }
      timer := true;
    }

    method RunDrain(pick: int)
      requires !draining && pending != map[] ==> pick in pending
      modifies this
      ensures Model() == old(Drained(Model(), pick))
    {
      if draining { return; }
      if |pending| > 0 {
        live := Some(Drain(pending, pick, waiters));
        pending, waiters := map[], [];
      }
      draining := true;
    }

    method OnTimer(pick: int)
      requires timer
      requires pending != map[] ==> pick in pending
      modifies this
      ensures Model() == old(TimerFired(Model(), pick))
    {
      timer := false;
      RunDrain(pick);
    }

    method Flush(pick: int)
      requires !draining && pending != map[] ==> pick in pending
      modifies this
      ensures Model() == old(Flushed(Model(), pick))
    {
      if timer { timer := false; }
      RunDrain(pick);
    }

    /** The date range the rebuild of a store is called with: first and last of the sorted keys. */
    method RebuildRange(keys: seq<int>) returns (lo: int, hi: int)
      requires keys != []
      ensures lo in keys && hi in keys
      ensures forall k :: k in keys ==> lo <= k <= hi
      ensures forall d :: InSpan(Members(keys), d) <==> lo <= d <= hi
    {
      lo, hi := keys[0], keys[0];
      for i := 1 to |keys|
        invariant lo in keys && hi in keys
        invariant forall j :: 0 <= j < i ==> lo <= keys[j] <= hi
      {
        if keys[i] < lo { lo := keys[i]; }
        if keys[i] > hi { hi := keys[i]; }
      }
      SpanIs(keys, lo, hi);
    }

    method OnRebuildReturned()
      requires AwaitsRebuild(Model())
      modifies this
      ensures Model() == old(RebuildReturned(Model()))
    {
      var d := live.value;
      live := Some(d.(batch := d.batch[d.current := Work(d.batch[d.current].skus, {})]));
    }

    method OnSkuReturned(id: int)
      requires AwaitsSku(Model(), id)
      modifies this
      ensures Model() == old(SkuReturned(Model(), id))
    {
      var d := live.value;
      live := Some(d.(batch := d.batch[d.current := Work(d.batch[d.current].skus - {id}, {})]));
    }

    /** The end of one loop round of drain(); `pick` is the next store of the batch or of the pending map. */
    method OnStoreReturned(pick: int)
      requires AwaitsStore(Model())
      requires var rest := live.value.batch - {live.value.current};
               if rest != map[] then pick in rest else pending != map[] ==> pick in pending
      modifies this
      ensures Model() == old(StoreReturned(Model(), pick))
    {
      var d := live.value;
      var rest := d.batch - {d.current};
      if |rest| > 0 {
        live := Some(d.(batch := rest, current := pick));
        return;
      }
      for i := 0 to |d.waiters|
        invariant resolved == old(resolved) + d.waiters[..i]
        invariant Model() == old(Model()).(resolved := resolved)
      {
        resolved := resolved + [d.waiters[i]];
      }
      assert d.waiters[..|d.waiters|] == d.waiters;
      if |pending| > 0 {
        live := Some(Drain(pending, pick, waiters));
        pending, waiters := map[], [];
      } else {
        // The `finally` would reschedule if work were pending; without an exception none is.
        live, draining := None, false;
      }
    }
  }

  /** Day d lies between the first and the last of the given days. */
  ghost predicate InSpan(days: set<int>, d: int) {
    exists a, b :: a in days && b in days && a <= d <= b
  }
}

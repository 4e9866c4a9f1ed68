/** The loops of the nightly job: keyset pages over a store's active SKUs, and pruning in bounded deletes. The lease
    row on its own is here too, as the table the service writes. */
module NightlyWork {
  import opened Options
  import opened NightlyJob

  class LeaseRow {
    var lease: Option<Lease>

    constructor ()
      ensures lease.None?
    {
      lease := None;
    }

    /** tryAcquire with nothing in between its two statements. */
    method TryAcquire(token: nat, now: int, ttl: int) returns (acquired: bool)
      modifies this
      ensures lease == Upserted(old(lease), token, now, ttl)
      ensures (old(lease).Some? ==> old(lease).value.token != token) ==>
                (acquired <==> old(lease).None? || old(lease).value.expiresAt < now)
    {
      if lease.None? || lease.value.expiresAt < now { lease := Some(Lease(token, now + ttl)); }
      acquired := lease.Some? && lease.value.token == token;
    }

    method Release(token: nat)
      modifies this
      ensures lease == Deleted(old(lease), token)
    {
      if lease.Some? && lease.value.token == token { lease := None; }
    }
  }

  // ---- Keyset pages --------------------------------------------------------------------------------------

  /** The ids greater than a bound, in order. */
  function After(ids: seq<int>, bound: int): (r: seq<int>)
    ensures |r| <= |ids| && forall i :: 0 <= i < |r| ==> r[i] > bound
  {
    if ids == [] then [] else if ids[0] > bound then [ids[0]] + After(ids[1..], bound) else After(ids[1..], bound)
  }

  predicate Ascending(ids: seq<int>) { forall i, k :: 0 <= i < k < |ids| ==> ids[i] < ids[k] }

  lemma {:induction false} AfterAll(ids: seq<int>, bound: int)
    requires forall i :: 0 <= i < |ids| ==> ids[i] > bound
    ensures After(ids, bound) == ids
  {
    if ids != [] { AfterAll(ids[1..], bound); }
  }

  lemma {:induction false} AfterShape(ids: seq<int>, bound: int)
    requires Ascending(ids)
    ensures After(ids, bound) == ids[|ids| - |After(ids, bound)|..] && Ascending(After(ids, bound))
  {
    if ids != [] {
      if ids[0] > bound {
        AfterAll(ids, bound);
      } else {
        AfterShape(ids[1..], bound);
      }
    }
  }

  /** What follows the n-th id of a page is what follows the page. */
  lemma {:induction false} AfterCursor(ids: seq<int>, bound: int, n: nat)
    requires Ascending(ids) && 0 < n <= |After(ids, bound)|
    ensures After(ids, After(ids, bound)[n - 1]) == After(ids, bound)[n..]
  {
    var rest := After(ids, bound);
    AfterShape(ids, bound);
    AfterSuffix(ids, |ids| - |rest| + n, rest[n - 1]);
    assert ids[|ids| - |rest| + n..] == rest[n..];
  }

  lemma {:induction false} AfterSuffix(ids: seq<int>, cut: nat, bound: int)
    requires cut <= |ids| && (forall i :: 0 <= i < cut ==> ids[i] <= bound)
      && (forall i :: cut <= i < |ids| ==> ids[i] > bound)
    ensures After(ids, bound) == ids[cut..]
  {
    if cut == 0 { AfterAll(ids, bound); } else { AfterSuffix(ids[1..], cut - 1, bound); }
  }

  datatype Page = Page(processed: nat, failed: seq<int>, remaining: nat, nextCursor: Option<int>)

  /** The limit asked for, no more than the maximum and at least 1. */
  function EffectiveLimit(limit: Option<int>, max: int): (n: nat)
    ensures 1 <= n && (max >= 1 ==> n <= max)
    ensures limit.Some? && 1 <= limit.value <= max ==> n == limit.value
    ensures max >= 1 && (limit.None? || limit.value > max) ==> n == max
    ensures max < 1 || (limit.Some? && limit.value < 1) ==> n == 1
  {
    var wanted := if limit.Some? then limit.value else max;
    var capped := if wanted < max then wanted else max;
    if capped < 1 then 1 else capped
  }

  function FailuresIn(ids: seq<int>, failing: set<int>): seq<int> {
    if ids == [] then []
    else FailuresIn(ids[..|ids| - 1], failing) + (if ids[|ids| - 1] in failing then [ids[|ids| - 1]] else [])
  }

  /** The failures of a page are the SKUs of it whose recomputation throws, in order. */
  lemma {:induction false} FailuresAre(ids: seq<int>, failing: set<int>)
    requires Ascending(ids)
    ensures Ascending(FailuresIn(ids, failing))
    ensures forall id :: id in FailuresIn(ids, failing) <==> id in ids && id in failing
  {
    if ids != [] {
      var init, last := ids[..|ids| - 1], ids[|ids| - 1];
      assert ids == init + [last];
      FailuresAre(init, failing);
      var f := FailuresIn(init, failing);
      assert forall k :: 0 <= k < |init| ==> init[k] < last;
      forall k | 0 <= k < |f| ensures f[k] < last { assert f[k] in f && f[k] in init; }
    }
  }

  function PageItems(ids: seq<int>, bound: int, limit: nat): seq<int> {
    if |After(ids, bound)| <= limit then After(ids, bound) else After(ids, bound)[..limit]
  }

  lemma PageLeaves(ids: seq<int>, bound: int, limit: nat)
    requires Ascending(ids) && limit >= 1
    ensures var items := PageItems(ids, bound, limit); var left := After(ids, bound);
      && left == items + left[|items|..] && (items == [] <==> left == [])
      && (items != [] ==> After(ids, items[|items| - 1]) == left[|items|..])
      && (|items| < limit ==> left == items)
  {
    var items := PageItems(ids, bound, limit);
    if items != [] { AfterCursor(ids, bound, |items|); }
  }

  lemma {:induction false} InAfter(ids: seq<int>, bound: int, id: int)
    ensures id in After(ids, bound) <==> id in ids && id > bound
  {
    if ids != [] { InAfter(ids[1..], bound, id); }
  }

  /** A page holds ids beyond the bound in order: all of them up to its last one, and all there are if it is not
      full. */
  lemma PageHolds(ids: seq<int>, bound: int, limit: nat, id: int)
    requires Ascending(ids) && limit >= 1
    ensures var items := PageItems(ids, bound, limit);
      && (id in items ==> id in ids && id > bound)
      && (id in ids && id > bound ==> id in items || (|items| == limit && id > items[|items| - 1]))
  {
    var items, left := PageItems(ids, bound, limit), After(ids, bound);
    InAfter(ids, bound, id);
    PageLeaves(ids, bound, limit);
    AfterShape(ids, bound);
    if id in left && id !in items { InAfter(ids, items[|items| - 1], id); }
  }

  const NIGHTLY_PAGE_SIZE := 100
  const SNAPSHOT_PRUNE_CHUNK := 5000

  /** One store's engine. Its set of active SKUs may change between one query and the next: `history` holds the set each
      query sees, the last one from then on. `failing` are the SKUs whose recomputation throws, and `attempted` those
      recomputed so far, in order. */
  class StoreEngine {
    const history: seq<seq<int>>
    const failing: set<int>
    const maxSkus: int
    var queries: nat
    var attempted: seq<int>

    constructor (history: seq<seq<int>>, failing: set<int>, maxSkus: int)
      ensures this.history == history && this.failing == failing && this.maxSkus == maxSkus && queries == 0
        && attempted == []
    {
      this.history, this.failing, this.maxSkus, queries, attempted := history, failing, maxSkus, 0, [];
    }

    /** One attempt per SKU; a failure is noted and never stops the page. */
    method RecomputeAll(items: seq<int>) returns (failed: seq<int>)
      modifies this`attempted
      ensures attempted == old(attempted) + items
      ensures failed == FailuresIn(items, failing)
    {
      failed := [];
      for i := 0 to |items|
        invariant attempted == old(attempted) + items[..i]
        invariant failed == FailuresIn(items[..i], failing)
      {
        attempted := attempted + [items[i]];
        assert items[..i + 1] == items[..i] + [items[i]] && items[..i + 1][..i] == items[..i];
        if items[i] in failing { failed := failed + [items[i]]; }
      }
      assert items[..|items|] == items;
    }

    /** A page attempts the next SKUs its query sees, in id order; it counts what is left by a second query, if the page
        is full, and the cursor is absent exactly when nothing is. */
    method RecomputeStorePage(afterId: Option<int>, limit: Option<int>) returns (page: Page)
      requires Histories(history)
      modifies this
      ensures var bound := if afterId.Some? then afterId.value else 0; var n := EffectiveLimit(limit, maxSkus);
        var items := PageItems(SeenAt(history, old(queries)), bound, n);
        && attempted == old(attempted) + items && page.failed == FailuresIn(items, failing) && page.processed == |items|
        && queries == old(queries) + (if |items| < n then 1 else 2)
        && (|items| == n ==> page.remaining == |After(SeenAt(history, old(queries) + 1), items[n - 1])|)
        && (|items| < n ==> page.remaining == 0)
        && page.nextCursor == if page.remaining > 0 then Some(items[|items| - 1]) else None
    {
      var n := EffectiveLimit(limit, maxSkus);
      var bound := if afterId.Some? then afterId.value else 0;
      var items := PageItems(SeenAt(history, queries), bound, n);
      queries := queries + 1;
      var failed := RecomputeAll(items);
      var lastId := if items != [] then items[|items| - 1] else bound;
      var remaining := 0;
      if |items| >= n {
        remaining := |After(SeenAt(history, queries), lastId)|;
        queries := queries + 1;
      }
      page := Page(|items|, failed, remaining, if remaining > 0 then Some(lastId) else None);
    }

    /** The nightly loop over one store ends, whatever SKUs come and go while it runs, if they stop doing so at some
        point: the SKUs attempted strictly ascend, each was active when one of the queries was made, and every SKU that
        is active throughout is attempted, once. */
    method ReconcileStore() returns (processed: nat, failed: nat)
      requires Histories(history) && queries == 0
      modifies this
      ensures queries > 0
      ensures exists done ::
        && attempted == old(attempted) + done && Ascending(done)
        && (forall id :: id in done ==> id > 0 && EverActive(history, id, queries))
        && (forall id :: id > 0 && AlwaysActive(history, id, queries) ==> id in done)
        && processed == |done| && failed == |FailuresIn(done, failing)|
    {
      hide After, PageItems, FailuresIn, EffectiveLimit, Ascending, Histories, SeenAt, EverActive, AlwaysActive;
      processed, failed := 0, 0;
      var afterId: Option<int>, more := None, true;
      ghost var done: seq<int> := [];
      NoFailures(failing);
      NothingDone(history, queries);
      while more
        invariant attempted == old(attempted) + done
        invariant Progressed(history, done, if afterId.Some? then afterId.value else 0, more, queries)
        invariant processed == |done| && failed == |FailuresIn(done, failing)|
        invariant Histories(history) && (more || queries > 0)
        decreases more, QueriesLeft(history, queries),
          |After(SeenAt(history, queries), if afterId.Some? then afterId.value else 0)|
      {
        ghost var bound, before := if afterId.Some? then afterId.value else 0, queries;
        ghost var n := EffectiveLimit(Some(NIGHTLY_PAGE_SIZE), maxSkus);
        ghost var items := PageItems(SeenAt(history, queries), bound, n);
        AtLeastOne(Some(NIGHTLY_PAGE_SIZE), maxSkus);
        PageFits(SeenAt(history, queries), bound, n);
        var page := RecomputeStorePage(afterId, Some(NIGHTLY_PAGE_SIZE));
        FailuresAppend(done, items, failing);
        PageProgress(history, done, bound, before, n);
        LessLeft(history, bound, before, queries, n);
        done := done + items;
        processed, failed := processed + page.processed, failed + |page.failed|;
        afterId, more := page.nextCursor, page.nextCursor.Some?;
      }
      AllDone(history, done, if afterId.Some? then afterId.value else 0, queries);
    }
  }

  // ---- A set that changes between the pages ------------------------------------------------------------------

  ghost predicate Histories(history: seq<seq<int>>) {
    history != [] && forall q :: 0 <= q < |history| ==> Ascending(history[q])
  }

  function SeenAt(history: seq<seq<int>>, query: nat): seq<int> {
    if query < |history| then history[query] else if history != [] then history[|history| - 1] else []
  }

  /** Seen by one, or by each, of the first n queries. */
  ghost predicate EverActive(history: seq<seq<int>>, id: int, n: nat) {
    exists q: nat :: q < n && id in SeenAt(history, q)
  }

  ghost predicate AlwaysActive(history: seq<seq<int>>, id: int, n: nat) {
    forall q: nat :: q < n ==> id in SeenAt(history, q)
  }

  /** What has been attempted when the pages have come to a cursor, or to their end. */
  ghost predicate Progressed(history: seq<seq<int>>, done: seq<int>, bound: int, more: bool, queries: nat) {
    && Ascending(done) && (more ==> bound >= 0)
    && (forall id :: id in done ==> id > 0 && EverActive(history, id, queries) && (more ==> id <= bound))
    && (forall id :: id > 0 && AlwaysActive(history, id, queries) && (more ==> id <= bound) ==> id in done)
  }

  function QueriesLeft(history: seq<seq<int>>, queries: nat): nat {
    if queries < |history| then |history| - queries else 0
  }

  lemma AtLeastOne(limit: Option<int>, max: int)
    ensures EffectiveLimit(limit, max) >= 1
  {}

  lemma PageFits(ids: seq<int>, bound: int, n: nat)
    ensures |PageItems(ids, bound, n)| <= n
  {}

  lemma NothingDone(history: seq<seq<int>>, queries: nat)
    ensures Progressed(history, [], 0, true, queries)
  {}

  lemma SeenAscends(history: seq<seq<int>>, query: nat)
    requires Histories(history)
    ensures Ascending(SeenAt(history, query))
  {}

  /** Nothing is left behind a full page, as the query for it sees it. */
  predicate NoneLeft(history: seq<seq<int>>, query: nat, items: seq<int>) {
    items != [] && After(SeenAt(history, query + 1), items[|items| - 1]) == []
  }

  lemma Longer(history: seq<seq<int>>, id: int, n: nat, m: nat)
    requires n <= m
    ensures EverActive(history, id, n) ==> EverActive(history, id, m)
    ensures AlwaysActive(history, id, m) ==> AlwaysActive(history, id, n)
  {}

  lemma {:induction false} PageMember(history: seq<seq<int>>, done: seq<int>, bound: int, query: nat, n: nat, id: int)
    requires Histories(history) && Progressed(history, done, bound, true, query) && n >= 1
    ensures var items := PageItems(SeenAt(history, query), bound, n);
      var queries := query + if |items| < n then 1 else 2;
      && (id in done + items ==> id > 0 && EverActive(history, id, queries) && (|items| == n ==> id <= items[n - 1]))
      && (id > 0 && AlwaysActive(history, id, queries) &&
          (|items| == n ==> id <= items[n - 1] || NoneLeft(history, query, items)) ==>
            id in done + items)
  {
    hide PageItems, After, Histories, SeenAt, Ascending;
    var seen := SeenAt(history, query);
    var items := PageItems(seen, bound, n);
    SeenAscends(history, query);
    PageAscends(seen, bound, n);
    PageHolds(seen, bound, n, id);
    if |items| == n {
      PageHolds(seen, bound, n, items[n - 1]);
      InAfter(SeenAt(history, query + 1), items[n - 1], id);
    }
    var queries := query + if |items| < n then 1 else 2;
    Longer(history, id, query, queries);
    assert id in seen ==> EverActive(history, id, queries);
    assert AlwaysActive(history, id, queries) ==> id in seen && (|items| >= n ==> id in SeenAt(history, query + 1));
    if id in items { AtMostLast(items, id); }
  }

  lemma AtMostLast(items: seq<int>, id: int)
    requires Ascending(items) && id in items
    ensures id <= items[|items| - 1]
  {
    var i :| 0 <= i < |items| && items[i] == id;
  }

  lemma {:induction false} PageProgress(history: seq<seq<int>>, done: seq<int>, bound: int, query: nat, n: nat)
    requires Histories(history) && Progressed(history, done, bound, true, query) && n >= 1
    ensures var items := PageItems(SeenAt(history, query), bound, n);
      var queries := query + if |items| < n then 1 else 2;
      && (|items| == n ==> Progressed(history, done + items, items[n - 1], true, queries))
      && (|items| < n || NoneLeft(history, query, items) ==> Progressed(history, done + items, 0, false, queries))
  {
    var seen := SeenAt(history, query);
    var items := PageItems(seen, bound, n);
    SeenAscends(history, query);
    PageAscends(seen, bound, n);
    forall id { PageHolds(seen, bound, n, id); }
    AscendingAppend(done, items, bound);
    if |items| == n { PageHolds(seen, bound, n, items[n - 1]); }
    hide PageItems, Histories, SeenAt, Ascending, NoneLeft, EverActive, AlwaysActive;
    forall id { PageMember(history, done, bound, query, n, id); }
  }

  lemma PageAscends(ids: seq<int>, bound: int, n: nat)
    requires Ascending(ids)
    ensures Ascending(PageItems(ids, bound, n))
  {
    AfterShape(ids, bound);
  }

  lemma AscendingAppend(a: seq<int>, b: seq<int>, bound: int)
    requires Ascending(a) && Ascending(b)
    requires (forall id :: id in a ==> id <= bound) && (forall id :: id in b ==> id > bound)
    ensures Ascending(a + b)
  {
    assert forall i :: 0 <= i < |a| ==> a[i] in a;
    assert forall i :: 0 <= i < |b| ==> b[i] in b;
  }

  /** A full page with more to come leaves fewer queries of a set that changes, or fewer SKUs of the last one. */
  lemma LessLeft(history: seq<seq<int>>, bound: int, before: nat, queries: nat, n: nat)
    requires Histories(history) && n >= 1 && queries > before
    ensures var items := PageItems(SeenAt(history, before), bound, n);
      |items| == n ==>
        || QueriesLeft(history, queries) < QueriesLeft(history, before)
        || (QueriesLeft(history, queries) == QueriesLeft(history, before) &&
            |After(SeenAt(history, queries), items[n - 1])| < |After(SeenAt(history, before), bound)|)
  {
    SeenAscends(history, before);
    PageLeaves(SeenAt(history, before), bound, n);
  }

  lemma AllDone(history: seq<seq<int>>, done: seq<int>, bound: int, queries: nat)
    requires Progressed(history, done, bound, false, queries)
    ensures Ascending(done)
    ensures forall id :: id in done ==> id > 0 && EverActive(history, id, queries)
    ensures forall id :: id > 0 && AlwaysActive(history, id, queries) ==> id in done
  {}

  lemma SteadyActive(ids: seq<int>, id: int, n: nat)
    requires n > 0
    ensures EverActive([ids], id, n) <==> id in ids
    ensures AlwaysActive([ids], id, n) <==> id in ids
  {
    assert forall q: nat :: SeenAt([ids], q) == ids;
    assert SeenAt([ids], 0) == ids;
  }

  /** Where nothing changes, that says which SKUs are attempted: the active ones, each once, in order. */
  lemma SteadyStore(ids: seq<int>, done: seq<int>, n: nat)
    requires Ascending(ids) && Ascending(done) && n > 0
    requires forall id :: id in done ==> id > 0 && EverActive([ids], id, n)
    requires forall id :: id > 0 && AlwaysActive([ids], id, n) ==> id in done
    ensures done == After(ids, 0)
  {
    AfterShape(ids, 0);
    hide After, EverActive, AlwaysActive, Ascending;
    forall id
      ensures id in done <==> id in After(ids, 0)
    {
      InAfter(ids, 0, id);
      SteadyActive(ids, id, n);
    }
    SameMembers(done, After(ids, 0));
  }

  lemma FirstIn(a: seq<int>)
    ensures a != [] ==> a[0] in a
  {}

  lemma LaterGreater(a: seq<int>, id: int)
    requires Ascending(a) && a != []
    ensures id in a <==> id == a[0] || id in a[1..]
    ensures id in a[1..] ==> id > a[0]
    ensures Ascending(a[1..])
  {}

  lemma {:induction false} SameMembers(a: seq<int>, b: seq<int>)
    requires Ascending(a) && Ascending(b) && forall id :: id in a <==> id in b
    ensures a == b
  {
    if a == [] || b == [] {
      FirstIn(a);
      FirstIn(b);
    } else {
      LaterGreater(a, b[0]);
      LaterGreater(b, a[0]);
      assert a[0] in a && b[0] in b;
      forall id
        ensures id in a[1..] <==> id in b[1..]
      {
        LaterGreater(a, id);
        LaterGreater(b, id);
      }
      SameMembers(a[1..], b[1..]);
      assert a == [a[0]] + a[1..] && b == [b[0]] + b[1..];
    }
  }

  lemma NoFailures(failing: set<int>)
    ensures FailuresIn([], failing) == []
  {}

  lemma {:induction false} FailuresAppend(a: seq<int>, b: seq<int>, failing: set<int>)
    ensures FailuresIn(a + b, failing) == FailuresIn(a, failing) + FailuresIn(b, failing)
  {
    if b == [] {
      assert a + b == a;
    } else {
      FailuresAppend(a, b[..|b| - 1], failing);
      assert (a + b)[..|a + b| - 1] == a + b[..|b| - 1];
    }
  }

  // ---- Pruning -------------------------------------------------------------------------------------------

  function Kept(times: seq<int>, cutoff: int): seq<int> {
    if times == [] then [] else (if times[0] < cutoff then [] else [times[0]]) + Kept(times[1..], cutoff)
  }

  /** DELETE ... WHERE calculatedAt < cutoff LIMIT n. */
  function DeleteUpTo(times: seq<int>, cutoff: int, n: nat): (r: seq<int>)
    ensures |r| <= |times| && |times| - |r| <= n
    ensures Kept(r, cutoff) == Kept(times, cutoff)
    ensures |times| - |r| < n ==> r == Kept(times, cutoff)
  {
    if times == [] then []
    else if n == 0 then times
    else if times[0] < cutoff then DeleteUpTo(times[1..], cutoff, n - 1)
    else
      var r := DeleteUpTo(times[1..], cutoff, n);
      assert ([times[0]] + r)[1..] == r;
      [times[0]] + r
  }

  class SnapshotTable {
    var times: seq<int>

    constructor (times: seq<int>)
      ensures this.times == times
    {
      this.times := times;
    }

    /** Every snapshot before the cutoff goes, no other does, and the total counts them. */
    method PruneSnapshots(cutoff: int) returns (total: nat)
      modifies this
      ensures times == Kept(old(times), cutoff)
      ensures total == |old(times)| - |times|
    {
      total := 0;
      while true
        invariant Kept(times, cutoff) == Kept(old(times), cutoff)
        invariant total == |old(times)| - |times|
        decreases |times|
      {
        var rest := DeleteUpTo(times, cutoff, SNAPSHOT_PRUNE_CHUNK);
        var deleted := |times| - |rest|;
        times := rest;
        total := total + deleted;
        if deleted < SNAPSHOT_PRUNE_CHUNK { return; }
      }
    }
  }
}

/** In-process HTTP metrics: hourly buckets that are pruned to 24 hours, and the newest server errors. Times are
    milliseconds, latencies whole numbers. */
module HttpMetrics {
  const HOUR_MS := 3_600_000
  const WINDOW_HOURS := 24
  const RECENT_ERROR_LIMIT := 20

  datatype Request = Request(time: int, status: int, latency: int)

  datatype Bucket = Bucket(total: nat, serverErrors: nat, latencySum: int)

  predicate IsError(r: Request) { r.status >= 500 }

  function HourStart(t: int): int { t / HOUR_MS * HOUR_MS }

  /** The first hour that is kept. */
  function Oldest(now: int): int { HourStart(now) - (WINDOW_HOURS - 1) * HOUR_MS }

  // ---- The reference: counting over everything ever recorded ---------------------------------------------

  function Add(a: Bucket, b: Bucket): Bucket {
    Bucket(a.total + b.total, a.serverErrors + b.serverErrors, a.latencySum + b.latencySum)
  }

  function One(r: Request): Bucket { Bucket(1, if IsError(r) then 1 else 0, r.latency) }

  function Tally(log: seq<Request>, n: nat, from: int, upto: int): Bucket
    requires n <= |log|
  {
    if n == 0 then Bucket(0, 0, 0) else
    var b, r := Tally(log, n - 1, from, upto), log[n - 1];
    if from <= r.time < upto then Add(b, One(r)) else b
  }

  /** The newest k server errors, newest first. */
  function NewestErrors(log: seq<Request>, k: nat): (es: seq<Request>)
    ensures |es| <= k
  {
    if log == [] || k == 0 then []
    else if IsError(log[|log| - 1]) then [log[|log| - 1]] + NewestErrors(log[..|log| - 1], k - 1)
    else NewestErrors(log[..|log| - 1], k)
  }

  predicate InOrder(log: seq<Request>) { forall i, k :: 0 <= i < k < |log| ==> log[i].time <= log[k].time }

  lemma HourSteps(t: int)
    ensures HourStart(t) <= t < HourStart(t) + HOUR_MS && HourStart(HourStart(t)) == HourStart(t)
  {}

  lemma OldestIsAnHour(now: int)
    ensures HourStart(Oldest(now)) == Oldest(now)
  {}

  lemma NextHour(h: int)
    requires HourStart(h) == h
    ensures HourStart(h + HOUR_MS) == h + HOUR_MS
  {}

  lemma NothingMore(b: Bucket)
    ensures Add(b, Bucket(0, 0, 0)) == b
  {}

  lemma SameHour(h: int, t: int)
    requires HourStart(h) == h
    ensures HourStart(t) == h <==> h <= t < h + HOUR_MS
  {
    HourSteps(t);
  }

  lemma {:induction false} TallyPrefix(log: seq<Request>, n: nat, m: nat, from: int, upto: int)
    requires n <= m <= |log|
    ensures Tally(log[..m], n, from, upto) == Tally(log, n, from, upto)
  {
    if n > 0 { TallyPrefix(log, n - 1, m, from, upto); }
  }

  lemma TallySnoc(log: seq<Request>, r: Request, from: int, upto: int)
    ensures var b := Tally(log, |log|, from, upto);
      Tally(log + [r], |log| + 1, from, upto) == if from <= r.time < upto then Add(b, One(r)) else b
  {
    assert (log + [r])[..|log|] == log;
    TallyPrefix(log + [r], |log|, |log|, from, upto);
  }

  lemma Shuffle(a: Bucket, b: Bucket, c: Bucket)
    ensures Add(Add(a, b), c) == Add(a, Add(b, c)) == Add(Add(a, c), b)
  {}

  lemma NothingAdded()
    ensures Add(Bucket(0, 0, 0), Bucket(0, 0, 0)) == Bucket(0, 0, 0)
  {}

  lemma {:induction false} TallySplit(log: seq<Request>, n: nat, from: int, mid: int, upto: int)
    requires n <= |log| && from <= mid <= upto
    ensures Tally(log, n, from, upto) == Add(Tally(log, n, from, mid), Tally(log, n, mid, upto))
  {
    hide One, Add;
    if n > 0 {
      TallySplit(log, n - 1, from, mid, upto);
      Shuffle(Tally(log, n - 1, from, mid), Tally(log, n - 1, mid, upto), One(log[n - 1]));
    } else {
      NothingAdded();
    }
  }

  ghost function Within(log: seq<Request>, n: nat, from: int, upto: int): set<nat>
    requires n <= |log|
  {
    set i: nat | i < n && from <= log[i].time < upto
  }

  function LatencyWithin(log: seq<Request>, n: nat, from: int, upto: int): int
    requires n <= |log|
  {
    if n == 0 then 0
    else LatencyWithin(log, n - 1, from, upto) + if from <= log[n - 1].time < upto then log[n - 1].latency else 0
  }

  ghost function FailedWithin(log: seq<Request>, n: nat, from: int, upto: int): set<nat>
    requires n <= |log|
  {
    set i: nat | i < n && from <= log[i].time < upto && log[i].status >= 500
  }

  lemma OneMore(log: seq<Request>, n: nat, from: int, upto: int)
    requires 0 < n <= |log|
    ensures var r := log[n - 1]; var counts := from <= r.time < upto;
      && |Within(log, n, from, upto)| == |Within(log, n - 1, from, upto)| + (if counts then 1 else 0)
      && |FailedWithin(log, n, from, upto)| ==
           |FailedWithin(log, n - 1, from, upto)| + if counts && r.status >= 500 then 1 else 0
  {
    var counts := from <= log[n - 1].time < upto;
    assert Within(log, n, from, upto) == Within(log, n - 1, from, upto) + if counts then {n - 1} else {};
    assert FailedWithin(log, n, from, upto) ==
      FailedWithin(log, n - 1, from, upto) + if counts && log[n - 1].status >= 500 then {n - 1} else {};
  }

  /** A tally is the number of requests in a time span, the number of them answered with 500 or more, and the sum of
      their latencies. */
  lemma {:induction false} TallyIs(log: seq<Request>, n: nat, from: int, upto: int)
    requires n <= |log|
    ensures var b := Tally(log, n, from, upto);
      && b.total == |Within(log, n, from, upto)| && b.serverErrors == |FailedWithin(log, n, from, upto)|
      && b.latencySum == LatencyWithin(log, n, from, upto)
  {
    if n == 0 {
      assert Within(log, 0, from, upto) == {} && FailedWithin(log, 0, from, upto) == {};
    } else {
      TallyIs(log, n - 1, from, upto);
      OneMore(log, n, from, upto);
      hide Within, FailedWithin;
    }
  }

  /** The newest server errors are those answered with 500 or more, from the end of the log. */
  lemma {:induction false} NewestErrorsAre(log: seq<Request>, k: nat)
    ensures var es := NewestErrors(log, k);
      && (forall e :: e in es ==> e in log && e.status >= 500)
      && (|es| < k ==> forall r :: r in log && r.status >= 500 ==> r in es)
      && (log != [] && k > 0 && log[|log| - 1].status >= 500 ==> es != [] && es[0] == log[|log| - 1])
  {
    if log != [] && k > 0 {
      NewestErrorsAre(log[..|log| - 1], k - 1);
      NewestErrorsAre(log[..|log| - 1], k);
      assert log == log[..|log| - 1] + [log[|log| - 1]];
    }
  }

  predicate HoursRight(buckets: map<int, Bucket>, log: seq<Request>) {
    forall h :: h in buckets ==> HourStart(h) == h && buckets[h] == Tally(log, |log|, h, h + HOUR_MS)
  }

  predicate HoursKept(hours: set<int>, log: seq<Request>, pruned: int) {
    forall i :: 0 <= i < |log| && HourStart(log[i].time) >= pruned ==> HourStart(log[i].time) in hours
  }

  /** Adding a request to the bucket of its hour keeps every bucket the tally of its hour. */
  lemma HoursAfter(buckets: map<int, Bucket>, log: seq<Request>, r: Request)
    requires HoursRight(buckets, log) && HourStart(r.time) in buckets
    ensures HoursRight(buckets[HourStart(r.time) := Add(buckets[HourStart(r.time)], One(r))], log + [r])
  {
    hide Tally, HourStart, One, Add;
    HourSteps(r.time);
    forall h | h in buckets
      ensures Tally(log + [r], |log| + 1, h, h + HOUR_MS) == if h == HourStart(r.time) then Add(buckets[h], One(r))
        else buckets[h]
    {
      TallySnoc(log, r, h, h + HOUR_MS);
      SameHour(h, r.time);
    }
  }

  // ---- The service -----------------------------------------------------------------------------------------

  class HttpMetricsService {
    var buckets: map<int, Bucket>
    var recentErrors: seq<Request>
    /** Everything recorded so far, and how far the buckets have been pruned. */
    ghost var log: seq<Request>
    ghost var pruned: int

    /** Each bucket is the tally of its hour, every recorded hour not pruned has one, and the errors are the newest. */
    ghost predicate Valid()
      reads this
    {
      && InOrder(log)
      && HoursRight(buckets, log)
      && HoursKept(buckets.Keys, log, pruned)
      && recentErrors == NewestErrors(log, RECENT_ERROR_LIMIT)
    }

    constructor ()
      ensures Valid() && log == []
    {
      buckets, recentErrors, log, pruned := map[], [], [], 0;
    }

    method Prune(now: int)
      requires Valid() && pruned <= Oldest(now)
      modifies this`buckets, this`pruned
      ensures Valid() && pruned == Oldest(now)
      ensures buckets == map h | h in old(buckets) && h >= Oldest(now) :: old(buckets)[h]
    {
      buckets := map h | h in buckets && h >= Oldest(now) :: buckets[h];
      pruned := Oldest(now);
    }

    /** The bucket of the current hour; a new one comes with a pruning. */
    method GetBucket(now: int) returns (bucket: Bucket)
      requires Valid() && pruned <= Oldest(now)
      modifies this`buckets, this`pruned
      ensures Valid() && pruned <= Oldest(now)
      ensures HourStart(now) in buckets && bucket == buckets[HourStart(now)]
    {
      var hourStart := HourStart(now);
      HourSteps(now);
      if hourStart !in buckets {
        EmptyHour(log, |log|, hourStart, buckets.Keys, pruned);
        buckets := buckets[hourStart := Bucket(0, 0, 0)];
        Prune(now);
      }
      bucket := buckets[hourStart];
    }

    /** `now` does not run backwards. */
    method Record(status: int, latency: int, now: int)
      requires Valid() && pruned <= Oldest(now) && forall i :: 0 <= i < |log| ==> log[i].time <= now
      modifies this
      ensures Valid() && log == old(log) + [Request(now, status, latency)] && pruned <= Oldest(now)
    {
      hide HourStart, Oldest, HoursRight, NewestErrors;
      var bucket := GetBucket(now);
      var request := Request(now, status, latency);
      bucket := bucket.(total := bucket.total + 1, latencySum := bucket.latencySum + latency);
      if status >= 500 {
        bucket := bucket.(serverErrors := bucket.serverErrors + 1);
        var longer := [request] + recentErrors;
        recentErrors := if |longer| > RECENT_ERROR_LIMIT then longer[..RECENT_ERROR_LIMIT] else longer;
      }
      assert bucket == Add(buckets[HourStart(now)], One(request));
      ErrorsSnoc(log, request, RECENT_ERROR_LIMIT);
      HoursAfter(buckets, log, request);
      hide One, Add;
      buckets := buckets[HourStart(now) := bucket];
      log := log + [request];
    }

    /** What the snapshot reports is the tally of everything recorded since the oldest hour kept. */
    method Snapshot(now: int) returns (sum: Bucket, errors: seq<Request>)
      requires Valid() && pruned <= Oldest(now) && forall i :: 0 <= i < |log| ==> log[i].time <= now
      modifies this`buckets, this`pruned
      ensures Valid() && log == old(log)
      ensures sum == Tally(log, |log|, Oldest(now), Oldest(now) + WINDOW_HOURS * HOUR_MS)
      ensures errors == Recent(NewestErrors(log, RECENT_ERROR_LIMIT), now - WINDOW_HOURS * HOUR_MS)
    {
      Prune(now);
      sum := SumBuckets(now);
      errors := Recent(recentErrors, now - WINDOW_HOURS * HOUR_MS);
    }

    /** Adds the buckets up, hour by hour. */
    method SumBuckets(now: int) returns (sum: Bucket)
      requires Valid() && pruned == Oldest(now) && forall i :: 0 <= i < |log| ==> log[i].time <= now
      ensures sum == Tally(log, |log|, Oldest(now), Oldest(now) + WINDOW_HOURS * HOUR_MS)
    {
      sum := Bucket(0, 0, 0);
      var h := Oldest(now);
      TallyEmpty(log, |log|, h);
      OldestIsAnHour(now);
      hide HourStart, Tally, Add, Oldest;
      for i := 0 to WINDOW_HOURS
        invariant h == Oldest(now) + i * HOUR_MS && HourStart(h) == h
        invariant sum == Tally(log, |log|, Oldest(now), h)
      {
        TallySplit(log, |log|, Oldest(now), h, h + HOUR_MS);
        NextHour(h);
        NothingMore(sum);
        if h in buckets {
          sum := Add(sum, buckets[h]);
        } else {
          EmptyHour(log, |log|, h, buckets.Keys, pruned);
        }
        h := h + HOUR_MS;
      }
    }
  }

  lemma {:induction false} TallyEmpty(log: seq<Request>, n: nat, t: int)
    requires n <= |log|
    ensures Tally(log, n, t, t) == Bucket(0, 0, 0)
  {
    if n > 0 { TallyEmpty(log, n - 1, t); }
  }

  /** An hour without a bucket, not pruned, has no requests. */
  lemma {:induction false} EmptyHour(log: seq<Request>, n: nat, h: int, hours: set<int>, pruned: int)
    requires n <= |log| && HourStart(h) == h && h >= pruned && h !in hours
    requires HoursKept(hours, log, pruned)
    ensures Tally(log, n, h, h + HOUR_MS) == Bucket(0, 0, 0)
  {
    if n > 0 {
      EmptyHour(log, n - 1, h, hours, pruned);
      SameHour(h, log[n - 1].time);
    }
  }

  lemma {:induction false} ErrorsPrefix(log: seq<Request>, k: nat, m: nat)
    requires m <= k
    ensures NewestErrors(log, m) == if |NewestErrors(log, k)| <= m then NewestErrors(log, k)
      else NewestErrors(log, k)[..m]
  {
    if log != [] && m > 0 {
      var init := log[..|log| - 1];
      if IsError(log[|log| - 1]) {
        ErrorsPrefix(init, k - 1, m - 1);
      } else {
        ErrorsPrefix(init, k, m);
      }
    }
  }

  lemma ErrorsUnfold(log: seq<Request>, r: Request, k: nat)
    requires k > 0
    ensures NewestErrors(log + [r], k) == if IsError(r) then [r] + NewestErrors(log, k - 1) else NewestErrors(log, k)
  {
    assert (log + [r])[..|log|] == log;
  }

  lemma ErrorsSnoc(log: seq<Request>, r: Request, k: nat)
    requires k > 0
    ensures NewestErrors(log + [r], k)
      == if !IsError(r) then NewestErrors(log, k)
         else var longer := [r] + NewestErrors(log, k); if |longer| > k then longer[..k] else longer
  {
    hide NewestErrors, IsError;
    ErrorsUnfold(log, r, k);
    ErrorsPrefix(log, k, k - 1);
    AtMost(log, k);
    var es := NewestErrors(log, k);
    assert |es| == k ==> ([r] + es)[..k] == [r] + es[..k - 1];
  }

  lemma AtMost(log: seq<Request>, k: nat)
    ensures |NewestErrors(log, k)| <= k
  {}

  function Recent(errors: seq<Request>, since: int): seq<Request> {
    if errors == [] then [] else (if errors[0].time > since then [errors[0]] else []) + Recent(errors[1..], since)
  }

  /** The errors reported are those kept that are younger than the window, in the same order. */
  lemma {:induction false} RecentAre(errors: seq<Request>, since: int) returns (n: nat)
    requires forall i, k :: 0 <= i < k < |errors| ==> errors[k].time <= errors[i].time
    ensures n <= |errors| && Recent(errors, since) == errors[..n]
    ensures forall i :: 0 <= i < |errors| ==> (errors[i].time > since <==> i < n)
  {
    if errors == [] {
      n := 0;
    } else {
      var rest := errors[1..];
      var m := RecentAre(rest, since);
      assert forall i :: 0 < i < |errors| ==> errors[i] == rest[i - 1];
      n := if errors[0].time > since then m + 1 else 0;
      if errors[0].time <= since && rest != [] { assert rest[0].time <= since; }
      assert errors[..n] == if n > 0 then [errors[0]] + rest[..n - 1] else [];
    }
  }

  // ---- The reported window -----------------------------------------------------------------------------------

  function Between(log: seq<Request>, n: nat, from: int, upto: int): nat
    requires n <= |log|
  {
    if n == 0 then 0 else Between(log, n - 1, from, upto) + (if from <= log[n - 1].time < upto then 1 else 0)
  }

  lemma {:induction false} BetweenIsTally(log: seq<Request>, n: nat, from: int, upto: int)
    requires n <= |log|
    ensures Between(log, n, from, upto) == Tally(log, n, from, upto).total
  {
    if n > 0 { BetweenIsTally(log, n - 1, from, upto); }
  }

  /** The snapshot is labelled as covering 24 hours back from now. It counts all of them exactly when nothing was
      recorded in the part of that span that lies before the oldest hour kept, which is up to an hour long. */
  lemma LabelledWindowIff(log: seq<Request>, now: int)
    requires forall i :: 0 <= i < |log| ==> log[i].time <= now
    ensures var since, oldest, end := now - WINDOW_HOURS * HOUR_MS, Oldest(now), Oldest(now) + WINDOW_HOURS * HOUR_MS;
      && since < oldest <= since + HOUR_MS && now < end
      && (Tally(log, |log|, oldest, end).total == Between(log, |log|, since, end) <==>
        Between(log, |log|, since, oldest) == 0)
  {
    HourSteps(now);
    var since, oldest, end := now - WINDOW_HOURS * HOUR_MS, Oldest(now), Oldest(now) + WINDOW_HOURS * HOUR_MS;
    TallySplit(log, |log|, since, oldest, end);
    BetweenIsTally(log, |log|, since, oldest);
    BetweenIsTally(log, |log|, since, end);
  }
}

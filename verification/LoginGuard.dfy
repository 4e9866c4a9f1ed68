/** Login lockout: failures in the audit log, counted over a sliding window since the last reset. Times are
    milliseconds; the log holds the rows of one account in the order they were written. */
module LoginGuard {
  import opened Options

  datatype Action = Failed | Blocked | Cleared | Succeeded

  datatype Entry = Entry(action: Action, time: int)

  datatype Settings = Settings(maxAttempts: int, windowMinutes: int)

  datatype LockState = LockState(locked: bool, failures: nat, retryAfterMinutes: int)

  const MINUTE := 60_000

  function Window(s: Settings): int { s.windowMinutes * MINUTE }

  predicate InOrder(log: seq<Entry>) { forall i, k :: 0 <= i < k < |log| ==> log[i].time <= log[k].time }

  predicate Resets(e: Entry) { e.action == Cleared || e.action == Succeeded }

  // ---- The queries ---------------------------------------------------------------------------------------

  /** findFirst of an action not before `since`, newest first. */
  function Latest(log: seq<Entry>, action: Action, since: int): Option<int> {
    if log == [] then None
    else
      var last := log[|log| - 1];
      var before := Latest(log[..|log| - 1], action, since);
      if last.action == action && last.time >= since
        && (before.None? || before.value <= last.time) then Some(last.time) else before
  }

  /** Failures later than `since`, newest first, at most n of them. */
  function Newest(log: seq<Entry>, since: int, n: nat): (r: seq<int>)
    ensures |r| <= n && forall i :: 0 <= i < |r| ==> r[i] > since
  {
    if log == [] || n == 0 then []
    else
      var last := log[|log| - 1];
      if last.action == Failed && last.time > since then [last.time] + Newest(log[..|log| - 1], since, n - 1)
      else Newest(log[..|log| - 1], since, n)
  }

  function Since(log: seq<Entry>, start: int): int {
    var cleared, succeeded := Latest(log, Cleared, start), Latest(log, Succeeded, start);
    var a := if cleared.Some? && cleared.value > start then cleared.value else start;
    if succeeded.Some? && succeeded.value > a then succeeded.value else a
  }

  function CeilMinutes(ms: int): int { (ms + MINUTE - 1) / MINUTE }

  method GetLockState(log: seq<Entry>, settings: Settings, now: int) returns (state: LockState)
    ensures state == Lock(log, settings, now)
  {
    if settings.maxAttempts <= 0 { return LockState(false, 0, 0); }
    var since := now - Window(settings);
    var resets := [Latest(log, Cleared, since), Latest(log, Succeeded, since)];
    ghost var start := since;
    for i := 0 to |resets|
      invariant i == 0 ==> since == start
      invariant i == 1 ==> since == if resets[0].Some? && resets[0].value > start then resets[0].value else start
      invariant i == 2 ==> since == Since(log, start)
    {
      var reset := resets[i];
      if reset.Some? && reset.value > since { since := reset.value; }
    }
    var failures := Newest(log, since, settings.maxAttempts);
    if |failures| < settings.maxAttempts { return LockState(false, |failures|, 0); }
    var oldest := failures[|failures| - 1];
    var remainingMs := oldest + Window(settings) - now;
    var minutes := CeilMinutes(remainingMs);
    state := LockState(remainingMs > 0, |failures|, if minutes > 1 then minutes else 1);
  }

  function Lock(log: seq<Entry>, settings: Settings, now: int): LockState {
    if settings.maxAttempts <= 0 then LockState(false, 0, 0) else
    var failures := Newest(log, Since(log, now - Window(settings)), settings.maxAttempts);
    if |failures| < settings.maxAttempts then LockState(false, |failures|, 0) else
    var remainingMs := failures[|failures| - 1] + Window(settings) - now;
    LockState(remainingMs > 0, |failures|, if CeilMinutes(remainingMs) > 1 then CeilMinutes(remainingMs) else 1)
  }

  // ---- The simple count --------------------------------------------------------------------------------------

  /** Failures inside the window and later than every reset of the log, however old. */
  predicate Counts(log: seq<Entry>, window: int, now: int, e: Entry) {
    e.action == Failed && e.time > now - window && forall k :: 0 <= k < |log| && Resets(log[k]) ==> log[k].time < e.time
  }

  function Count(log: seq<Entry>, n: nat, window: int, now: int): nat
    requires n <= |log|
  {
    if n == 0 then 0 else Count(log, n - 1, window, now) + (if Counts(log, window, now, log[n - 1]) then 1 else 0)
  }

  lemma {:induction false} LatestIsLatest(log: seq<Entry>, action: Action, since: int)
    ensures var r := Latest(log, action, since);
      && (r.Some? ==> r.value >= since && exists k ::
        0 <= k < |log| && log[k].action == action && log[k].time == r.value)
      && forall k :: 0 <= k < |log| && log[k].action == action && log[k].time >= since ==>
        r.Some? && log[k].time <= r.value
  {
    if log != [] {
      var init := log[..|log| - 1];
      LatestIsLatest(init, action, since);
      var r := Latest(log, action, since);
      assert forall k :: 0 <= k < |init| ==> init[k] == log[k];
      if r.Some? && r != Latest(init, action, since) {
        assert log[|log| - 1].action == action && log[|log| - 1].time == r.value;
      }
    }
  }

  /** The start of counting is the later of the window's start and the last reset. */
  lemma SinceIsLast(log: seq<Entry>, start: int)
    ensures var since := Since(log, start);
      && since >= start
      && (forall k :: 0 <= k < |log| && Resets(log[k]) ==> log[k].time <= since)
      && (since == start || exists k :: 0 <= k < |log| && Resets(log[k]) && log[k].time == since)
  {
    LatestIsLatest(log, Cleared, start);
    LatestIsLatest(log, Succeeded, start);
    var since := Since(log, start);
    forall k | 0 <= k < |log| && Resets(log[k])
      ensures log[k].time <= since
    {
      if log[k].time >= start { assert log[k].action == Cleared || log[k].action == Succeeded; }
    }
    if since != start {
      var k :| 0 <= k < |log| && (log[k].action == Cleared || log[k].action == Succeeded) && log[k].time == since;
      assert Resets(log[k]);
    }
  }

  lemma CountsIff(log: seq<Entry>, window: int, now: int, e: Entry)
    ensures Counts(log, window, now, e) <==> e.action == Failed && e.time > Since(log, now - window)
  {
    SinceIsLast(log, now - window);
    var since := Since(log, now - window);
    if e.action == Failed && e.time > now - window && e.time <= since && since != now - window {
      var k :| 0 <= k < |log| && Resets(log[k]) && log[k].time == since;
    }
  }

  function Later(log: seq<Entry>, n: nat, since: int): nat
    requires n <= |log|
  {
    if n == 0 then 0
    else (if log[n - 1].action == Failed && log[n - 1].time > since then 1 else 0) + Later(log, n - 1, since)
  }

  lemma {:induction false} CountIsLater(log: seq<Entry>, n: nat, window: int, now: int)
    requires n <= |log|
    ensures Count(log, n, window, now) == Later(log, n, Since(log, now - window))
  {
    hide Counts, Since;
    if n > 0 {
      CountIsLater(log, n - 1, window, now);
      CountsIff(log, window, now, log[n - 1]);
    }
  }

  lemma {:induction false} LaterPrefix(log: seq<Entry>, n: nat, m: nat, since: int)
    requires n <= m <= |log|
    ensures Later(log[..m], n, since) == Later(log, n, since)
  {
    if n > 0 { LaterPrefix(log, n - 1, m, since); }
  }

  lemma {:induction false} NewestCount(log: seq<Entry>, since: int, n: nat)
    ensures |Newest(log, since, n)| == if Later(log, |log|, since) < n then Later(log, |log|, since) else n
  {
    if log != [] {
      LaterPrefix(log, |log| - 1, |log| - 1, since);
      if n > 0 {
        NewestCount(log[..|log| - 1], since, n - 1);
        NewestCount(log[..|log| - 1], since, n);
      }
    }
  }

  /** An account is locked if and only if at least maxAttempts failures since the last reset fall inside the window;
      the failures reported are that number, up to maxAttempts. */
  lemma LockedIff(log: seq<Entry>, settings: Settings, now: int)
    requires settings.maxAttempts > 0
    ensures var state := Lock(log, settings, now); var count := Count(log, |log|, Window(settings), now);
      && (state.locked <==> count >= settings.maxAttempts)
      && state.failures == if count < settings.maxAttempts then count else settings.maxAttempts
  {
    hide Count, Since, Counts;
    CountIsLater(log, |log|, Window(settings), now);
    NewestCount(log, Since(log, now - Window(settings)), settings.maxAttempts);
    SinceIsLast(log, now - Window(settings));
  }

  // ---- Unlocking -----------------------------------------------------------------------------------------------

  lemma {:induction false} LaterMonotone(log: seq<Entry>, n: nat, a: int, b: int)
    requires n <= |log| && a <= b
    ensures Later(log, n, b) <= Later(log, n, a)
  {
    if n > 0 { LaterMonotone(log, n - 1, a, b); }
  }

  lemma {:induction false} NoneLater(log: seq<Entry>, n: nat, since: int)
    requires n <= |log| && forall k :: 0 <= k < n ==> log[k].time <= since
    ensures Later(log, n, since) == 0
  {
    if n > 0 { NoneLater(log, n - 1, since); }
  }

  /** The n-th newest failure is the one at which the count of later failures passes n. */
  lemma {:induction false} OldestOfNewest(log: seq<Entry>, since: int, n: nat, x: int)
    requires InOrder(log) && n > 0 && |Newest(log, since, n)| == n
    ensures var oldest := Newest(log, since, n)[n - 1];
      && (exists k :: 0 <= k < |log| && log[k].time == oldest)
      && (Later(log, |log|, x) >= n <==> x < oldest)
  {
    var init, last := log[..|log| - 1], log[|log| - 1];
    assert forall k :: 0 <= k < |init| ==> init[k] == log[k];
    LaterPrefix(log, |init|, |init|, x);
    if last.action == Failed && last.time > since {
      if n > 1 {
        OldestOfNewest(init, since, n - 1, x);
      } else if x >= last.time {
        NoneLater(log, |log|, x);
      }
    } else {
      OldestOfNewest(init, since, n, x);
      var oldest := Newest(log, since, n)[n - 1];
      var k :| 0 <= k < |init| && init[k].time == oldest;
      if x < oldest { assert Later(log, |log|, x) >= Later(init, |init|, x); }
      else { OldestStaysBehind(log, since, n, x); }
    }
  }

  lemma OldestStaysBehind(log: seq<Entry>, since: int, n: nat, x: int)
    requires log != [] && !(log[|log| - 1].action == Failed && log[|log| - 1].time > since)
    requires n > 0 && |Newest(log, since, n)| == n && x >= Newest(log, since, n)[n - 1]
    ensures Later(log, |log|, x) == Later(log, |log| - 1, x)
  {}

  /** A locked account unlocks exactly when the oldest of the newest maxAttempts failures leaves the window. */
  lemma UnlocksExactlyWhen(log: seq<Entry>, settings: Settings, now: int, later: int)
    requires InOrder(log) && settings.maxAttempts > 0 && now <= later && Lock(log, settings, now).locked
    ensures |Newest(log, Since(log, now - Window(settings)), settings.maxAttempts)| == settings.maxAttempts
    ensures var oldest := Newest(log, Since(log, now - Window(settings)),
      settings.maxAttempts)[settings.maxAttempts - 1];
      Lock(log, settings, later).locked <==> later < oldest + Window(settings)
  {
    hide Since, Count, Counts, Later;
    var n := settings.maxAttempts;
    var since, since' := Since(log, now - Window(settings)), Since(log, later - Window(settings));
    var oldest := Newest(log, since, n)[n - 1];
    OldestOfNewest(log, since, n, since');
    SinceIsLast(log, now - Window(settings));
    SinceIsLast(log, later - Window(settings));
    CountIsLater(log, |log|, Window(settings), later);
    LockedIff(log, settings, later);
    assert since' < oldest <==> later - Window(settings) < oldest by {
      if since' != later - Window(settings) {
        var k :| 0 <= k < |log| && Resets(log[k]) && log[k].time == since';
      }
    }
  }

  /** A locked account is told the minutes until the oldest of the newest maxAttempts failures leaves the window,
      rounded up and at least 1; an account that is not locked is told nothing, and how many failures count. */
  lemma RetryAfterIs(log: seq<Entry>, settings: Settings, now: int)
    ensures var state := Lock(log, settings, now);
      var most := if settings.maxAttempts > 0 then settings.maxAttempts else 0;
      var failures := Newest(log, Since(log, now - Window(settings)), most);
      && (settings.maxAttempts <= 0 ==> state == LockState(locked := false, failures := 0, retryAfterMinutes := 0))
      && state.failures == |failures|
      && (state.failures < settings.maxAttempts ==> !state.locked && state.retryAfterMinutes == 0)
      && (settings.maxAttempts > 0 && state.failures == settings.maxAttempts ==>
            var remaining := failures[settings.maxAttempts - 1] + settings.windowMinutes * 60_000 - now;
            && (state.locked <==> remaining > 0)
            && (state.locked ==>
                  60_000 * (state.retryAfterMinutes - 1) < remaining <= 60_000 * state.retryAfterMinutes))
  {
    hide Newest, Since;
    if settings.maxAttempts > 0 {
      var failures := Newest(log, Since(log, now - Window(settings)), settings.maxAttempts);
      AtMostNewest(log, Since(log, now - Window(settings)), settings.maxAttempts);
      if |failures| == settings.maxAttempts {
        MinutesUp(failures[settings.maxAttempts - 1] + Window(settings) - now);
      }
    } else {
      AtMostNewest(log, Since(log, now - Window(settings)), 0);
    }
  }

  lemma AtMostNewest(log: seq<Entry>, since: int, n: nat)
    ensures |Newest(log, since, n)| <= n
  {}

  lemma MinutesUp(ms: int)
    ensures 60_000 * (CeilMinutes(ms) - 1) < ms <= 60_000 * CeilMinutes(ms)
  {
    var q := (ms + MINUTE - 1) / MINUTE;
    assert q * MINUTE <= ms + MINUTE - 1 < q * MINUTE + MINUTE;
  }

  // ---- Attempts ------------------------------------------------------------------------------------------------

  /** A rejected attempt is written down but never counted: it extends no lock. */
  lemma BlockedNeverExtends(log: seq<Entry>, settings: Settings, time: int, now: int)
    ensures Lock(log + [Entry(Blocked, time)], settings, now) == Lock(log, settings, now)
  {
    var longer := log + [Entry(Blocked, time)];
    assert longer[..|longer| - 1] == log;
    assert Latest(longer, Cleared, now - Window(settings)) == Latest(log, Cleared, now - Window(settings));
    assert Latest(longer, Succeeded, now - Window(settings)) == Latest(log, Succeeded, now - Window(settings));
    if settings.maxAttempts > 0 {
      assert Newest(longer, Since(log, now - Window(settings)), settings.maxAttempts)
        == Newest(log, Since(log, now - Window(settings)), settings.maxAttempts);
    }
  }

  /** One login attempt after another: checked first, then answered. */
  datatype Attempt = Attempt(time: int, correct: bool)

  function AfterAttempt(log: seq<Entry>, settings: Settings, a: Attempt): seq<Entry> {
    log + [Entry(if Lock(log, settings, a.time).locked then Blocked else if a.correct then Succeeded
      else Failed, a.time)]
  }

  function AfterAttempts(settings: Settings, attempts: seq<Attempt>): (log: seq<Entry>)
    ensures |log| == |attempts| && forall i :: 0 <= i < |log| ==> log[i].time == attempts[i].time
  {
    if attempts == [] then []
    else AfterAttempt(AfterAttempts(settings, attempts[..|attempts| - 1]), settings, attempts[|attempts| - 1])
  }

  /** Exactly one row is written for an attempt: blocked while the account is locked, whatever the password, and else by
      the password. */
  lemma AttemptIs(log: seq<Entry>, settings: Settings, a: Attempt)
    ensures var longer, locked := AfterAttempt(log, settings, a), Lock(log, settings, a.time).locked;
      && |longer| == |log| + 1 && longer[..|log|] == log && longer[|log|].time == a.time
      && (longer[|log|].action == Blocked <==> locked)
      && (longer[|log|].action == Succeeded <==> !locked && a.correct)
      && (longer[|log|].action == Failed <==> !locked && !a.correct)
  {
    hide Lock;
  }

  lemma {:induction false} AtMostAll(log: seq<Entry>, n: nat, window: int, now: int)
    requires n <= |log|
    ensures Count(log, n, window, now) <= n
    ensures (forall i :: 0 <= i < n ==> Counts(log, window, now, log[i])) ==> Count(log, n, window, now) == n
  {
    hide Counts;
    if n > 0 { AtMostAll(log, n - 1, window, now); }
  }

  /** The first maxAttempts wrong passwords are all answered as such. */
  lemma {:induction false} AllFailed(settings: Settings, attempts: seq<Attempt>)
    requires |attempts| <= settings.maxAttempts && forall i :: 0 <= i < |attempts| ==> !attempts[i].correct
    ensures forall i :: 0 <= i < |attempts| ==> AfterAttempts(settings, attempts)[i].action == Failed
  {
    hide Lock, Count;
    if attempts != [] {
      var n := |attempts| - 1;
      var init := attempts[..n];
      assert forall i :: 0 <= i < n ==> init[i] == attempts[i];
      AllFailed(settings, init);
      var log := AfterAttempts(settings, init);
      LockedIff(log, settings, attempts[n].time);
      AtMostAll(log, n, Window(settings), attempts[n].time);
      AttemptIs(log, settings, attempts[n]);
    }
  }

  /** And after them every attempt is blocked, the right password included, until the first of them leaves the
      window. */
  lemma FailuresLock(settings: Settings, attempts: seq<Attempt>, a: Attempt)
    requires settings.maxAttempts > 0 && |attempts| == settings.maxAttempts
    requires forall i :: 0 <= i < |attempts| ==> !attempts[i].correct && a.time - Window(settings) < attempts[i].time
    ensures AfterAttempts(settings, attempts + [a])[|attempts|] == Entry(Blocked, a.time)
  {
    hide Lock, Count;
    AllFailed(settings, attempts);
    var log := AfterAttempts(settings, attempts);
    LockedIff(log, settings, a.time);
    AtMostAll(log, |log|, Window(settings), a.time);
    assert forall i :: 0 <= i < |log| ==> Counts(log, Window(settings), a.time, log[i]);
    AttemptIs(log, settings, a);
    assert (attempts + [a])[..|attempts|] == attempts;
  }

  /** Failures with a time stamp after `from` and up to `to`. */
  function Between(log: seq<Entry>, n: nat, from: int, upto: int): nat
    requires n <= |log|
  {
    if n == 0 then 0
    else
      (if log[n - 1].action == Failed && from < log[n - 1].time <= upto then 1 else 0) + Between(log, n - 1, from, upto)
  }

  lemma {:induction false} BetweenLater(log: seq<Entry>, n: nat, from: int, upto: int, since: int)
    requires n <= |log| && since <= from
    ensures Between(log, n, from, upto) <= Later(log, n, since)
  {
    if n > 0 { BetweenLater(log, n - 1, from, upto, since); }
  }

  lemma {:induction false} BetweenPrefix(log: seq<Entry>, n: nat, m: nat, from: int, upto: int)
    requires n <= m <= |log|
    ensures Between(log[..m], n, from, upto) == Between(log, n, from, upto)
  {
    if n > 0 { BetweenPrefix(log, n - 1, m, from, upto); }
  }

  predicate NoResets(log: seq<Entry>) { forall k :: 0 <= k < |log| ==> !Resets(log[k]) }

  lemma NoResetsSince(log: seq<Entry>, start: int)
    requires NoResets(log)
    ensures Since(log, start) == start
  {
    SinceIsLast(log, start);
  }

  /** In a run of attempts one after another, with fixed settings and no reset, no window of the configured length,
      wherever it lies, holds more than maxAttempts failures. */
  lemma {:induction false} NoWindowOverfull(settings: Settings, attempts: seq<Attempt>, upto: int)
    requires settings.maxAttempts > 0 && settings.windowMinutes >= 0
    requires forall i, k :: 0 <= i < k < |attempts| ==> attempts[i].time <= attempts[k].time
    requires NoResets(AfterAttempts(settings, attempts))
    ensures var log := AfterAttempts(settings, attempts);
      Between(log, |log|, upto - Window(settings), upto) <= settings.maxAttempts
  {
    hide Lock, Since, Counts, Count;
    if attempts != [] {
      var n := |attempts| - 1;
      var log := AfterAttempts(settings, attempts);
      var before := AfterAttempts(settings, attempts[..n]);
      var t := attempts[n].time;
      assert log[..n] == before;
      assert forall k :: 0 <= k < n ==> before[k] == log[k];
      BetweenPrefix(log, n, n, upto - Window(settings), upto);
      NoWindowOverfull(settings, attempts[..n], upto);
      if log[n].action == Failed && upto - Window(settings) < t <= upto {
        LockedIff(before, settings, t);
        CountIsLater(before, n, Window(settings), t);
        NoResetsSince(before, t - Window(settings));
        BetweenLater(before, n, upto - Window(settings), upto, t - Window(settings));
      }
    }
  }
}

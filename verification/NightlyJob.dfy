/** The expiring database lease and the nightly reconciliation that runs under it, on any number of instances that
    share a clock. A step is one statement or one reading of the clock; a business date is its day number. */
module NightlyJob {
  import opened Options
  import BusinessDate
  import BusinessCalendar

  const NIGHTLY_LEASE_TTL_MS := 7_200_000
  const MS_PER_HOUR := 3_600_000

  datatype Lease = Lease(token: nat, expiresAt: int)

  /** How far an instance is with runNightly. */
  datatype Phase =
    | Called(date: int)
    | Checked(date: int)
    | Stamped(date: int, token: nat, now: int)
    | Inserted(date: int, token: nat, expiresAt: int)
    | Holding(date: int, token: nat, expiresAt: int)
    | Working(date: int, token: nat, expiresAt: int)
    | Leaving(token: nat)

  /** The time zone and the local hour in which the scheduler calls the job. */
  datatype Zone = Zone(offset: int, nightlyHour: int)

  /** `completed` is history: the dates completed. */
  datatype State = State(zone: Zone, time: int, lease: Option<Lease>, lastRun: Option<int>,
      workers: map<int, Phase>, nextToken: nat, completed: seq<int>)

  datatype Event =
    | Tick(to: int)
    | Call(w: int)
    | Check(w: int)
    | Stamp(w: int)
    | Insert(w: int)
    | Confirm(w: int)
    | Recheck(w: int)
    | Complete(w: int)
    | Fail(w: int)
    | Release(w: int)
    | Crash(w: int)

  function Today(s: State): int { BusinessCalendar.LocalDay(s.time, s.zone.offset) }

  function LocalHour(t: int, offset: int): int { (t + offset) % BusinessDate.MS_PER_DAY / MS_PER_HOUR }

  /** Insert, or take over only if expired. */
  function Upserted(lease: Option<Lease>, token: nat, now: int, ttl: int): Option<Lease> {
    if lease.None? || lease.value.expiresAt < now then Some(Lease(token, now + ttl)) else lease
  }

  function Deleted(lease: Option<Lease>, token: nat): Option<Lease> {
    if lease.Some? && lease.value.token == token then None else lease
  }

  function At(s: State, w: int, phase: Phase): State { s.(workers := s.workers[w := phase]) }

  function Gone(s: State, w: int): State { s.(workers := s.workers - {w}) }

  /** The scheduler's tick: in the nightly hour, and not while the process is still running the job. */
  function CallStep(s: State, w: int): State {
    if w in s.workers || LocalHour(s.time, s.zone.offset) != s.zone.nightlyHour then s else At(s, w, Called(Today(s)))
  }

  function CheckStep(s: State, w: int): State {
    if w in s.workers && s.workers[w].Called? then
      if s.lastRun == Some(s.workers[w].date) then Gone(s, w) else At(s, w, Checked(s.workers[w].date))
    else s
  }

  function StampStep(s: State, w: int): State {
    if w in s.workers && s.workers[w].Checked?
    then At(s, w, Stamped(s.workers[w].date, s.nextToken, s.time)).(nextToken := s.nextToken + 1) else s
  }

  function InsertStep(s: State, w: int): State {
    if w in s.workers && s.workers[w].Stamped? then
      var p := s.workers[w];
      At(s, w, Inserted(p.date, p.token, p.now + NIGHTLY_LEASE_TTL_MS)).(lease := Upserted(s.lease, p.token, p.now,
        NIGHTLY_LEASE_TTL_MS))
    else s
  }

  function ConfirmStep(s: State, w: int): State {
    if w in s.workers && s.workers[w].Inserted? then
      var p := s.workers[w];
      if s.lease.Some? && s.lease.value.token == p.token then At(s, w, Holding(p.date, p.token, p.expiresAt))
        else Gone(s, w)
    else s
  }

  function RecheckStep(s: State, w: int): State {
    if w in s.workers && s.workers[w].Holding? then
      var p := s.workers[w];
      At(s, w, if s.lastRun == Some(p.date) then Leaving(p.token) else Working(p.date, p.token, p.expiresAt))
    else s
  }

  function CompleteStep(s: State, w: int): State {
    if w in s.workers && s.workers[w].Working? then
      var p := s.workers[w];
      At(s, w, Leaving(p.token)).(lastRun := Some(p.date), completed := s.completed + [p.date])
    else s
  }

  function FailStep(s: State, w: int): State {
    if w in s.workers && (s.workers[w].Holding? || s.workers[w].Working?) then At(s, w, Leaving(s.workers[w].token))
      else s
  }

  function ReleaseStep(s: State, w: int): State {
    if w in s.workers && s.workers[w].Leaving? then Gone(s, w).(lease := Deleted(s.lease, s.workers[w].token)) else s
  }

  function Step(s: State, e: Event): State {
    match e
    case Tick(to) => if to >= s.time then s.(time := to) else s
    case Call(w) => CallStep(s, w)
    case Check(w) => CheckStep(s, w)
    case Stamp(w) => StampStep(s, w)
    case Insert(w) => InsertStep(s, w)
    case Confirm(w) => ConfirmStep(s, w)
    case Recheck(w) => RecheckStep(s, w)
    case Complete(w) => CompleteStep(s, w)
    case Fail(w) => FailStep(s, w)
    case Release(w) => ReleaseStep(s, w)
    case Crash(w) => Gone(s, w)
  }

  function Run(s: State, events: seq<Event>): State {
    if events == [] then s else Step(Run(s, events[..|events| - 1]), events[|events| - 1])
  }

  function Initial(zone: Zone, time: int): State { State(zone, time, None, None, map[], 0, []) }

  // ---- The invariant -----------------------------------------------------------------------------------

  predicate InSection(p: Phase) { p.Holding? || p.Working? }

  predicate WithinTtl(s: State, p: Phase) { InSection(p) && s.time <= p.expiresAt }

  predicate HasToken(p: Phase) { !p.Called? && !p.Checked? }

  predicate Tokens(s: State) {
    && (forall w :: w in s.workers && HasToken(s.workers[w]) ==> s.workers[w].token < s.nextToken)
    && (forall v, w :: v in s.workers && w in s.workers && v != w && HasToken(s.workers[v]) && HasToken(s.workers[w])
          ==> s.workers[v].token != s.workers[w].token)
    && (s.lease.Some? ==> s.lease.value.token < s.nextToken)
  }

  /** An instance inside its TTL owns the row; one that has just written knows its expiry. */
  predicate Owns(s: State, p: Phase) {
    && (WithinTtl(s, p) ==> s.lease == Some(Lease(p.token, p.expiresAt)))
    && (p.Inserted? && s.lease.Some? && s.lease.value.token == p.token ==> s.lease.value.expiresAt == p.expiresAt)
    && (p.Stamped? ==> p.now <= s.time && (s.lease.Some? ==> s.lease.value.token != p.token))
  }

  predicate LastOf(s: State) { s.lastRun == if s.completed == [] then None else Some(s.completed[|s.completed| - 1]) }

  predicate Inv(s: State) { Tokens(s) && (forall w :: w in s.workers ==> Owns(s, s.workers[w])) && LastOf(s) }

  lemma TokensStep(s: State, e: Event)
    requires Tokens(s)
    ensures Tokens(Step(s, e))
  {
    hide Today, LocalHour;
    if e.Stamp? || e.Insert? || e.Release? {
    } else {
      hide Upserted, Deleted, StampStep, InsertStep, ReleaseStep;
    }
  }

  lemma OwnsStep(s: State, e: Event, w: int)
    requires Inv(s) && w in Step(s, e).workers
    ensures Owns(Step(s, e), Step(s, e).workers[w])
  {
    hide Today, LocalHour;
    if w in s.workers { assert Owns(s, s.workers[w]); }
    if !e.Tick? && w == e.w {
      hide LastOf;
    } else if e.Insert? || e.Release? {
    } else {
      hide Tokens, LastOf, Upserted, Deleted, InsertStep, ReleaseStep;
    }
  }

  lemma LastStep(s: State, e: Event)
    requires LastOf(s)
    ensures LastOf(Step(s, e))
  {}

  lemma StepInv(s: State, e: Event)
    requires Inv(s)
    ensures Inv(Step(s, e))
  {
    hide Step, Tokens, Owns, LastOf;
    TokensStep(s, e);
    LastStep(s, e);
    forall w | w in Step(s, e).workers { OwnsStep(s, e, w); }
  }

  lemma {:induction false} RunInv(zone: Zone, time: int, events: seq<Event>)
    ensures Inv(Run(Initial(zone, time), events))
  {
    hide Step;
    if events != [] {
      RunInv(zone, time, events[..|events| - 1]);
      StepInv(Run(Initial(zone, time), events[..|events| - 1]), events[|events| - 1]);
    }
  }

  // ---- Mutual exclusion ----------------------------------------------------------------------------------

  lemma DistinctTokens(s: State, v: int, w: int)
    requires Tokens(s) && v in s.workers && w in s.workers && v != w && HasToken(s.workers[v]) && HasToken(s.workers[w])
    ensures s.workers[v].token != s.workers[w].token
  {}

  lemma SectionOwner(s: State, v: int, w: int)
    requires Inv(s) && v in s.workers && w in s.workers && WithinTtl(s, s.workers[v]) && WithinTtl(s, s.workers[w])
    ensures v == w
  {
    assert Owns(s, s.workers[v]) && Owns(s, s.workers[w]);
    if v != w { DistinctTokens(s, v, w); }
  }

  /** In every run at most one instance is in the section and within the lifetime of its lease. */
  lemma LeaseExcludes(zone: Zone, time: int, events: seq<Event>, v: int, w: int)
    requires var s := Run(Initial(zone, time), events);
      v in s.workers && w in s.workers && WithinTtl(s, s.workers[v]) && WithinTtl(s, s.workers[w])
    ensures v == w
  {
    RunInv(zone, time, events);
    SectionOwner(Run(Initial(zone, time), events), v, w);
  }

  function Enter(w: int): seq<Event> { [Stamp(w), Insert(w), Confirm(w)] }

  lemma RunThree(s: State, a: Event, b: Event, c: Event)
    ensures Run(s, [a, b, c]) == Step(Step(Step(s, a), b), c)
  {
    hide Step;
    assert [a, b, c][..2] == [a, b] && [a, b][..1] == [a] && [a][..0] == [];
    assert Run(s, [a]) == Step(s, a);
    assert Run(s, [a, b]) == Step(Step(s, a), b);
  }

  /** An instance that reaches the lease while it is free or past its expiry enters the section: a crashed holder
      does not block it, and neither does one that has outlived its lease. */
  lemma {:induction false} EntersWhenExpired(s: State, w: int)
    requires w in s.workers && s.workers[w].Checked? && (s.lease.Some? ==> s.lease.value.expiresAt < s.time)
    ensures var p := Holding(s.workers[w].date, s.nextToken, s.time + NIGHTLY_LEASE_TTL_MS);
      Run(s, Enter(w)) == s.(workers := s.workers[w := p], lease := Some(Lease(p.token, p.expiresAt)),
        nextToken := s.nextToken + 1)
  {
    RunThree(s, Stamp(w), Insert(w), Confirm(w));
    hide Run, Today, LocalHour;
    var a := Step(s, Stamp(w));
    assert w in a.workers && a.workers[w] == Stamped(s.workers[w].date, s.nextToken, s.time) && a.lease == s.lease;
    var b := Step(a, Insert(w));
    var c := Step(b, Confirm(w));
    assert b.lease == Some(Lease(s.nextToken, s.time + NIGHTLY_LEASE_TTL_MS));
    assert c.workers == s.workers[w := Holding(s.workers[w].date, s.nextToken, s.time + NIGHTLY_LEASE_TTL_MS)];
  }

  /** Two instances can be in the section together exactly when one has outlived its lease: from any reachable state
      in which w is in the section and its row is still the one stored, another instance gets in at once if and only
      if w is past its expiry. */
  lemma {:induction false} OverlapIffOverrun(s: State, w: int, v: int)
    requires Inv(s) && v != w && w in s.workers && InSection(s.workers[w]) && v in s.workers && s.workers[v].Checked?
    requires s.lease == Some(Lease(s.workers[w].token, s.workers[w].expiresAt))
    ensures var t := Run(s, Enter(v));
      v in t.workers && InSection(t.workers[v]) && w in t.workers && InSection(t.workers[w]) <==>
        s.time > s.workers[w].expiresAt
  {
    if s.time > s.workers[w].expiresAt {
      EntersWhenExpired(s, v);
    } else {
      RunThree(s, Stamp(v), Insert(v), Confirm(v));
      var a := Step(s, Stamp(v));
      var b := Step(a, Insert(v));
      assert b.lease == s.lease;
      assert v in b.workers && b.workers[v].token == s.nextToken;
      assert s.workers[w].token < s.nextToken;
    }
  }

  // ---- At most once per business date ------------------------------------------------------------------

  predicate AllWithinTtl(s: State) {
    forall w :: w in s.workers && InSection(s.workers[w]) ==> s.time <= s.workers[w].expiresAt
  }

  /** No instance outlives its lease at any point of the run. */
  predicate Timely(s: State, events: seq<Event>) {
    AllWithinTtl(Run(s, events)) && (events == [] || Timely(s, events[..|events| - 1]))
  }

  predicate Dated(p: Phase) { !p.Leaving? }

  /** No date is ahead of the calendar, and an instance at work was told that its date is not the last one
      completed. */
  predicate Fresh(s: State, p: Phase) {
    (Dated(p) ==> p.date <= Today(s)) && (p.Working? ==> s.lastRun != Some(p.date))
  }

  ghost predicate NoRepeatInARow(dates: seq<int>) {
    forall i, k :: 0 <= i < k < |dates| && k == i + 1 ==> dates[i] != dates[k]
  }

  ghost predicate DatesInv(s: State) {
    && (forall w :: w in s.workers ==> Fresh(s, s.workers[w]))
    && NoRepeatInARow(s.completed) && (s.lastRun.Some? ==> s.lastRun.value <= Today(s))
  }

  lemma TodayAdvances(s: State, e: Event)
    ensures Today(s) <= Today(Step(s, e)) && (!e.Tick? ==> Step(s, e).time == s.time && Today(Step(s, e)) == Today(s))
  {}

  lemma FreshStep(s: State, e: Event, w: int)
    requires Inv(s) && DatesInv(s) && AllWithinTtl(s) && w in Step(s, e).workers
    ensures Fresh(Step(s, e), Step(s, e).workers[w])
  {
    TodayAdvances(s, e);
    hide Today;
    if w in s.workers { assert Fresh(s, s.workers[w]); }
    if e.Complete? && e.w != w && w in s.workers && e.w in s.workers && s.workers[e.w].Working?
      && s.workers[w].Working? {
      SectionOwner(s, w, e.w);
    }
  }

  lemma CompletedStep(s: State, e: Event)
    requires Inv(s) && DatesInv(s)
    ensures var t := Step(s, e); NoRepeatInARow(t.completed) && (t.lastRun.Some? ==> t.lastRun.value <= Today(t))
  {
    TodayAdvances(s, e);
    hide Today;
    if e.Complete? && e.w in s.workers { assert Fresh(s, s.workers[e.w]); }
  }

  /** When no instance outlives its lease, the nightly run never completes a date twice in a row. */
  lemma {:induction false} RunDates(zone: Zone, time: int, events: seq<Event>)
    requires Timely(Initial(zone, time), events)
    ensures DatesInv(Run(Initial(zone, time), events))
  {
    hide Step, Inv, Fresh, NoRepeatInARow, AllWithinTtl, Today;
    if events == [] {
      assert NoRepeatInARow([]) by { EmptyDates(); }
    } else {
      var init, e := events[..|events| - 1], events[|events| - 1];
      RunInv(zone, time, init);
      RunDates(zone, time, init);
      var s := Run(Initial(zone, time), init);
      TimelyEnd(Initial(zone, time), init);
      CompletedStep(s, e);
      forall w | w in Step(s, e).workers { FreshStep(s, e, w); }
    }
  }

  lemma TimelyEnd(s: State, events: seq<Event>)
    requires Timely(s, events)
    ensures AllWithinTtl(Run(s, events))
  {}

  lemma EmptyDates()
    ensures NoRepeatInARow([]) && Increasing([])
  {}

  // ---- The second check on the day of the call -----------------------------------------------------------

  predicate Increasing(dates: seq<int>) { forall i, k :: 0 <= i < k < |dates| ==> dates[i] < dates[k] }

  predicate Distinct(dates: seq<int>) { forall i, k :: 0 <= i < k < |dates| ==> dates[i] != dates[k] }

  /** The second check comes at most `lag` business days after the one the instance read. */
  predicate Prompt(s: State, e: Event, lag: nat) {
    e.Recheck? && e.w in s.workers && s.workers[e.w].Holding? ==> Today(s) <= s.workers[e.w].date + lag
  }

  predicate ChecksWithin(s: State, events: seq<Event>, lag: nat) {
    events == [] || (ChecksWithin(s, events[..|events| - 1], lag)
      && Prompt(Run(s, events[..|events| - 1]), events[|events| - 1], lag))
  }

  /** An instance at work has a later date than any completed. */
  predicate Ahead(s: State, p: Phase) { p.Working? && s.lastRun.Some? ==> s.lastRun.value < p.date }

  ghost predicate AheadInv(s: State) {
    Increasing(s.completed) && forall w :: w in s.workers ==> Ahead(s, s.workers[w])
  }

  lemma AheadStep(s: State, e: Event, w: int)
    requires Inv(s) && DatesInv(s) && AheadInv(s) && AllWithinTtl(s) && Prompt(s, e, 0) && w in Step(s, e).workers
    ensures Ahead(Step(s, e), Step(s, e).workers[w])
  {
    hide Today, Increasing, NoRepeatInARow;
    if w in s.workers { assert Ahead(s, s.workers[w]) && Fresh(s, s.workers[w]); }
    if e.Complete? && e.w != w && w in s.workers && e.w in s.workers && s.workers[e.w].Working?
      && s.workers[w].Working? {
      SectionOwner(s, w, e.w);
    }
  }

  lemma IncreasingStep(s: State, e: Event)
    requires LastOf(s) && AheadInv(s)
    ensures Increasing(Step(s, e).completed)
  {
    if e.Complete? && e.w in s.workers { assert Ahead(s, s.workers[e.w]); }
  }

  /** When no instance outlives its lease and every second check is made on the business day of the call, the dates
      completed increase strictly: every date completes at most once. */
  lemma {:induction false} NightlyAtMostOnce(zone: Zone, time: int, events: seq<Event>)
    requires Timely(Initial(zone, time), events) && ChecksWithin(Initial(zone, time), events, 0)
    ensures AheadInv(Run(Initial(zone, time), events))
  {
    hide Step, Ahead, Increasing, Prompt, AllWithinTtl, DatesInv;
    if events == [] {
      assert Increasing([]) by { EmptyDates(); }
    } else {
      var init, e := events[..|events| - 1], events[|events| - 1];
      RunInv(zone, time, init);
      RunDates(zone, time, init);
      NightlyAtMostOnce(zone, time, init);
      TimelyEnd(Initial(zone, time), init);
      var s := Run(Initial(zone, time), init);
      IncreasingStep(s, e);
      forall w | w in Step(s, e).workers { AheadStep(s, e, w); }
    }
  }

  /** Why it fails otherwise. The second check compares with the last date only: of a timely run whose dates so far are
      all different, an instance about to check completes a date again if and only if that date has been completed and
      another one since. */
  lemma CompletingRepeatsIff(zone: Zone, time: int, events: seq<Event>, w: int)
    requires w in Run(Initial(zone, time), events).workers && Run(Initial(zone, time), events).workers[w].Holding?
    requires Distinct(Run(Initial(zone, time), events).completed)
    ensures var s := Run(Initial(zone, time), events); var d := s.workers[w].date;
      Distinct(Step(Step(s, Recheck(w)), Complete(w)).completed) <==> !(d in s.completed && s.lastRun != Some(d))
  {
    RunInv(zone, time, events);
    var s := Run(Initial(zone, time), events);
    var t, d, n := Step(Step(s, Recheck(w)), Complete(w)), s.workers[w].date, |s.completed|;
    if s.lastRun != Some(d) {
      assert t.completed == s.completed + [d] && t.completed[n] == d;
      if i :| 0 <= i < n && s.completed[i] == d { assert t.completed[i] == t.completed[n]; }
    }
  }

  // ---- An instance held up past midnight --------------------------------------------------------------------

  /** The rest of an undisturbed run of one instance. */
  function Finish(w: int): seq<Event> { [Recheck(w), Complete(w), Release(w)] }

  lemma {:induction false} RunAppend(s: State, a: seq<Event>, b: seq<Event>)
    ensures Run(s, a + b) == Run(Run(s, a), b)
    ensures Timely(s, a + b) <==> Timely(s, a) && Timely(Run(s, a), b)
    ensures forall lag :: ChecksWithin(s, a + b, lag) <==> ChecksWithin(s, a, lag) && ChecksWithin(Run(s, a), b, lag)
  {
    hide Step, Prompt, AllWithinTtl;
    if b == [] {
      assert a + b == a;
      TimelyNow(s, a);
    } else {
      RunAppend(s, a, b[..|b| - 1]);
      assert (a + b)[..|a + b| - 1] == a + b[..|b| - 1];
    }
  }

  lemma TimelyNow(s: State, a: seq<Event>)
    ensures Timely(s, a) ==> Timely(Run(s, a), [])
  {}

  /** Every instance is in time with its lease and with the date it read. */
  predicate OnSchedule(s: State, p: Phase, lag: nat) {
    && (Dated(p) ==> Today(s) <= p.date + lag)
    && (p.Stamped? ==> s.time <= p.now + NIGHTLY_LEASE_TTL_MS)
    && (p.Inserted? || InSection(p) ==> s.time <= p.expiresAt)
  }

  ghost predicate Calm(s: State, lag: nat) { forall w :: w in s.workers ==> OnSchedule(s, s.workers[w], lag) }

  lemma CalmStep(s: State, e: Event, lag: nat)
    requires Calm(s, lag) && !e.Tick?
    ensures Calm(Step(s, e), lag) && Prompt(s, e, lag)
  {
    TodayAdvances(s, e);
    hide Today;
    forall w | w in Step(s, e).workers
      ensures OnSchedule(Step(s, e), Step(s, e).workers[w], lag)
    {
      if w in s.workers { assert OnSchedule(s, s.workers[w], lag); }
    }
  }

  lemma CalmIsTimely(s: State, lag: nat)
    requires Calm(s, lag)
    ensures AllWithinTtl(s)
  {
    assert forall w :: w in s.workers ==> OnSchedule(s, s.workers[w], lag);
  }

  lemma {:induction false} CalmRun(s: State, events: seq<Event>, lag: nat)
    requires Calm(s, lag) && forall e :: e in events ==> !e.Tick?
    ensures Calm(Run(s, events), lag) && Timely(s, events) && ChecksWithin(s, events, lag)
  {
    hide Step, Calm, Prompt, AllWithinTtl;
    CalmIsTimely(s, lag);
    if events != [] {
      var init := events[..|events| - 1];
      CalmRun(s, init, lag);
      CalmStep(Run(s, init), events[|events| - 1], lag);
      CalmIsTimely(Run(s, events), lag);
    }
  }

  function Whole(w: int): seq<Event> { [Call(w), Check(w)] + (Enter(w) + Finish(w)) }

  /** From a free lease an instance that has passed its first check completes its date, whatever that date is, as
      long as it is not the last one. */
  lemma {:induction false} RestOfRun(s: State, w: int)
    requires w in s.workers && s.workers[w].Checked? && s.lease.None? && s.lastRun != Some(s.workers[w].date)
    ensures var t := Run(s, Enter(w) + Finish(w)); var d := s.workers[w].date;
      t == s.(lastRun := Some(d), workers := s.workers - {w}, nextToken := s.nextToken + 1,
        completed := s.completed + [d])
  {
    EntersWhenExpired(s, w);
    RunAppend(s, Enter(w), Finish(w));
    var a := Run(s, Enter(w));
    RunThree(a, Recheck(w), Complete(w), Release(w));
    hide Run, Today, LocalHour;
    var p := a.workers[w];
    var b := Step(a, Recheck(w));
    assert w in b.workers && b.workers[w] == Working(p.date, p.token, p.expiresAt) && b.lease == a.lease;
    var c := Step(b, Complete(w));
    assert w in c.workers && c.workers[w] == Leaving(p.token) && c.lease == a.lease;
    assert Step(c, Release(w)).workers == s.workers - {w};
  }

  lemma CallAndCheck(s: State, w: int)
    requires w !in s.workers && LocalHour(s.time, s.zone.offset) == s.zone.nightlyHour && s.lastRun != Some(Today(s))
    ensures Run(s, [Call(w), Check(w)]) == s.(workers := s.workers[w := Checked(Today(s))])
  {
    var a := Step(s, Call(w));
    assert a == At(s, w, Called(Today(s)));
    assert [Call(w), Check(w)][..1] == [Call(w)] && [Call(w)][..0] == [];
    assert Run(s, [Call(w)]) == a;
    assert Run(s, [Call(w), Check(w)]) == Step(a, Check(w));
  }

  lemma WholeRun(s: State, w: int)
    requires w !in s.workers && LocalHour(s.time, s.zone.offset) == s.zone.nightlyHour && s.lastRun != Some(Today(s))
      && s.lease.None?
    ensures Run(s, Whole(w))
      == s.(lastRun := Some(Today(s)), nextToken := s.nextToken + 1, completed := s.completed + [Today(s)])
  {
    hide Step, Run, Today, LocalHour;
    RunAppend(s, [Call(w), Check(w)], Enter(w) + Finish(w));
    CallAndCheck(s, w);
    var a := Run(s, [Call(w), Check(w)]);
    RestOfRun(a, w);
    assert a.workers - {w} == s.workers;
  }

  /** The same hour of the next day. */
  lemma NextDay(s: State)
    ensures var t := s.time + BusinessDate.MS_PER_DAY;
      Today(s.(time := t)) == Today(s) + 1 && LocalHour(t, s.zone.offset) == LocalHour(s.time, s.zone.offset)
  {
    assert (s.time + BusinessDate.MS_PER_DAY + s.zone.offset) % BusinessDate.MS_PER_DAY
      == (s.time + s.zone.offset) % BusinessDate.MS_PER_DAY;
  }

  /** Two instances are called in the nightly hour. One is held up after its first check until the next night, when the
      other has completed that date and the next; then it completes the first date a second time. */
  lemma StalledCallerRepeatsDate(zone: Zone, time: int) returns (events: seq<Event>)
    requires LocalHour(time, zone.offset) == zone.nightlyHour
    ensures var d := Today(Initial(zone, time)); Run(Initial(zone, time), events).completed == [d, d + 1, d]
    ensures Timely(Initial(zone, time), events) && ChecksWithin(Initial(zone, time), events, 1)
  {
    hide Step, Run, Today, LocalHour, Timely, ChecksWithin, OnSchedule;
    var s0 := Initial(zone, time);
    var d := Today(s0);
    var evening := [Call(0), Check(0)] + Whole(1);
    var s1 := FirstNight(s0);
    var midnight := [Tick(time + BusinessDate.MS_PER_DAY)];
    var s2 := Run(s1, midnight);
    NightPasses(s1, d);
    var night := Whole(1) + (Enter(0) + Finish(0));
    RunAppend(s2, Whole(1), Enter(0) + Finish(0));
    WholeRun(s2, 1);
    RestOfRun(Run(s2, Whole(1)), 0);
    CalmRun(s2, night, 1);
    events := evening + midnight + night;
    RunAppend(s0, evening, midnight);
    RunAppend(s0, evening + midnight, night);
  }

  lemma FirstNight(s0: State) returns (s1: State)
    requires s0 == Initial(s0.zone, s0.time) && LocalHour(s0.time, s0.zone.offset) == s0.zone.nightlyHour
    ensures s1 == Run(s0, [Call(0), Check(0)] + Whole(1)) && Today(s1) == Today(s0)
    ensures s1 == s0.(workers := map[0 := Checked(Today(s0))], lastRun := Some(Today(s0)), nextToken := 1,
      completed := [Today(s0)])
    ensures Timely(s0, [Call(0), Check(0)] + Whole(1)) && ChecksWithin(s0, [Call(0), Check(0)] + Whole(1), 1)
  {
    hide Step, Run, LocalHour, Timely, ChecksWithin, OnSchedule;
    CalmRun(s0, [Call(0), Check(0)] + Whole(1), 1);
    RunAppend(s0, [Call(0), Check(0)], Whole(1));
    CallAndCheck(s0, 0);
    var a := Run(s0, [Call(0), Check(0)]);
    assert Today(a) == Today(s0);
    hide Today;
    WholeRun(a, 1);
    s1 := Run(s0, [Call(0), Check(0)] + Whole(1));
  }

  lemma NightPasses(s: State, d: int)
    requires Today(s) == d && s.workers == map[0 := Checked(d)]
    ensures var t := s.time + BusinessDate.MS_PER_DAY; var s2 := Run(s, [Tick(t)]);
      && s2 == s.(time := t) && Today(s2) == d + 1 && LocalHour(t, s.zone.offset) == LocalHour(s.time, s.zone.offset)
      && Timely(s, [Tick(t)]) && ChecksWithin(s, [Tick(t)], 1) && Calm(s2, 1)
  {
    hide LocalHour;
    NextDay(s);
    hide Today;
    var t := s.time + BusinessDate.MS_PER_DAY;
    assert [Tick(t)][..0] == [];
    assert Run(s, []) == s && Run(s, [Tick(t)]) == Step(s, Tick(t)) == s.(time := t);
    assert Timely(s, []);
  }

  /** Exactly then: with second checks at most `lag` business days late, every timely run completes every date at most
      once if and only if the lag is zero. */
  lemma AtMostOnceIff(zone: Zone, lag: nat)
    requires 0 <= zone.nightlyHour < 24
    ensures (forall time, events ::
      Timely(Initial(zone, time), events) && ChecksWithin(Initial(zone, time), events, lag) ==>
        Distinct(Run(Initial(zone, time), events).completed))
      <==> lag == 0
  {
    hide Run, Timely, ChecksWithin, Today;
    if lag == 0 {
      forall time, events | Timely(Initial(zone, time), events) && ChecksWithin(Initial(zone, time), events, lag)
        ensures Distinct(Run(Initial(zone, time), events).completed)
      {
        NightlyAtMostOnce(zone, time, events);
      }
    } else {
      var time := zone.nightlyHour * MS_PER_HOUR - zone.offset;
      var events := StalledCallerRepeatsDate(zone, time);
      LaterIsLaxer(Initial(zone, time), events, 1, lag);
      var dates := Run(Initial(zone, time), events).completed;
      assert dates[0] == dates[2];
    }
  }

  lemma {:induction false} LaterIsLaxer(s: State, events: seq<Event>, lag: nat, more: nat)
    requires ChecksWithin(s, events, lag) && lag <= more
    ensures ChecksWithin(s, events, more)
  {
    hide Run;
    if events != [] { LaterIsLaxer(s, events[..|events| - 1], lag, more); }
  }

  // ---- When it is called -----------------------------------------------------------------------------------

  /** The scheduler calls an idle instance exactly within the nightly hour of the local day, for that day. */
  lemma CalledInHour(s: State, w: int)
    ensures var day := Today(s);
      var start := day * 86_400_000 + s.zone.nightlyHour * 3_600_000 - s.zone.offset;
      Step(s, Call(w)) ==
        if w !in s.workers && start <= s.time < start + 3_600_000 && 0 <= s.zone.nightlyHour < 24
        then s.(workers := s.workers[w := Called(day)]) else s
  {
    HourIs(s.time + s.zone.offset, s.zone.nightlyHour);
  }

  lemma HourIs(local: int, hour: int)
    ensures var day := local / BusinessDate.MS_PER_DAY;
      local % BusinessDate.MS_PER_DAY / MS_PER_HOUR == hour <==>
      day * 86_400_000 + hour * 3_600_000 <= local < day * 86_400_000 + hour * 3_600_000 + 3_600_000 && 0 <= hour < 24
  {
    var day, rest := local / BusinessDate.MS_PER_DAY, local % BusinessDate.MS_PER_DAY;
    assert local == day * 86_400_000 + rest && 0 <= rest < 86_400_000;
    var q := rest / MS_PER_HOUR;
    assert q * 3_600_000 <= rest < q * 3_600_000 + 3_600_000;
  }

  /** The date an instance works for. */
  function DateOf(p: Phase): Option<int> {
    match p
    case Called(date) => Some(date)
    case Checked(date) => Some(date)
    case Stamped(date, _, _) => Some(date)
    case Inserted(date, _, _) => Some(date)
    case Holding(date, _, _) => Some(date)
    case Working(date, _, _) => Some(date)
    case Leaving(_) => None
  }

  ghost predicate InItsHour(s: State, date: int) {
    Today(s) == date && LocalHour(s.time, s.zone.offset) == s.zone.nightlyHour
  }

  /** At some point of the run it was the nightly hour of the date. */
  ghost predicate HadItsHour(s0: State, events: seq<Event>, date: int) {
    exists n :: 0 <= n <= |events| && InItsHour(Run(s0, events[..n]), date)
  }

  lemma HourKept(s0: State, events: seq<Event>, date: int)
    requires events != [] && (HadItsHour(s0, events[..|events| - 1], date) || InItsHour(Run(s0, events), date))
    ensures HadItsHour(s0, events, date)
  {
    var init := events[..|events| - 1];
    assert events[..|events|] == events;
    if HadItsHour(s0, init, date) {
      var n :| 0 <= n <= |init| && InItsHour(Run(s0, init[..n]), date);
      assert init[..n] == events[..n];
    }
  }

  lemma DatesFrom(s: State, e: Event)
    ensures var t := Step(s, e);
      && (forall w :: w in t.workers && DateOf(t.workers[w]).Some? ==>
            var date := DateOf(t.workers[w]).value;
            (w in s.workers && DateOf(s.workers[w]) == Some(date)) || InItsHour(t, date))
      && (forall date :: date in t.completed ==>
            date in s.completed || exists w :: w in s.workers && DateOf(s.workers[w]) == Some(date))
  {
    hide LocalHour, Upserted, Deleted;
  }

  ghost predicate Sourced(s0: State, events: seq<Event>) {
    var s := Run(s0, events);
    && (forall w :: w in s.workers && DateOf(s.workers[w]).Some? ==> HadItsHour(s0, events, DateOf(s.workers[w]).value))
    && (forall date :: date in s.completed ==> HadItsHour(s0, events, date))
  }

  lemma SourcedStep(s0: State, events: seq<Event>)
    requires events != [] && Sourced(s0, events[..|events| - 1])
    ensures Sourced(s0, events)
  {
    var init, e := events[..|events| - 1], events[|events| - 1];
    var s, t := Run(s0, init), Run(s0, events);
    assert t == Step(s, e);
    DatesFrom(s, e);
    hide Step, Run, DateOf, InItsHour, HadItsHour;
    forall w | w in t.workers && DateOf(t.workers[w]).Some?
      ensures HadItsHour(s0, events, DateOf(t.workers[w]).value)
    {
      HourKept(s0, events, DateOf(t.workers[w]).value);
    }
    forall date | date in t.completed
      ensures HadItsHour(s0, events, date)
    {
      HourKept(s0, events, date);
    }
  }

  /** In every run, late instances and overruns included, a date completes only if it had its nightly hour before. */
  lemma {:induction false} CompletedHadItsHour(zone: Zone, time: int, events: seq<Event>)
    ensures Sourced(Initial(zone, time), events)
  {
    if events == [] {
      assert Run(Initial(zone, time), []) == Initial(zone, time);
    } else {
      CompletedHadItsHour(zone, time, events[..|events| - 1]);
      SourcedStep(Initial(zone, time), events);
    }
  }
}

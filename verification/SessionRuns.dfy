/** Safety of sessions and reset tokens over every interleaving of requests. */
module SessionRuns {
  import opened Options
  import opened Sessions

  predicate Live(s: Session) { !s.revoked }

  function LiveCount(sessions: seq<Session>, user: int): nat {
    if sessions == [] then 0 else
    LiveCount(sessions[..|sessions| - 1], user) +
    (if sessions[|sessions| - 1].user == user && Live(sessions[|sessions| - 1]) then 1 else 0)
  }

  predicate NoneLive(sessions: seq<Session>, user: int) {
    forall i :: 0 <= i < |sessions| && sessions[i].user == user ==> sessions[i].revoked
  }

  // ---- The invariant -----------------------------------------------------------------------------------

  /** A session's line starts no later than it, hashes are unique, and of each line at most one session is live. */
  predicate SessionsSafe(sessions: seq<Session>) {
    && (forall i :: 0 <= i < |sessions| ==> sessions[i].root <= i)
    && (forall i, k :: 0 <= i < k < |sessions| ==> sessions[i].hash != sessions[k].hash)
    && forall i, k :: 0 <= i < k < |sessions| && Live(sessions[i]) && Live(sessions[k]) ==>
      sessions[i].root != sessions[k].root
  }

  /** What has been answered is final: a session that rotated is revoked and rotated once; a token that set a
      password is used and did so once. */
  predicate LogSafe(s: State) {
    && (forall i :: 0 <= i < |s.log| && s.log[i].Rotated? ==>
      s.log[i].id < |s.sessions| && s.sessions[s.log[i].id].revoked)
    && (forall i :: 0 <= i < |s.log| && s.log[i].PasswordSet? ==>
      s.log[i].token < |s.resets| && s.resets[s.log[i].token].used)
    && forall i, k :: 0 <= i < k < |s.log| && (s.log[i].Rotated? || s.log[i].PasswordSet?) ==> s.log[i] != s.log[k]
  }

  predicate FlightsSafe(s: State) {
    forall req :: req in s.flights ==>
      match s.flights[req]
      case Rotating(id) => id < |s.sessions|
      case Expiring(id) => id < |s.sessions|
      case Resetting(token, _) => token < |s.resets|
      case Revoking(_) => true
  }

  predicate Safe(s: State) { SessionsSafe(s.sessions) && LogSafe(s) && FlightsSafe(s) }

  /** Later rows keep their identity, and what is revoked or used stays so. */
  predicate Later(s: State, t: State) {
    && |s.sessions| <= |t.sessions|
    && (forall i :: 0 <= i < |s.sessions| ==>
          t.sessions[i] == s.sessions[i].(revoked := t.sessions[i].revoked)
            && (s.sessions[i].revoked ==> t.sessions[i].revoked))
    && |s.resets| <= |t.resets|
    && (forall i :: 0 <= i < |s.resets| ==>
          t.resets[i] == s.resets[i].(used := t.resets[i].used) && (s.resets[i].used ==> t.resets[i].used))
    && |s.log| <= |t.log| && t.log[..|s.log|] == s.log
  }

  lemma StepIsLater(s: State, e: Event)
    ensures Later(s, Step(s, e))
  {
    hide FindSession, FindReset;
  }

  lemma RevokedStaysSafe(a: seq<Session>, b: seq<Session>)
    requires SessionsSafe(a) && |a| == |b|
    requires forall i :: 0 <= i < |a| ==> b[i] == a[i].(revoked := b[i].revoked) && (a[i].revoked ==> b[i].revoked)
    ensures SessionsSafe(b)
  {
    assert forall i :: 0 <= i < |a| ==> b[i].root == a[i].root && b[i].user == a[i].user && b[i].hash == a[i].hash;
  }

  /** A new row that starts a line, or continues one that has no live session left. */
  lemma AppendedStaysSafe(a: seq<Session>, x: Session)
    requires SessionsSafe(a) && (forall i :: 0 <= i < |a| ==> a[i].hash != x.hash)
    requires x.root == |a| || (x.root < |a| && forall i :: 0 <= i < |a| && a[i].root == x.root ==> a[i].revoked)
    ensures SessionsSafe(a + [x])
  {
    var b := a + [x];
    assert forall i :: 0 <= i < |a| ==> b[i] == a[i];
    assert b[|a|] == x;
  }

  lemma SessionsStepSafe(s: State, e: Event)
    requires Safe(s)
    ensures SessionsSafe(Step(s, e).sessions)
  {
    hide SessionsSafe, FindSession, FindReset;
    var t := Step(s, e);
    StepIsLater(s, e);
    match e {
      case Login(user, hash, expiresAt) =>
        if |t.sessions| > |s.sessions| { AppendedStaysSafe(s.sessions, t.sessions[|s.sessions|]); }
      case Rotate(req, _, _, _) =>
        if |t.sessions| > |s.sessions| { RotatedStaysSafe(s, s.flights[req].id, t.sessions[|s.sessions|]); }
        else { RevokedStaysSafe(s.sessions, t.sessions); }
      case _ => RevokedStaysSafe(s.sessions, t.sessions);
    }
  }

  lemma RotatedStaysSafe(s: State, id: nat, x: Session)
    requires SessionsSafe(s.sessions) && id < |s.sessions| && Live(s.sessions[id])
    requires x.root == s.sessions[id].root && x.user == s.sessions[id].user
    requires forall i :: 0 <= i < |s.sessions| ==> s.sessions[i].hash != x.hash
    ensures SessionsSafe(s.sessions[id := s.sessions[id].(revoked := true)] + [x])
  {
    var b := s.sessions[id := s.sessions[id].(revoked := true)];
    RevokedStaysSafe(s.sessions, b);
    AppendedStaysSafe(b, x);
  }

  lemma LogStepSafe(s: State, e: Event)
    requires Safe(s)
    ensures LogSafe(Step(s, e))
  {
    hide FindSession, FindReset, SessionsSafe, FlightsSafe, Step;
    var t := Step(s, e);
    StepIsLater(s, e);
    LogGrows(s, e);
    assert forall i :: 0 <= i < |s.log| ==> t.log[i] == t.log[..|s.log|][i];
  }

  /** A step answers at most once; what it announces is done then and was not done before. */
  lemma LogGrows(s: State, e: Event)
    ensures var t := Step(s, e);
      && |t.log| <= |s.log| + 1
      && (|t.log| == |s.log| + 1 && t.log[|s.log|].Rotated? ==>
          var id := t.log[|s.log|].id;
          id < |s.sessions| <= |t.sessions| && !s.sessions[id].revoked && t.sessions[id].revoked)
      && (|t.log| == |s.log| + 1 && t.log[|s.log|].PasswordSet? ==>
          var token := t.log[|s.log|].token;
          token < |s.resets| <= |t.resets| && !s.resets[token].used && t.resets[token].used)
  {
    hide FindSession, FindReset;
  }

  lemma FlightsStepSafe(s: State, e: Event)
    requires Safe(s)
    ensures FlightsSafe(Step(s, e))
  {
    StepIsLater(s, e);
  }

  lemma {:induction false} RunSafe(active: set<int>, events: seq<Event>)
    ensures Safe(Run(Initial(active), events))
  {
    hide Step;
    if events != [] {
      RunSafe(active, events[..|events| - 1]);
      var s := Run(Initial(active), events[..|events| - 1]);
      SessionsStepSafe(s, events[|events| - 1]);
      LogStepSafe(s, events[|events| - 1]);
      FlightsStepSafe(s, events[|events| - 1]);
    }
  }

  /** Each refresh token rotates at most once, each reset token sets a password at most once, and of the sessions
      that descend from one login at most one is live. */
  lemma OnceEach(active: set<int>, events: seq<Event>, i: nat, k: nat)
    requires i < k
    ensures var s := Run(Initial(active), events);
      && (k < |s.log| && s.log[i].Rotated? && s.log[k].Rotated? ==> s.log[i].id != s.log[k].id)
      && (k < |s.log| && s.log[i].PasswordSet? && s.log[k].PasswordSet? ==> s.log[i].token != s.log[k].token)
      && (k < |s.sessions| && Live(s.sessions[i]) && Live(s.sessions[k]) ==> s.sessions[i].root != s.sessions[k].root)
  {
    RunSafe(active, events);
  }

  // ---- Live sessions -----------------------------------------------------------------------------------

  lemma {:induction false} CountNone(sessions: seq<Session>, user: int)
    ensures NoneLive(sessions, user) <==> LiveCount(sessions, user) == 0
  {
    if sessions != [] {
      var init := sessions[..|sessions| - 1];
      CountNone(init, user);
      assert forall i :: 0 <= i < |init| ==> init[i] == sessions[i];
      if NoneLive(init, user) && (sessions[|sessions| - 1].user == user ==> sessions[|sessions| - 1].revoked) {
        assert NoneLive(sessions, user);
      }
    }
  }

  lemma {:induction false} CountMonotone(a: seq<Session>, b: seq<Session>, user: int)
    requires |a| == |b|
    requires forall i :: 0 <= i < |a| ==> b[i].user == a[i].user && (a[i].revoked ==> b[i].revoked)
    ensures LiveCount(b, user) <= LiveCount(a, user)
  {
    if a != [] { CountMonotone(a[..|a| - 1], b[..|b| - 1], user); }
  }

  lemma {:induction false} CountRevokeOne(a: seq<Session>, i: nat, user: int)
    requires i < |a| && Live(a[i])
    ensures LiveCount(a[i := a[i].(revoked := true)], user) == LiveCount(a, user) - (if a[i].user == user then 1 else 0)
  {
    var b := a[i := a[i].(revoked := true)];
    if i < |a| - 1 {
      CountRevokeOne(a[..|a| - 1], i, user);
      assert b[..|b| - 1] == a[..|a| - 1][i := a[i].(revoked := true)];
    } else {
      assert b[..|b| - 1] == a[..|a| - 1];
    }
  }

  lemma CountSnoc(a: seq<Session>, x: Session, user: int)
    ensures LiveCount(a + [x], user) == LiveCount(a, user) + (if x.user == user && Live(x) then 1 else 0)
  {
    assert (a + [x])[..|a|] == a;
  }

  function LoginsIn(e: Event, user: int): nat { if e.Login? && e.user == user then 1 else 0 }

  /** No step but a login adds to a user's live sessions; a rotation replaces one by one. */
  lemma LiveStep(s: State, e: Event, user: int)
    ensures LiveCount(Step(s, e).sessions, user) <= LiveCount(s.sessions, user) + LoginsIn(e, user)
  {
    hide FindSession, FindReset, LiveCount;
    var t := Step(s, e);
    match e {
      case Login(u, hash, expiresAt) =>
        CountSnoc(s.sessions, Session(u, hash, expiresAt, false, |s.sessions|), user);
      case Rotate(req, newHash, newExpiry, now) =>
        if |t.sessions| > |s.sessions| {
          var id := s.flights[req].id;
          CountRevokeOne(s.sessions, id, user);
          CountSnoc(s.sessions[id := s.sessions[id].(revoked := true)], t.sessions[|s.sessions|], user);
        } else {
          CountMonotone(s.sessions, t.sessions, user);
        }
      case _ =>
        CountMonotone(s.sessions, t.sessions, user);
    }
  }

  function Logins(events: seq<Event>, user: int): nat {
    if events == [] then 0 else Logins(events[..|events| - 1], user) + LoginsIn(events[|events| - 1], user)
  }

  /** A user never has more live sessions than before the run plus the logins in it. */
  lemma {:induction false} LiveBounded(s: State, events: seq<Event>, user: int)
    ensures LiveCount(Run(s, events).sessions, user) <= LiveCount(s.sessions, user) + Logins(events, user)
  {
    hide Step, LiveCount;
    if events != [] {
      LiveBounded(s, events[..|events| - 1], user);
      LiveStep(Run(s, events[..|events| - 1]), events[|events| - 1], user);
    }
  }

  /** Once a user has no live session, only a login gives one again: no refresh in flight can. */
  lemma NoLoginNoSession(s: State, events: seq<Event>, user: int)
    requires NoneLive(s.sessions, user) && Logins(events, user) == 0
    ensures NoneLive(Run(s, events).sessions, user)
  {
    CountNone(s.sessions, user);
    LiveBounded(s, events, user);
    CountNone(Run(s, events).sessions, user);
  }

  // ---- Replay detection ----------------------------------------------------------------------------------

  predicate Announces(s: State, t: State, outcome: Outcome) { t.log == s.log + [outcome] }

  /** A detected replay and a password reset leave the user with no live session at that step, whoever made it. */
  lemma RevocationIsTotal(s: State, e: Event, user: int)
    requires Safe(s)
    requires Announces(s, Step(s, e), ReplayDetected(user))
      || (|Step(s, e).log| == |s.log| + 1 && Step(s, e).log[|s.log|].PasswordSet?
        && s.resets[Step(s, e).log[|s.log|].token].user == user)
    ensures NoneLive(Step(s, e).sessions, user)
  {
    hide FindSession, FindReset;
    var t := Step(s, e);
    assert t.log[|s.log|] == t.log[|s.log|];
  }

  /** A rotation either replaces a live, unexpired session or revokes everything the user has; it reports a replay
      exactly when the session it read is by then revoked or past its expiry. */
  lemma RotateOutcomeIff(s: State, req: int, newHash: int, newExpiry: int, now: int)
    requires Safe(s) && req in s.flights && s.flights[req].Rotating?
    ensures var id := s.flights[req].id; var t := Step(s, Rotate(req, newHash, newExpiry, now));
      && (Announces(s, t, ReplayDetected(s.sessions[id].user)) <==>
        s.sessions[id].revoked || s.sessions[id].expiresAt <= now)
      && (Announces(s, t, Rotated(id)) <==> Rotatable(s, id, now) && FindSession(s.sessions, newHash).None?)
      && (Announces(s, t, Rotated(id)) ==>
        Live(t.sessions[|t.sessions| - 1]) && t.sessions[|t.sessions| - 1].hash == newHash
                                           && t.sessions[|t.sessions| - 1].user == s.sessions[id].user)
  {
    hide FindSession;
    var t := Step(s, Rotate(req, newHash, newExpiry, now));
    assert t.log[|s.log|] == t.log[|s.log|];
  }

  predicate Touches(e: Event, req: int) {
    match e
    case ReadToken(r, _, _) => r == req
    case Rotate(r, _, _, _) => r == req
    case RevokeStale(r) => r == req
    case ReadReset(r, _, _) => r == req
    case CommitReset(r) => r == req
    case Crash(r) => r == req
    case _ => false
  }

  predicate Untouched(events: seq<Event>, req: int) { forall i :: 0 <= i < |events| ==> !Touches(events[i], req) }

  lemma FlightStep(s: State, e: Event, req: int)
    requires req in s.flights && !Touches(e, req)
    ensures req in Step(s, e).flights && Step(s, e).flights[req] == s.flights[req]
  {
    hide FindSession, FindReset;
  }

  lemma {:induction false} FlightKept(s: State, events: seq<Event>, req: int)
    requires req in s.flights && Untouched(events, req)
    ensures var t := Run(s, events); req in t.flights && t.flights[req] == s.flights[req] && Later(s, t)
  {
    hide Step;
    if events != [] {
      var init := events[..|events| - 1];
      assert Untouched(init, req);
      FlightKept(s, init, req);
      FlightStep(Run(s, init), events[|events| - 1], req);
      StepIsLater(Run(s, init), events[|events| - 1]);
      LaterChain(s, Run(s, init), Run(s, events));
    }
  }

  lemma LaterChain(s: State, t: State, u: State)
    requires Later(s, t) && Later(t, u)
    ensures Later(s, u)
  {
    assert u.log[..|s.log|] == u.log[..|t.log|][..|s.log|];
  }

  lemma {:induction false} RunKeepsSafe(s: State, events: seq<Event>)
    requires Safe(s)
    ensures Safe(Run(s, events))
  {
    hide Step, Safe;
    if events != [] {
      RunKeepsSafe(s, events[..|events| - 1]);
      var t := Run(s, events[..|events| - 1]);
      SessionsStepSafe(t, events[|events| - 1]);
      LogStepSafe(t, events[|events| - 1]);
      FlightsStepSafe(t, events[|events| - 1]);
      SafeIs(Step(t, events[|events| - 1]));
    }
  }

  lemma SafeIs(s: State)
    requires SessionsSafe(s.sessions) && LogSafe(s) && FlightsSafe(s)
    ensures Safe(s)
  {}

  /** Two requests that read the same token before either rotated it: if one rotates it, then whatever happens in
      between, the other's write leaves the user without a live session, the winner's new one included. */
  lemma RaceEndsEverySession(s: State, id: nat, winner: int, loser: int, before: seq<Event>, rotate: Event,
      between: seq<Event>, late: Event)
    requires Safe(s) && winner != loser
    requires winner in s.flights && s.flights[winner] == Rotating(id) && loser in s.flights
      && s.flights[loser] == Rotating(id)
    requires Untouched(before, winner) && Untouched(before, loser) && Untouched(between, loser)
    requires rotate.Rotate? && rotate.req == winner && late.Rotate? && late.req == loser
    requires Announces(Run(s, before), Step(Run(s, before), rotate), Rotated(id))
    ensures var t := Step(Run(Step(Run(s, before), rotate), between), late);
      id < |s.sessions| && NoneLive(t.sessions, s.sessions[id].user)
  {
    hide Step, Run, SessionsSafe, LogSafe, FlightsSafe;
    FlightBound(s, winner);
    FlightKept(s, before, winner);
    FlightKept(s, before, loser);
    RunKeepsSafe(s, before);
    var a := Run(s, before);
    var b := Step(a, rotate);
    RotatedIsRevoked(a, rotate, id);
    FlightStep(a, rotate, loser);
    RunKeepsSafe(a, [rotate]);
    RunOne(a, rotate);
    RunKeepsSafe(b, between);
    FlightKept(b, between, loser);
    var c := Run(b, between);
    RevokedMeansReplay(c, late, id);
    RevocationIsTotal(c, late, s.sessions[id].user);
  }

  lemma FlightBound(s: State, req: int)
    requires Safe(s) && req in s.flights && s.flights[req].Rotating?
    ensures s.flights[req].id < |s.sessions|
  {}

  lemma RunOne(s: State, e: Event)
    ensures Run(s, [e]) == Step(s, e)
  {
    hide Step;
    assert [e][..0] == [];
  }

  lemma RotatedIsRevoked(s: State, e: Event, id: nat)
    requires Safe(s) && Announces(s, Step(s, e), Rotated(id))
    ensures Later(s, Step(s, e)) && id < |s.sessions| && Step(s, e).sessions[id].revoked
  {
    hide FindSession, FindReset;
    assert Step(s, e).log[|s.log|] == Rotated(id);
    StepIsLater(s, e);
  }

  lemma RevokedMeansReplay(s: State, e: Event, id: nat)
    requires Safe(s) && e.Rotate? && e.req in s.flights && s.flights[e.req] == Rotating(id)
    requires id < |s.sessions| && s.sessions[id].revoked
    ensures Announces(s, Step(s, e), ReplayDetected(s.sessions[id].user))
  {
    hide FindSession;
  }

  /** A token presented again after its session was revoked: unless the request dies, its write leaves the user
      without a live session, whatever happened since it was read. */
  lemma ReuseEndsEverySession(s: State, id: nat, req: int, now: int, between: seq<Event>)
    requires Safe(s) && id < |s.sessions| && s.sessions[id].revoked && req !in s.flights && Untouched(between, req)
    ensures var read := Step(s, ReadToken(req, s.sessions[id].hash, now));
      NoneLive(Step(Run(read, between), RevokeStale(req)).sessions, s.sessions[id].user)
  {
    var hash := s.sessions[id].hash;
    var user := s.sessions[id].user;
    var read := Step(s, ReadToken(req, hash, now));
    FoundById(s, id);
    assert req in read.flights && read.flights[req] == Revoking(user);
    RunKeepsSafe(s, [ReadToken(req, hash, now)]);
    RunOne(s, ReadToken(req, hash, now));
    hide Step, Run, Safe;
    RunKeepsSafe(read, between);
    FlightKept(read, between, req);
    StaleRevokes(Run(read, between), req, user);
  }

  lemma FoundById(s: State, id: nat)
    requires Safe(s) && id < |s.sessions|
    ensures FindSession(s.sessions, s.sessions[id].hash) == Some(id)
  {
    var found := FindSession(s.sessions, s.sessions[id].hash);
    assert found.Some?;
  }

  lemma StaleRevokes(s: State, req: int, user: int)
    requires req in s.flights && s.flights[req] == Revoking(user)
    ensures NoneLive(Step(s, RevokeStale(req)).sessions, user)
  {}
}

/** What each request for a session or a password finds and leaves, on the rows it reads. */
module SessionOutcomes {
  import opened Options
  import opened Sessions
  import opened SessionRuns

  predicate Held(sessions: seq<Session>, hash: int) { exists i :: 0 <= i < |sessions| && sessions[i].hash == hash }

  predicate Issued(resets: seq<ResetToken>, hash: int) { exists i :: 0 <= i < |resets| && resets[i].hash == hash }

  predicate ResetsDistinct(resets: seq<ResetToken>) {
    forall i, k :: 0 <= i < k < |resets| ==> resets[i].hash != resets[k].hash
  }

  lemma {:induction false} RunResetsDistinct(active: set<int>, events: seq<Event>)
    ensures ResetsDistinct(Run(Initial(active), events).resets)
  {
    hide Step, ResetsDistinct;
    if events == [] {
      NoResets(active);
    } else {
      RunResetsDistinct(active, events[..|events| - 1]);
      ResetsStayDistinct(Run(Initial(active), events[..|events| - 1]), events[|events| - 1]);
    }
  }

  lemma NoResets(active: set<int>)
    ensures ResetsDistinct(Initial(active).resets)
  {}

  lemma ResetsStayDistinct(s: State, e: Event)
    requires ResetsDistinct(s.resets)
    ensures ResetsDistinct(Step(s, e).resets)
  {
    hide RevokeUser;
  }

  /** The read of a refresh writes nothing. A revoked session leads to the revocation of all sessions of its user, an
      expired one to its own, and only a session that is neither, of an active user, is rotated. */
  lemma RefreshRead(s: State, req: int, hash: int, now: int)
    requires SessionsSafe(s.sessions) && req !in s.flights
    ensures var t := Step(s, ReadToken(req, hash, now));
      && t == s.(flights := t.flights, log := t.log)
      && (!Held(s.sessions, hash) ==> t.flights == s.flights && t.log == s.log + [Refused])
      && forall i :: 0 <= i < |s.sessions| && s.sessions[i].hash == hash ==>
           var session := s.sessions[i];
           if session.revoked then t.flights == s.flights[req := Revoking(session.user)] && t.log == s.log
           else if now > session.expiresAt then t.flights == s.flights[req := Expiring(i)] && t.log == s.log
           else if session.user in s.active then t.flights == s.flights[req := Rotating(i)] && t.log == s.log
           else t.flights == s.flights && t.log == s.log + [Refused]
  {
    assert s.flights - {req} == s.flights;
  }

  /** The read of a password reset lets exactly the unused tokens of active users pass that have not expired. */
  lemma ResetRead(s: State, req: int, hash: int, now: int)
    requires ResetsDistinct(s.resets) && req !in s.flights
    ensures var t := Step(s, ReadReset(req, hash, now));
      && t == s.(flights := t.flights, log := t.log)
      && (!Issued(s.resets, hash) ==> t.flights == s.flights && t.log == s.log + [Refused])
      && forall i :: 0 <= i < |s.resets| && s.resets[i].hash == hash ==>
           var token := s.resets[i];
           if !token.used && now < token.expiresAt && token.user in s.active
           then t.flights == s.flights[req := Resetting(i, now)] && t.log == s.log
           else t.flights == s.flights && t.log == s.log + [Refused]
  {
    assert s.flights - {req} == s.flights;
  }

  /** The commit of a password reset goes through exactly if the token is unused and had not expired when the request
      began; then every token and every session of its user is spent, and nobody else's. */
  lemma ResetCommitted(s: State, req: int)
    requires req in s.flights && s.flights[req].Resetting? && s.flights[req].token < |s.resets|
    ensures var f, t := s.flights[req], Step(s, CommitReset(req)); var token := s.resets[f.token];
      if !token.used && f.now < token.expiresAt
      then
        && t.log == s.log + [PasswordSet(f.token)] && |t.sessions| == |s.sessions| && |t.resets| == |s.resets|
        && (forall i :: 0 <= i < |s.sessions| ==>
              t.sessions[i] == s.sessions[i].(revoked := s.sessions[i].revoked || s.sessions[i].user == token.user))
        && (forall i :: 0 <= i < |s.resets| ==>
              t.resets[i] == s.resets[i].(used := s.resets[i].used || s.resets[i].user == token.user))
      else t.log == s.log + [Refused] && t.sessions == s.sessions && t.resets == s.resets
  {
    hide RevokeUser, UseUser;
  }

  /** A logout with a token ends the one session of the user that holds it, and without a token all of them. */
  lemma LoggedOut(s: State, user: int, token: Option<int>)
    requires SessionsSafe(s.sessions)
    ensures var t := Step(s, Logout(user, token));
      && t == s.(sessions := t.sessions) && |t.sessions| == |s.sessions|
      && forall i :: 0 <= i < |s.sessions| ==>
           var ends := s.sessions[i].user == user && (token.Some? ==> s.sessions[i].hash == token.value);
           t.sessions[i] == s.sessions[i].(revoked := s.sessions[i].revoked || ends)
  {
    hide RevokeUser;
  }

  /** Only an active user gets a session, under a hash nobody has; it starts live and starts a line of its own. */
  lemma LoggedIn(s: State, user: int, hash: int, expiresAt: int)
    ensures var t := Step(s, Login(user, hash, expiresAt));
      t == if user in s.active && !Held(s.sessions, hash)
           then s.(sessions := s.sessions + [Session(user := user, hash := hash, expiresAt := expiresAt,
                                                     revoked := false, root := |s.sessions|)])
           else s
  {}

  /** Activation changes one user, and an issued token is unused. */
  lemma AccountChanged(s: State, user: int, on: bool, hash: int, expiresAt: int)
    ensures var t := Step(s, SetActive(user, on));
      t == s.(active := t.active) && forall u :: u in t.active <==> if u == user then on else u in s.active
    ensures var t := Step(s, IssueReset(user, hash, expiresAt));
      t == if Issued(s.resets, hash) then s
           else s.(resets := s.resets + [ResetToken(user := user, hash := hash, expiresAt := expiresAt, used := false)])
  {}
}

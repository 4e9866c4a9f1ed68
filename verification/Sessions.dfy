/** Refresh-token rotation, logout and password reset over the session and reset-token tables. A row's id is its
    index; token hashes are numbers. Every statement or transaction on the tables is one step, and requests
    interleave between their steps. `root` (the login a session descends from) and `log` are history only. */
module Sessions {
  import opened Options

  datatype Session = Session(user: int, hash: int, expiresAt: int, revoked: bool, root: nat)
  datatype ResetToken = ResetToken(user: int, hash: int, expiresAt: int, used: bool)

  /** A request between its read and its write. */
  datatype Flight = Rotating(id: nat) | Revoking(user: int) | Expiring(id: nat) | Resetting(token: nat, now: int)

  datatype Outcome = Rotated(id: nat) | ReplayDetected(user: int) | PasswordSet(token: nat) | Refused

  datatype State = State(sessions: seq<Session>, resets: seq<ResetToken>, active: set<int>,
      flights: map<int, Flight>, log: seq<Outcome>)

  datatype Event =
    | Login(user: int, hash: int, expiresAt: int)
    | ReadToken(req: int, hash: int, now: int)
    | Rotate(req: int, newHash: int, newExpiry: int, now: int)
    | RevokeStale(req: int)
    | Logout(user: int, token: Option<int>)
    | SetActive(user: int, on: bool)
    | IssueReset(user: int, hash: int, expiresAt: int)
    | ReadReset(req: int, hash: int, now: int)
    | CommitReset(req: int)
    | Crash(req: int)

  function FindSession(sessions: seq<Session>, hash: int): (r: Option<nat>)
    ensures r.Some? ==> r.value < |sessions| && sessions[r.value].hash == hash
    ensures r.None? ==> forall i :: 0 <= i < |sessions| ==> sessions[i].hash != hash
  {
    if sessions == [] then None
    else if sessions[|sessions| - 1].hash == hash then Some(|sessions| - 1)
      else FindSession(sessions[..|sessions| - 1], hash)
  }

  function FindReset(resets: seq<ResetToken>, hash: int): (r: Option<nat>)
    ensures r.Some? ==> r.value < |resets| && resets[r.value].hash == hash
    ensures r.None? ==> forall i :: 0 <= i < |resets| ==> resets[i].hash != hash
  {
    if resets == [] then None
    else if resets[|resets| - 1].hash == hash then Some(|resets| - 1) else FindReset(resets[..|resets| - 1], hash)
  }

  function RevokeUser(sessions: seq<Session>, user: int): (r: seq<Session>)
    ensures |r| == |sessions|
    ensures forall i :: 0 <= i < |r| ==>
      r[i] == sessions[i].(revoked := sessions[i].revoked || sessions[i].user == user)
  {
    if sessions == [] then [] else
    var last := sessions[|sessions| - 1];
    RevokeUser(sessions[..|sessions| - 1], user) + [last.(revoked := last.revoked || last.user == user)]
  }

  function UseUser(resets: seq<ResetToken>, user: int): (r: seq<ResetToken>)
    ensures |r| == |resets|
    ensures forall i :: 0 <= i < |r| ==> r[i] == resets[i].(used := resets[i].used || resets[i].user == user)
  {
    if resets == [] then [] else
    var last := resets[|resets| - 1];
    UseUser(resets[..|resets| - 1], user) + [last.(used := last.used || last.user == user)]
  }

  function Landed(s: State, req: int, outcome: Outcome): State {
    s.(flights := s.flights - {req}, log := s.log + [outcome])
  }

  /** Marking one unused token of a user first makes no difference to marking all of them. */
  lemma {:induction false} UsedFirst(resets: seq<ResetToken>, id: nat)
    requires id < |resets|
    ensures UseUser(resets[id := resets[id].(used := true)], resets[id].user) == UseUser(resets, resets[id].user)
  {
    var user, marked := resets[id].user, resets[id := resets[id].(used := true)];
    assert UseUser(marked, user) == UseUser(resets, user);
  }

  // ---- Steps -----------------------------------------------------------------------------------------

  function LoginStep(s: State, user: int, hash: int, expiresAt: int): State {
    if user !in s.active || FindSession(s.sessions, hash).Some? then s
    else s.(sessions := s.sessions + [Session(user, hash, expiresAt, false, |s.sessions|)])
  }

  /** The read of a refresh, and which write follows from it. */
  function ReadTokenStep(s: State, req: int, hash: int, now: int): State {
    if req in s.flights then s else
    match FindSession(s.sessions, hash)
    case None => Landed(s, req, Refused)
    case Some(id) =>
      var session := s.sessions[id];
      if session.revoked then s.(flights := s.flights[req := Revoking(session.user)])
      else if session.expiresAt < now then s.(flights := s.flights[req := Expiring(id)])
      else if session.user !in s.active then Landed(s, req, Refused)
      else s.(flights := s.flights[req := Rotating(id)])
  }

  predicate Rotatable(s: State, id: nat, now: int) {
    id < |s.sessions| && !s.sessions[id].revoked && s.sessions[id].expiresAt > now
  }

  /** The rotation transaction; a clash on the unique hash rolls it back. */
  function RotateStep(s: State, req: int, newHash: int, newExpiry: int, now: int): State {
    if !(req in s.flights && s.flights[req].Rotating? && s.flights[req].id < |s.sessions|) then s else
    var id := s.flights[req].id;
    var session := s.sessions[id];
    if !Rotatable(s, id, now) then
      Landed(s.(sessions := RevokeUser(s.sessions, session.user)), req, ReplayDetected(session.user))
    else if FindSession(s.sessions, newHash).Some? then Landed(s, req, Refused)
    else
      var rotated := s.sessions[id := session.(revoked := true)]
        + [Session(session.user, newHash, newExpiry, false, session.root)];
      Landed(s.(sessions := rotated), req, Rotated(id))
  }

  /** The write of a refresh that read a revoked or an expired session. */
  function RevokeStaleStep(s: State, req: int): State {
    if req !in s.flights then s else
    match s.flights[req]
    case Revoking(user) => Landed(s.(sessions := RevokeUser(s.sessions, user)), req, ReplayDetected(user))
    case Expiring(id) =>
      if id >= |s.sessions| then s
      else Landed(s.(sessions := s.sessions[id := s.sessions[id].(revoked := true)]), req, Refused)
    case _ => s
  }

  function LogoutStep(s: State, user: int, token: Option<int>): State {
    match token
    case None => s.(sessions := RevokeUser(s.sessions, user))
    case Some(hash) =>
      var id := FindSession(s.sessions, hash);
      if id.Some? && s.sessions[id.value].user == user
      then s.(sessions := s.sessions[id.value := s.sessions[id.value].(revoked := true)])
      else s
  }

  function SetActiveStep(s: State, user: int, on: bool): State {
    s.(active := if on then s.active + {user} else s.active - {user})
  }

  function IssueResetStep(s: State, user: int, hash: int, expiresAt: int): State {
    if FindReset(s.resets, hash).Some? then s else s.(resets := s.resets + [ResetToken(user, hash, expiresAt, false)])
  }

  function ReadResetStep(s: State, req: int, hash: int, now: int): State {
    if req in s.flights then s else
    match FindReset(s.resets, hash)
    case None => Landed(s, req, Refused)
    case Some(id) =>
      var token := s.resets[id];
      if token.used || token.expiresAt <= now || token.user !in s.active then Landed(s, req, Refused)
      else s.(flights := s.flights[req := Resetting(id, now)])
  }

  /** The rest of the reset transaction: consume the token, then every other token and every session of the user. */
  function CommitResetStep(s: State, req: int): State {
    if !(req in s.flights && s.flights[req].Resetting? && s.flights[req].token < |s.resets|) then s else
    var token := s.resets[s.flights[req].token];
    if token.used || token.expiresAt <= s.flights[req].now then Landed(s, req, Refused)
    else Landed(s.(resets := UseUser(s.resets, token.user), sessions := RevokeUser(s.sessions, token.user)),
                req, PasswordSet(s.flights[req].token))
  }

  function Step(s: State, e: Event): State {
    match e
    case Login(user, hash, expiresAt) => LoginStep(s, user, hash, expiresAt)
    case ReadToken(req, hash, now) => ReadTokenStep(s, req, hash, now)
    case Rotate(req, newHash, newExpiry, now) => RotateStep(s, req, newHash, newExpiry, now)
    case RevokeStale(req) => RevokeStaleStep(s, req)
    case Logout(user, token) => LogoutStep(s, user, token)
    case SetActive(user, on) => SetActiveStep(s, user, on)
    case IssueReset(user, hash, expiresAt) => IssueResetStep(s, user, hash, expiresAt)
    case ReadReset(req, hash, now) => ReadResetStep(s, req, hash, now)
    case CommitReset(req) => CommitResetStep(s, req)
    case Crash(req) => s.(flights := s.flights - {req})
  }

  function Run(s: State, events: seq<Event>): State {
    if events == [] then s else Step(Run(s, events[..|events| - 1]), events[|events| - 1])
  }

  function Initial(active: set<int>): State { State([], [], active, map[], []) }

  // ---- The service -----------------------------------------------------------------------------------

  class AuthService {
    var sessions: seq<Session>
    var resets: seq<ResetToken>
    var active: set<int>
    var flights: map<int, Flight>
    var log: seq<Outcome>

    function Model(): State
      reads this
    {
      State(sessions, resets, active, flights, log)
    }

    constructor (active: set<int>)
      ensures Model() == Initial(active)
    {
      sessions, resets, this.active, flights, log := [], [], active, map[], [];
    }

    /** findUnique by hash. */
    method Lookup(hash: int) returns (id: Option<nat>)
      ensures id == FindSession(sessions, hash)
    {
      assert sessions[..|sessions|] == sessions;
      var i := |sessions|;
      while i > 0 && sessions[i - 1].hash != hash
        invariant 0 <= i <= |sessions|
        invariant FindSession(sessions[..i], hash) == FindSession(sessions, hash)
      {
        assert sessions[..i][..i - 1] == sessions[..i - 1];
        i := i - 1;
      }
      id := if i > 0 then Some(i - 1) else None;
    }

    /** updateMany: revoke what is still live of a user. */
    method RevokeSessionsOf(user: int)
      modifies this`sessions
      ensures sessions == RevokeUser(old(sessions), user)
    {
      for i := 0 to |sessions|
        invariant |sessions| == |old(sessions)|
        invariant forall k :: 0 <= k < |sessions| ==> sessions[k] == if k < i then RevokeUser(old(sessions), user)[k]
          else old(sessions)[k]
      {
        if sessions[i].user == user && !sessions[i].revoked {
          sessions := sessions[i := sessions[i].(revoked := true)];
        }
      }
    }

    method UseTokensOf(user: int)
      modifies this`resets
      ensures resets == UseUser(old(resets), user)
    {
      for i := 0 to |resets|
        invariant |resets| == |old(resets)|
        invariant forall k :: 0 <= k < |resets| ==> resets[k] == if k < i then UseUser(old(resets), user)[k]
          else old(resets)[k]
      {
        if resets[i].user == user && !resets[i].used { resets := resets[i := resets[i].(used := true)]; }
      }
    }

    method Answer(req: int, outcome: Outcome)
      modifies this`flights, this`log
      ensures Model() == Landed(old(Model()), req, outcome)
    {
      flights := flights - {req};
      log := log + [outcome];
    }

    method ReadSession(req: int, hash: int, now: int)
      requires req !in flights
      modifies this
      ensures Model() == ReadTokenStep(old(Model()), req, hash, now)
    {
      var found := Lookup(hash);
      if found.None? { Answer(req, Refused); return; }
      var session := sessions[found.value];
      if session.revoked {
        flights := flights[req := Revoking(session.user)];
      } else if session.expiresAt < now {
        flights := flights[req := Expiring(found.value)];
      } else if session.user !in active {
        Answer(req, Refused);
      } else {
        flights := flights[req := Rotating(found.value)];
      }
    }

    method RotateSession(req: int, newHash: int, newExpiry: int, now: int)
      requires req in flights && flights[req].Rotating? && flights[req].id < |sessions|
      modifies this
      ensures Model() == RotateStep(old(Model()), req, newHash, newExpiry, now)
    {
      var id := flights[req].id;
      var session := sessions[id];
      var taken := Lookup(newHash);
      var count := 0;
      if !session.revoked && session.expiresAt > now { count := 1; }
      if count != 1 {
        RevokeSessionsOf(session.user);
        Answer(req, ReplayDetected(session.user));
      } else if taken.Some? {
        Answer(req, Refused);
      } else {
        sessions := sessions[id := session.(revoked := true)];
        sessions := sessions + [Session(session.user, newHash, newExpiry, false, session.root)];
        Answer(req, Rotated(id));
      }
    }

    method RevokeAfterRead(req: int)
      requires req in flights && (flights[req].Revoking? || (flights[req].Expiring? && flights[req].id < |sessions|))
      modifies this
      ensures Model() == RevokeStaleStep(old(Model()), req)
    {
      var flight := flights[req];
      if flight.Revoking? {
        RevokeSessionsOf(flight.user);
        Answer(req, ReplayDetected(flight.user));
      } else {
        sessions := sessions[flight.id := sessions[flight.id].(revoked := true)];
        Answer(req, Refused);
      }
    }

    method SignOut(user: int, token: Option<int>)
      modifies this
      ensures Model() == LogoutStep(old(Model()), user, token)
    {
      if token.None? { RevokeSessionsOf(user); return; }
      var id := Lookup(token.value);
      if id.Some? && sessions[id.value].user == user {
        sessions := sessions[id.value := sessions[id.value].(revoked := true)];
      }
    }

    /** Uses the token, and then every other one of its user. */
    method SpendToken(id: nat)
      requires id < |resets|
      modifies this`resets
      ensures resets == UseUser(old(resets), old(resets)[id].user)
    {
      UsedFirst(resets, id);
      hide UseUser;
      var user := resets[id].user;
      resets := resets[id := resets[id].(used := true)];
      UseTokensOf(user);
    }

    method ResetPassword(req: int)
      requires req in flights && flights[req].Resetting? && flights[req].token < |resets|
      modifies this
      ensures Model() == CommitResetStep(old(Model()), req)
    {
      var id, now := flights[req].token, flights[req].now;
      var token := resets[id];
      if token.used || token.expiresAt <= now { Answer(req, Refused); return; }
      hide UseUser, RevokeUser;
      SpendToken(id);
      RevokeSessionsOf(token.user);
      Answer(req, PasswordSet(id));
    }
  }
}

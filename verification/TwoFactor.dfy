/** Two-factor state of one administrator: setup, confirmation, use of one-time codes and recovery codes, and turning
    it off, one request after another. Secrets, codes and code hashes are numbers; `codeOf` is the one-time code of a
    secret at a time step, about which nothing is known. */
module TwoFactor {
  import opened Options

  const DRIFT_WINDOW := 1

  datatype Row = Row(enabled: bool, secret: Option<int>, pending: Option<int>, recovery: seq<int>,
      lastUsedStep: Option<int>)

  /** What the user typed: its value if it is six digits, and its hash as a recovery code. */
  datatype Code = Code(sixDigits: Option<int>, hash: int)

  // ---- One-time codes ------------------------------------------------------------------------------------

  predicate Matches(codeOf: (int, int) -> int, secret: int, code: int, last: Option<int>, step: int) {
    !(last.Some? && step <= last.value) && codeOf(secret, step) == code
  }

  /** The earliest step from `from` to `upto` that matches. */
  function FirstMatch(codeOf: (int, int) -> int, secret: int, code: int, last: Option<int>, from: int,
      upto: int): (r: Option<int>)
    ensures r.Some? ==> from <= r.value <= upto && Matches(codeOf, secret, code, last, r.value)
    ensures r.Some? ==> forall step :: from <= step < r.value ==> !Matches(codeOf, secret, code, last, step)
    ensures r.None? ==> forall step :: from <= step <= upto ==> !Matches(codeOf, secret, code, last, step)
    decreases upto - from
  {
    if from > upto then None
    else if Matches(codeOf, secret, code, last, from) then Some(from)
    else FirstMatch(codeOf, secret, code, last, from + 1, upto)
  }

  function Verify(codeOf: (int, int) -> int, secret: int, code: Code, current: int, last: Option<int>): Option<int> {
    if code.sixDigits.None? then None
    else FirstMatch(codeOf, secret, code.sixDigits.value, last, current - DRIFT_WINDOW, current + DRIFT_WINDOW)
  }

  method VerifyTotp(codeOf: (int, int) -> int, secret: int, code: Code, current: int, last: Option<int>)
      returns (step: Option<int>)
    ensures step == Verify(codeOf, secret, code, current, last)
  {
    if code.sixDigits.None? { return None; }
    var offset := -DRIFT_WINDOW;
    while offset <= DRIFT_WINDOW
      invariant -DRIFT_WINDOW <= offset <= DRIFT_WINDOW + 1
      invariant FirstMatch(codeOf, secret, code.sixDigits.value, last, current + offset, current + DRIFT_WINDOW)
        == Verify(codeOf, secret, code, current, last)
    {
      var candidate := current + offset;
      offset := offset + 1;
      if last.Some? && candidate <= last.value { continue; }
      if codeOf(secret, candidate) == code.sixDigits.value { return Some(candidate); }
    }
    step := None;
  }

  /** A code is accepted exactly when it belongs to a step within the drift window that is later than the last one
      used; the step reported is the earliest such. */
  lemma VerifyIff(codeOf: (int, int) -> int, secret: int, code: Code, current: int, last: Option<int>)
    ensures var r := Verify(codeOf, secret, code, current, last);
      && (r.Some? <==> code.sixDigits.Some? && exists step ::
            (current - 1 <= step <= current + 1 && (last.Some? ==> last.value < step)
              && codeOf(secret, step) == code.sixDigits.value))
      && (r.Some? ==>
            && current - 1 <= r.value <= current + 1 && (last.Some? ==> last.value < r.value)
            && codeOf(secret, r.value) == code.sixDigits.value)
      && (r.Some? ==> forall step :: current - 1 <= step < r.value && (last.Some? ==> last.value < step) ==>
        codeOf(secret, step) != code.sixDigits.value)
  {
    var r := Verify(codeOf, secret, code, current, last);
    if r.Some? {
      assert codeOf(secret, r.value) == code.sixDigits.value;
      forall step | current - 1 <= step < r.value && (last.Some? ==> last.value < step)
        ensures codeOf(secret, step) != code.sixDigits.value
      {
        assert !Matches(codeOf, secret, code.sixDigits.value, last, step);
      }
    } else if code.sixDigits.Some? {
      forall step | current - 1 <= step <= current + 1 && (last.Some? ==> last.value < step)
        ensures codeOf(secret, step) != code.sixDigits.value
      {
        assert !Matches(codeOf, secret, code.sixDigits.value, last, step);
      }
    }
  }

  // ---- The state machine ---------------------------------------------------------------------------------

  /** What has been accepted since two-factor was last turned on. */
  datatype Accepted = Totp(step: int) | Recovery(hash: int)

  /** `issued` and `accepted` are history: the recovery hashes handed out at the last enable, and what was accepted
      since. */
  datatype State = State(row: Option<Row>, issued: seq<int>, accepted: seq<Accepted>)

  datatype Event =
    | StartSetup(passwordOk: bool, secret: int)
    | Enable(code: Code, current: int, hashes: seq<int>)
    | Disable(passwordOk: bool, code: Code, current: int, decrypts: bool)
    | AdminReset
    | SecondFactor(code: Code, current: int, decrypts: bool)

  function IndexOf(hashes: seq<int>, hash: int): (r: Option<nat>)
    ensures r.Some? ==> r.value < |hashes| && hashes[r.value] == hash
    ensures r.None? ==> forall i :: 0 <= i < |hashes| ==> hashes[i] != hash
  {
    if hashes == [] then None
    else if hashes[0] == hash then Some(0)
    else match IndexOf(hashes[1..], hash) case None => None case Some(i) => Some(i + 1)
  }

  function Spliced(hashes: seq<int>, i: nat): seq<int>
    requires i < |hashes|
  {
    hashes[..i] + hashes[i + 1..]
  }

  function On(s: State): bool { s.row.Some? && s.row.value.enabled }

  /** consumeSecondFactor: the new state, and whether the code was accepted. */
  function Consume(codeOf: (int, int) -> int, s: State, code: Code, current: int, decrypts: bool): (State, bool)
    requires s.row.Some?
  {
    var row := s.row.value;
    if row.secret.Some? && code.sixDigits.Some? then
      var step := if decrypts then Verify(codeOf, row.secret.value, code, current, row.lastUsedStep) else None;
      if step.None? then (s, false) else
      var last := if row.lastUsedStep.Some? then row.lastUsedStep.value else 0;
      (State(Some(row.(lastUsedStep := Some(if step.value > last then step.value else last))), s.issued,
        s.accepted + [Totp(step.value)]), true)
    else
      var i := IndexOf(row.recovery, code.hash);
      if i.None? then (s, false) else
      (State(Some(row.(recovery := Spliced(row.recovery, i.value),
                       lastUsedStep := if row.lastUsedStep.Some? then row.lastUsedStep else Some(current))),
             s.issued, s.accepted + [Recovery(code.hash)]), true)
  }

  const OFF := Row(false, None, None, [], None)

  function Step(codeOf: (int, int) -> int, s: State, e: Event): State {
    match e
    case StartSetup(passwordOk, secret) =>
      if !passwordOk || On(s) then s else State(Some(OFF.(pending := Some(secret))), [], [])
    case Enable(code, current, hashes) =>
      if On(s) || s.row.None? || s.row.value.pending.None? then s else
      var step := Verify(codeOf, s.row.value.pending.value, code, current, None);
      if step.None? then s
      else State(Some(Row(true, s.row.value.pending, None, hashes, step)), hashes, [Totp(step.value)])
    case Disable(passwordOk, code, current, decrypts) =>
      if !passwordOk || !On(s) then s
      else if Consume(codeOf, s, code, current, decrypts).1 then State(Some(OFF), [], []) else s
    case AdminReset => State(Some(OFF), [], [])
    case SecondFactor(code, current, decrypts) =>
      if !On(s) then s else Consume(codeOf, s, code, current, decrypts).0
  }

  function Run(codeOf: (int, int) -> int, s: State, events: seq<Event>): State {
    if events == [] then s else Step(codeOf, Run(codeOf, s, events[..|events| - 1]), events[|events| - 1])
  }

  function CountHash(hashes: seq<int>, hash: int): nat {
    if hashes == [] then 0 else (if hashes[0] == hash then 1 else 0) + CountHash(hashes[1..], hash)
  }

  function Uses(accepted: seq<Accepted>, hash: int): nat {
    if accepted == [] then 0
    else Uses(accepted[..|accepted| - 1], hash) + (if accepted[|accepted| - 1] == Recovery(hash) then 1 else 0)
  }

  /** A row stored before the history begins counts as handed out then. */
  predicate Begins(s: State) {
    s.accepted == [] && (s.row.Some? ==> s.issued == s.row.value.recovery) && (s.row.None? ==> s.issued == [])
  }

  predicate StepsIncrease(accepted: seq<Accepted>) {
    forall i, k :: 0 <= i < k < |accepted| && accepted[i].Totp? && accepted[k].Totp? ==>
      accepted[i].step < accepted[k].step
  }

  predicate StepsUpTo(accepted: seq<Accepted>, last: Option<int>) {
    forall i :: 0 <= i < |accepted| && accepted[i].Totp? ==> last.Some? && accepted[i].step <= last.value
  }

  /** Accepted steps rise and the stored step is not behind them; nothing is accepted while it is off. */
  predicate StepsInv(s: State) {
    && StepsIncrease(s.accepted)
    && (s.row.Some? ==> StepsUpTo(s.accepted, s.row.value.lastUsedStep))
    && (s.row.None? ==> s.accepted == [])
  }

  lemma StepsStep(codeOf: (int, int) -> int, s: State, e: Event)
    requires StepsInv(s)
    ensures StepsInv(Step(codeOf, s, e))
  {}

  lemma {:induction false} RunSteps(codeOf: (int, int) -> int, s: State, events: seq<Event>)
    requires Begins(s)
    ensures StepsInv(Run(codeOf, s, events))
  {
    hide Step;
    if events != [] {
      RunSteps(codeOf, s, events[..|events| - 1]);
      StepsStep(codeOf, Run(codeOf, s, events[..|events| - 1]), events[|events| - 1]);
    }
  }

  /** While one secret stays enabled, the steps accepted for it, the confirming one included, strictly increase: no
      step is accepted twice. */
  lemma StepsNeverRepeat(codeOf: (int, int) -> int, s: State, events: seq<Event>, i: nat, k: nat)
    requires Begins(s)
    requires var accepted := Run(codeOf, s, events).accepted;
      i < k < |accepted| && accepted[i].Totp? && accepted[k].Totp?
    ensures var accepted := Run(codeOf, s, events).accepted; accepted[i].step < accepted[k].step
  {
    RunSteps(codeOf, s, events);
  }

  // ---- Recovery codes --------------------------------------------------------------------------------------

  lemma {:induction false} CountAppend(a: seq<int>, b: seq<int>, hash: int)
    ensures CountHash(a + b, hash) == CountHash(a, hash) + CountHash(b, hash)
  {
    if a == [] {
      assert a + b == b;
    } else {
      CountAppend(a[1..], b, hash);
      assert (a + b)[1..] == a[1..] + b;
    }
  }

  /** Removing one position takes one occurrence of its hash and nothing else. */
  lemma SpliceCount(hashes: seq<int>, i: nat, hash: int)
    requires i < |hashes|
    ensures CountHash(Spliced(hashes, i), hash) == CountHash(hashes, hash) - (if hashes[i] == hash then 1 else 0)
  {
    CountAppend(hashes[..i], hashes[i + 1..], hash);
    CountAppend(hashes[..i], hashes[i..], hash);
    assert hashes == hashes[..i] + hashes[i..] && hashes[i..][1..] == hashes[i + 1..];
  }

  predicate Balanced(s: State, hash: int) {
    CountHash(if s.row.Some? then s.row.value.recovery else [], hash) + Uses(s.accepted, hash)
      == CountHash(s.issued, hash)
  }

  lemma UsesSnoc(accepted: seq<Accepted>, a: Accepted, hash: int)
    ensures Uses(accepted + [a], hash) == Uses(accepted, hash) + (if a == Recovery(hash) then 1 else 0)
  {
    assert (accepted + [a])[..|accepted|] == accepted;
  }

  lemma ConsumeBalanced(codeOf: (int, int) -> int, s: State, code: Code, current: int, decrypts: bool, hash: int)
    requires s.row.Some? && Balanced(s, hash)
    ensures Balanced(Consume(codeOf, s, code, current, decrypts).0, hash)
  {
    hide CountHash, Uses, Verify, Spliced;
    var (t, ok) := Consume(codeOf, s, code, current, decrypts);
    if ok {
      UsesSnoc(s.accepted, t.accepted[|s.accepted|], hash);
      if t.accepted[|s.accepted|].Recovery? {
        SpliceCount(s.row.value.recovery, IndexOf(s.row.value.recovery, code.hash).value, hash);
      }
    }
  }

  lemma TotpIsNoUse(step: int, hash: int)
    ensures Uses([Totp(step)], hash) == 0
  {}

  lemma BalancedStep(codeOf: (int, int) -> int, s: State, e: Event, hash: int)
    requires Balanced(s, hash)
    ensures Balanced(Step(codeOf, s, e), hash)
  {
    hide Verify, Consume;
    forall step { TotpIsNoUse(step, hash); }
    if e.SecondFactor? && On(s) { ConsumeBalanced(codeOf, s, e.code, e.current, e.decrypts, hash); }
  }

  /** Conservation of recovery codes: those stored and those used since they were handed out make up those handed
      out, hash by hash. So each use removes exactly one, and none is used more often than it was issued. */
  lemma {:induction false} RecoveryConserved(codeOf: (int, int) -> int, s: State, events: seq<Event>, hash: int)
    requires Begins(s)
    ensures Balanced(Run(codeOf, s, events), hash)
  {
    hide Step;
    if events != [] {
      RecoveryConserved(codeOf, s, events[..|events| - 1], hash);
      BalancedStep(codeOf, Run(codeOf, s, events[..|events| - 1]), events[|events| - 1], hash);
    }
  }

  // ---- Turning it on and off -----------------------------------------------------------------------------

  /** A code counts as second factor: six digits as a one-time code, if there is a secret, and else a recovery code that
      is still stored. */
  ghost predicate Passes(codeOf: (int, int) -> int, row: Row, code: Code, current: int, decrypts: bool) {
    if row.secret.Some? && code.sixDigits.Some? then
      decrypts && exists step ::
        current - 1 <= step <= current + 1 && codeOf(row.secret.value, step) == code.sixDigits.value &&
        (row.lastUsedStep.Some? ==> row.lastUsedStep.value < step)
    else code.hash in row.recovery
  }

  /** A second factor that passes takes the first code of its hash from the row, or moves the last step on; nothing else
      of the row changes, and nothing at all if it does not pass. */
  lemma ConsumedIs(codeOf: (int, int) -> int, s: State, code: Code, current: int, decrypts: bool)
    requires s.row.Some?
    ensures var (t, ok) := Consume(codeOf, s, code, current, decrypts); var row := s.row.value;
      && (ok <==> Passes(codeOf, row, code, current, decrypts)) && (!ok ==> t == s)
      && (ok ==> t.row.Some? && t.row.value == row.(recovery := t.row.value.recovery,
                                                    lastUsedStep := t.row.value.lastUsedStep))
      && (ok && row.secret.Some? && code.sixDigits.Some? ==>
            && t.row.value.recovery == row.recovery && t.row.value.lastUsedStep.Some?
            && var step := Verify(codeOf, row.secret.value, code, current, row.lastUsedStep);
               step.Some? && t.accepted == s.accepted + [Totp(step.value)]
               && (step.value >= 0 ==> t.row.value.lastUsedStep == step))
      && (ok && !(row.secret.Some? && code.sixDigits.Some?) ==>
            && t.accepted == s.accepted + [Recovery(code.hash)]
            && t.row.value.lastUsedStep == Some(if row.lastUsedStep.Some? then row.lastUsedStep.value else current)
            && exists i :: 0 <= i < |row.recovery| && row.recovery[i] == code.hash && code.hash !in row.recovery[..i]
                 && t.row.value.recovery == row.recovery[..i] + row.recovery[i + 1..])
  {
    var row := s.row.value;
    if row.secret.Some? && code.sixDigits.Some? {
      VerifyIff(codeOf, row.secret.value, code, current, row.lastUsedStep);
      hide Verify;
    } else {
      var i := IndexOf(row.recovery, code.hash);
      if i.Some? { FirstIndex(row.recovery, code.hash); }
    }
  }

  lemma {:induction false} FirstIndex(hashes: seq<int>, hash: int)
    requires IndexOf(hashes, hash).Some?
    ensures hash !in hashes[..IndexOf(hashes, hash).value]
  {
    if hashes[0] != hash {
      FirstIndex(hashes[1..], hash);
      var i := IndexOf(hashes, hash).value;
      assert hashes[..i] == [hashes[0]] + hashes[1..][..i - 1];
    }
  }

  /** A setup needs the password and starts over unless two-factor is on; it comes on with a code of the pending secret
      and the new recovery codes, and goes off with the password and a second factor, or by an administrator's reset. */
  lemma SwitchedIs(codeOf: (int, int) -> int, s: State, e: Event)
    requires !e.SecondFactor?
    ensures var t := Step(codeOf, s, e); var on := s.row.Some? && s.row.value.enabled;
      var off := Row(enabled := false, secret := None, pending := None, recovery := [], lastUsedStep := None);
      match e
      case StartSetup(passwordOk, secret) =>
        t == if passwordOk && !on then State(Some(off.(pending := Some(secret))), [], []) else s
      case Enable(code, current, hashes) =>
        if !on && s.row.Some? && s.row.value.pending.Some?
             && Verify(codeOf, s.row.value.pending.value, code, current, None).Some?
        then
          var step := Verify(codeOf, s.row.value.pending.value, code, current, None).value;
          t == State(row := Some(Row(enabled := true, secret := s.row.value.pending, pending := None,
                                     recovery := hashes, lastUsedStep := Some(step))),
                     issued := hashes, accepted := [Totp(step)])
        else t == s
      case Disable(passwordOk, code, current, decrypts) =>
        t == if passwordOk && on && Passes(codeOf, s.row.value, code, current, decrypts)
             then State(Some(off), [], []) else s
      case AdminReset => t == State(Some(off), [], [])
      case _ => true
  {
    if e.Disable? && s.row.Some? { ConsumedIs(codeOf, s, e.code, e.current, e.decrypts); }
    hide Verify, Consume, Passes;
  }

  // ---- The stored row ----------------------------------------------------------------------------------------

  class TwoFactorService {
    var row: Option<Row>
    ghost var issued: seq<int>
    ghost var accepted: seq<Accepted>

    ghost function Model(): State
      reads this
    {
      State(row, issued, accepted)
    }

    constructor ()
      ensures Begins(Model()) && row.None?
    {
      row, issued, accepted := None, [], [];
    }

    method Setup(passwordOk: bool, secret: int, codeOf: (int, int) -> int) returns (ok: bool)
      modifies this
      ensures Model() == Step(codeOf, old(Model()), StartSetup(passwordOk, secret))
      ensures ok <==> passwordOk && !old(On(Model()))
    {
      if !passwordOk || (row.Some? && row.value.enabled) { return false; }
      row, issued, accepted := Some(OFF.(pending := Some(secret))), [], [];
      ok := true;
    }

    method TurnOn(code: Code, current: int, hashes: seq<int>, codeOf: (int, int) -> int) returns (ok: bool)
      modifies this
      ensures Model() == Step(codeOf, old(Model()), Enable(code, current, hashes))
    {
      if row.None? || row.value.enabled || row.value.pending.None? { return false; }
      var step := VerifyTotp(codeOf, row.value.pending.value, code, current, None);
      if step.None? { return false; }
      row := Some(Row(true, row.value.pending, None, hashes, step));
      issued, accepted := hashes, [Totp(step.value)];
      ok := true;
    }

    method ConsumeSecondFactor(code: Code, current: int, decrypts: bool, codeOf: (int, int) -> int) returns (ok: bool)
      requires row.Some?
      modifies this
      ensures (Model(), ok) == Consume(codeOf, old(Model()), code, current, decrypts)
    {
      var state := row.value;
      if state.secret.Some? && code.sixDigits.Some? {
        if decrypts {
          var step := VerifyTotp(codeOf, state.secret.value, code, current, state.lastUsedStep);
          if step.Some? {
            var last := if state.lastUsedStep.Some? then state.lastUsedStep.value else 0;
            row := Some(state.(lastUsedStep := Some(if step.value > last then step.value else last)));
            accepted := accepted + [Totp(step.value)];
            return true;
          }
        }
        return false;
      }
      var index := IndexOf(state.recovery, code.hash);
      if index.None? { return false; }
      var remaining := state.recovery[..index.value] + state.recovery[index.value + 1..];
      row := Some(state.(recovery := remaining,
        lastUsedStep := if state.lastUsedStep.Some? then state.lastUsedStep else Some(current)));
      accepted := accepted + [Recovery(code.hash)];
      ok := true;
    }

    method TurnOff(passwordOk: bool, code: Code, current: int, decrypts: bool, codeOf: (int, int) -> int)
        returns (ok: bool)
      modifies this
      ensures Model() == Step(codeOf, old(Model()), Disable(passwordOk, code, current, decrypts))
    {
      if !passwordOk || row.None? || !row.value.enabled { return false; }
      var used := ConsumeSecondFactor(code, current, decrypts, codeOf);
      if !used { return false; }
      row, issued, accepted := Some(OFF), [], [];
      ok := true;
    }
  }
}

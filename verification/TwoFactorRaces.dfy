/** Second factors that overlap. A request reads the stored row, checks its code against what it has read, and saves the
    whole row without looking again; the read and the save are separate steps, and others may come in between. */
module TwoFactorRaces {
  import opened Options
  import opened TwoFactor

  /** A request that has read the row, and its code. */
  datatype Flight = Flight(seen: Row, code: Code, current: int, decrypts: bool)

  datatype World = World(s: State, flights: map<nat, Flight>)

  datatype Event = Read(id: nat, code: Code, current: int, decrypts: bool) | Save(id: nat) | Stop(id: nat)

  /** What a request does to the state, checked against the row it has read. */
  function Saved(codeOf: (int, int) -> int, s: State, f: Flight): (State, bool) {
    Consume(codeOf, s.(row := Some(f.seen)), f.code, f.current, f.decrypts)
  }

  function Step(codeOf: (int, int) -> int, w: World, e: Event): World {
    match e
    case Read(id, code, current, decrypts) =>
      if id in w.flights || !On(w.s) then w
        else w.(flights := w.flights[id := Flight(w.s.row.value, code, current, decrypts)])
    case Save(id) =>
      if id !in w.flights then w else
      var (saved, ok) := Saved(codeOf, w.s, w.flights[id]);
      World(if ok then saved else w.s, w.flights - {id})
    case Stop(id) => w.(flights := w.flights - {id})
  }

  function Interleaved(codeOf: (int, int) -> int, w: World, es: seq<Event>): World {
    if es == [] then w else Step(codeOf, Interleaved(codeOf, w, es[..|es| - 1]), es[|es| - 1])
  }

  /** What the service promises: no step is accepted twice, and every recovery code handed out is either stored or used,
      as often as it was handed out. */
  ghost predicate Promised(s: State) { On(s) && StepsInv(s) && forall hash :: Balanced(s, hash) }

  ghost predicate SameCodes(a: Row, b: Row) {
    forall hash :: CountHash(a.recovery, hash) == CountHash(b.recovery, hash)
  }

  /** Up to date, in terms of the history: the stored recovery codes are those the request has read; the step it accepts
      is later than every accepted one, or, for a recovery code, the step it saves is behind none. */
  ghost predicate UpToDate(codeOf: (int, int) -> int, s: State, f: Flight)
    requires s.row.Some?
  {
    && SameCodes(f.seen, s.row.value)
    && var (saved, ok) := Saved(codeOf, s, f);
       ok && saved.row.Some? && |saved.accepted| == |s.accepted| + 1
       && (match saved.accepted[|s.accepted|]
           case Totp(step) => Later(s.accepted, step)
           case Recovery(_) => StepsUpTo(s.accepted, saved.row.value.lastUsedStep))
  }

  predicate Later(accepted: seq<Accepted>, step: int) {
    forall i :: 0 <= i < |accepted| && accepted[i].Totp? ==> accepted[i].step < step
  }

  lemma SavedShape(codeOf: (int, int) -> int, s: State, f: Flight)
    requires f.seen.enabled && Saved(codeOf, s, f).1
    ensures var t := Saved(codeOf, s, f).0;
      && t.row.Some? && t.row.value.enabled && t.issued == s.issued
      && |t.accepted| == |s.accepted| + 1 && t.accepted == s.accepted + [t.accepted[|s.accepted|]]
      && (match t.accepted[|s.accepted|]
          case Totp(step) => t.row.value.recovery == f.seen.recovery && t.row.value.lastUsedStep.Some?
            && step <= t.row.value.lastUsedStep.value
          case Recovery(hash) =>
            && hash == f.code.hash && IndexOf(f.seen.recovery, hash).Some?
            && t.row.value.recovery == Spliced(f.seen.recovery, IndexOf(f.seen.recovery, hash).value))
  {
    hide Verify, Spliced;
  }

  /** Hash by hash: the saved row balances exactly if the row read held as many codes of that hash as the stored one. */
  lemma BalancedAfter(codeOf: (int, int) -> int, s: State, f: Flight, hash: int)
    requires f.seen.enabled && Saved(codeOf, s, f).1 && s.row.Some? && Balanced(s, hash)
    ensures Balanced(Saved(codeOf, s, f).0, hash) <==>
      CountHash(f.seen.recovery, hash) == CountHash(s.row.value.recovery, hash)
  {
    SavedShape(codeOf, s, f);
    hide CountHash, Uses, Saved, Spliced;
    var t := Saved(codeOf, s, f).0;
    var a := t.accepted[|s.accepted|];
    UsesSnoc(s.accepted, a, hash);
    if a.Recovery? { SpliceCount(f.seen.recovery, IndexOf(f.seen.recovery, a.hash).value, hash); }
  }

  lemma StepsAfter(codeOf: (int, int) -> int, s: State, f: Flight)
    requires f.seen.enabled && Saved(codeOf, s, f).1 && s.row.Some? && StepsInv(s)
    ensures var t := Saved(codeOf, s, f).0;
      |t.accepted| == |s.accepted| + 1 && t.row.Some? &&
      (StepsInv(t) <==> match t.accepted[|s.accepted|]
                        case Totp(step) => Later(s.accepted, step)
                        case Recovery(_) => StepsUpTo(s.accepted, t.row.value.lastUsedStep))
  {
    SavedShape(codeOf, s, f);
    hide Saved, Spliced;
    var t, n := Saved(codeOf, s, f).0, |s.accepted|;
    assert forall i :: 0 <= i < n ==> t.accepted[i] == s.accepted[i];
    if t.accepted[n].Totp? {
      var step := t.accepted[n].step;
      if StepsInv(t) { assert forall i :: 0 <= i < n && s.accepted[i].Totp? ==> t.accepted[i].step < step; }
    } else if StepsInv(t) {
      assert forall i :: 0 <= i < n && s.accepted[i].Totp? ==> t.accepted[i].step <= t.row.value.lastUsedStep.value;
    }
  }

  /** A request that is accepted keeps the promises exactly if what it has read is still up to date, in the
      sense above. */
  lemma SaveKeepsIff(codeOf: (int, int) -> int, w: World, id: nat)
    requires Promised(w.s) && id in w.flights && w.flights[id].seen.enabled && Saved(codeOf, w.s, w.flights[id]).1
    ensures Promised(Step(codeOf, w, Save(id)).s) <==> UpToDate(codeOf, w.s, w.flights[id])
  {
    var f := w.flights[id];
    var t := Step(codeOf, w, Save(id)).s;
    assert t == Saved(codeOf, w.s, f).0;
    SavedShape(codeOf, w.s, f);
    StepsAfter(codeOf, w.s, f);
    hide Saved, StepsInv, Balanced, CountHash, Later, StepsUpTo;
    forall hash
      ensures Balanced(t, hash) <==> CountHash(f.seen.recovery, hash) == CountHash(w.s.row.value.recovery, hash)
    {
      BalancedAfter(codeOf, w.s, f, hash);
    }
  }

  /** Every request whose code is accepted saves what is up to date. */
  ghost predicate AllUpToDate(codeOf: (int, int) -> int, w: World, es: seq<Event>) {
    es == [] ||
    (AllUpToDate(codeOf, w, es[..|es| - 1])
      && SavesUpToDate(codeOf, Interleaved(codeOf, w, es[..|es| - 1]), es[|es| - 1]))
  }

  ghost predicate SavesUpToDate(codeOf: (int, int) -> int, w: World, e: Event) {
    e.Save? && e.id in w.flights && Saved(codeOf, w.s, w.flights[e.id]).1 ==>
      w.s.row.Some? && UpToDate(codeOf, w.s, w.flights[e.id])
  }

  ghost predicate SeenOn(w: World) { forall id :: id in w.flights ==> w.flights[id].seen.enabled }

  lemma SeenOnStep(codeOf: (int, int) -> int, w: World, e: Event)
    requires SeenOn(w)
    ensures SeenOn(Step(codeOf, w, e))
  {}

  /** In every interleaving of requests the promises hold at every point if and only if each accepted request saves what
      is up to date at that moment. */
  lemma {:induction false} PromisesHoldIff(codeOf: (int, int) -> int, w: World, es: seq<Event>)
    requires Promised(w.s) && w.flights == map[]
    ensures (forall n :: 0 <= n <= |es| ==> Promised(Interleaved(codeOf, w, es[..n]).s)) <==> AllUpToDate(codeOf, w, es)
    ensures SeenOn(Interleaved(codeOf, w, es))
  {
    hide Step, Promised, SavesUpToDate, SeenOn;
    if es == [] {
      NobodySeen(w);
    } else {
      var init, e, k := es[..|es| - 1], es[|es| - 1], |es| - 1;
      PromisesHoldIff(codeOf, w, init);
      assert forall n :: 0 <= n <= k ==> init[..n] == es[..n];
      assert es[..|es|] == es && init[..k] == init;
      var s := Interleaved(codeOf, w, init);
      SeenOnStep(codeOf, s, e);
      if Promised(s.s) { StepKeepsIff(codeOf, s, e); }
      assert Interleaved(codeOf, w, es) == Step(codeOf, s, e);
    }
  }

  lemma NobodySeen(w: World)
    requires w.flights == map[]
    ensures SeenOn(w)
  {}

  lemma StepKeepsIff(codeOf: (int, int) -> int, w: World, e: Event)
    requires Promised(w.s) && SeenOn(w)
    ensures Promised(Step(codeOf, w, e).s) <==> SavesUpToDate(codeOf, w, e)
  {
    if e.Save? && e.id in w.flights && Saved(codeOf, w.s, w.flights[e.id]).1 {
      hide Saved, UpToDate, Promised, Step;
      SaveKeepsIff(codeOf, w, e.id);
      assert On(w.s) by { StillOn(w.s); }
    } else {
      hide Saved, Promised, UpToDate;
      assert Step(codeOf, w, e).s == w.s;
    }
  }

  lemma StillOn(s: State)
    requires Promised(s)
    ensures On(s)
  {}

  /** Requests that do not overlap are up to date: the row is the one they have read. */
  lemma AloneIsUpToDate(codeOf: (int, int) -> int, w: World, id: nat)
    requires Promised(w.s) && id in w.flights && Saved(codeOf, w.s, w.flights[id]).1
      && w.flights[id].seen == w.s.row.value
    ensures UpToDate(codeOf, w.s, w.flights[id])
  {
    var f := w.flights[id];
    assert w.s.(row := Some(f.seen)) == w.s;
    StepsStep(codeOf, w.s, SecondFactor(f.code, f.current, f.decrypts));
    assert StepsInv(Saved(codeOf, w.s, f).0);
    StepsAfter(codeOf, w.s, f);
  }

  // ---- The guard on the stored row -------------------------------------------------------------------------------

  /** A check of the stored row alone, at the moment of the save: it holds the recovery codes the request has read, and
      its last step is before the accepted one or, for a recovery code, not past the one to be saved. */
  ghost predicate Guarded(codeOf: (int, int) -> int, stored: Row, f: Flight) {
    && SameCodes(f.seen, stored)
    && var (saved, ok) := Saved(codeOf, State(Some(stored), [], []), f);
       ok && saved.row.Some? && |saved.accepted| == 1
       && (match saved.accepted[0]
           case Totp(step) => stored.lastUsedStep.None? || stored.lastUsedStep.value < step
           case Recovery(_) => NotPast(stored.lastUsedStep, saved.row.value.lastUsedStep))
  }

  predicate NotPast(stored: Option<int>, saved: Option<int>) {
    stored.None? || (saved.Some? && stored.value <= saved.value)
  }

  ghost predicate AllGuarded(codeOf: (int, int) -> int, w: World, es: seq<Event>) {
    es == [] ||
    (AllGuarded(codeOf, w, es[..|es| - 1])
      && SavesGuarded(codeOf, Interleaved(codeOf, w, es[..|es| - 1]), es[|es| - 1]))
  }

  ghost predicate SavesGuarded(codeOf: (int, int) -> int, w: World, e: Event) {
    e.Save? && e.id in w.flights && Saved(codeOf, w.s, w.flights[e.id]).1 ==>
      w.s.row.Some? && Guarded(codeOf, w.s.row.value, w.flights[e.id])
  }

  /** Clocks past the first half minute of 1970. */
  predicate PastEpoch(es: seq<Event>) { forall i :: 0 <= i < |es| && es[i].Read? ==> es[i].current >= 1 }

  /** Codes only leave the row while a request is in flight, and while none has left, a last step other than the one
      the request has read is an accepted one. */
  ghost predicate Follows(s: State, f: Flight) {
    && s.row.Some? && f.seen.enabled && f.current >= 1
    && (forall hash :: CountHash(s.row.value.recovery, hash) <= CountHash(f.seen.recovery, hash))
    && (SameCodes(f.seen, s.row.value) ==>
          s.row.value.lastUsedStep == f.seen.lastUsedStep || LastAccepted(s.accepted, s.row.value.lastUsedStep))
  }

  predicate LastAccepted(accepted: seq<Accepted>, last: Option<int>) { last.Some? && Totp(last.value) in accepted }

  ghost predicate AllFollow(w: World) { forall id :: id in w.flights ==> Follows(w.s, w.flights[id]) }

  /** What a request saves and accepts does not depend on the history. */
  lemma SavedAlike(codeOf: (int, int) -> int, s: State, f: Flight)
    requires s.row.Some? && Saved(codeOf, s, f).1
    ensures var t, u := Saved(codeOf, s, f).0, Saved(codeOf, State(s.row, [], []), f);
      u.1 && u.0.row == t.row && |u.0.accepted| == 1 && t.accepted == s.accepted + u.0.accepted
  {
    hide Verify, Spliced;
  }

  /** The last step a request saves: the accepted one, or for a recovery code the one read, if there is one. */
  lemma SavedLast(codeOf: (int, int) -> int, s: State, f: Flight)
    requires f.seen.enabled && f.current >= 1 && Saved(codeOf, s, f).1
    ensures var t := Saved(codeOf, s, f).0;
      && |t.accepted| == |s.accepted| + 1 && t.row.Some?
      && (match t.accepted[|s.accepted|]
          case Totp(step) => t.row.value.lastUsedStep == Some(step)
            && (f.seen.lastUsedStep.Some? ==> f.seen.lastUsedStep.value < step)
          case Recovery(_) => f.seen.lastUsedStep.Some? ==> t.row.value.lastUsedStep == f.seen.lastUsedStep)
  {
    hide Spliced;
  }

  lemma GuardedIffUpToDate(codeOf: (int, int) -> int, s: State, f: Flight)
    requires s.row.Some? && StepsInv(s) && Follows(s, f) && Saved(codeOf, s, f).1
    ensures Guarded(codeOf, s.row.value, f) <==> UpToDate(codeOf, s, f)
  {
    SavedAlike(codeOf, s, f);
    SavedLast(codeOf, s, f);
    hide Saved, CountHash;
    var last := s.row.value.lastUsedStep;
    if SameCodes(f.seen, s.row.value) && LastAccepted(s.accepted, last) {
      var i :| 0 <= i < |s.accepted| && s.accepted[i] == Totp(last.value);
    }
  }

  lemma FollowsStep(codeOf: (int, int) -> int, w: World, e: Event)
    requires Promised(w.s) && AllFollow(w) && SavesUpToDate(codeOf, w, e) && (e.Read? ==> e.current >= 1)
    ensures AllFollow(Step(codeOf, w, e))
  {
    hide CountHash, StepsInv, Balanced;
    var u := Step(codeOf, w, e);
    forall id | id in u.flights ensures Follows(u.s, u.flights[id]) {
      if e.Save? && e.id in w.flights && Saved(codeOf, w.s, w.flights[e.id]).1 {
        FollowsSave(codeOf, w.s, w.flights[e.id], w.flights[id]);
      } else if id in w.flights {
        assert Follows(w.s, w.flights[id]);
      }
    }
  }

  lemma FollowsSave(codeOf: (int, int) -> int, s: State, g: Flight, f: Flight)
    requires s.row.Some? && Follows(s, g) && Follows(s, f) && Saved(codeOf, s, g).1 && UpToDate(codeOf, s, g)
    ensures Follows(Saved(codeOf, s, g).0, f)
  {
    SavedShape(codeOf, s, g);
    SavedLast(codeOf, s, g);
    hide Saved, CountHash, Spliced, StepsUpTo, Later;
    var t := Saved(codeOf, s, g).0;
    var a := t.accepted[|s.accepted|];
    if a.Recovery? {
      var i := IndexOf(g.seen.recovery, a.hash).value;
      forall hash
        ensures CountHash(t.row.value.recovery, hash) ==
          CountHash(g.seen.recovery, hash) - (if hash == a.hash then 1 else 0)
      {
        SpliceCount(g.seen.recovery, i, hash);
      }
      assert CountHash(t.row.value.recovery, a.hash) < CountHash(f.seen.recovery, a.hash);
    }
  }

  /** The guards agree with what is up to date, step by step, as long as the promises hold. */
  lemma {:induction false} GuardsAgree(codeOf: (int, int) -> int, w: World, es: seq<Event>)
    requires Promised(w.s) && w.flights == map[] && PastEpoch(es)
    ensures AllGuarded(codeOf, w, es) <==> AllUpToDate(codeOf, w, es)
    ensures AllUpToDate(codeOf, w, es) ==> AllFollow(Interleaved(codeOf, w, es))
  {
    hide Step, Promised, SavesUpToDate, SavesGuarded, Follows;
    if es != [] {
      var init, e := es[..|es| - 1], es[|es| - 1];
      assert PastEpoch(init) && (e.Read? ==> e.current >= 1);
      GuardsAgree(codeOf, w, init);
      if AllUpToDate(codeOf, w, init) {
        var s := Interleaved(codeOf, w, init);
        PromisesHoldIff(codeOf, w, init);
        assert init[..|init|] == init;
        SavesAgree(codeOf, s, e);
        if SavesUpToDate(codeOf, s, e) { FollowsStep(codeOf, s, e); }
      }
    }
  }

  lemma SavesAgree(codeOf: (int, int) -> int, w: World, e: Event)
    requires Promised(w.s) && AllFollow(w)
    ensures SavesGuarded(codeOf, w, e) <==> SavesUpToDate(codeOf, w, e)
  {
    if e.Save? && e.id in w.flights && Saved(codeOf, w.s, w.flights[e.id]).1 {
      assert Follows(w.s, w.flights[e.id]);
      hide Saved, Guarded, UpToDate, Balanced, Follows;
      GuardedIffUpToDate(codeOf, w.s, w.flights[e.id]);
    }
  }

  /** In every interleaving of requests the promises hold at every point if and only if every accepted request finds, as
      it saves, its guard true of the stored row. */
  lemma GuardedIffPromised(codeOf: (int, int) -> int, w: World, es: seq<Event>)
    requires Promised(w.s) && w.flights == map[] && PastEpoch(es)
    ensures (forall n :: 0 <= n <= |es| ==> Promised(Interleaved(codeOf, w, es[..n]).s)) <==> AllGuarded(codeOf, w, es)
  {
    hide Promised, Interleaved, AllGuarded, AllUpToDate;
    PromisesHoldIff(codeOf, w, es);
    GuardsAgree(codeOf, w, es);
  }

  /** It happens: two requests read the row before either saves, and the one recovery code is accepted for both. */
  lemma RecoveryCodeTwice(codeOf: (int, int) -> int, hash: int, current: int, row: Row)
    requires row.enabled && row.recovery == [hash]
    ensures var code, w := Code(None, hash), World(State(Some(row), [hash], []), map[]);
      var es := [Read(1, code, current, true), Read(2, code, current, true), Save(1), Save(2)];
      Promised(w.s) && Interleaved(codeOf, w, es).s.accepted == [Recovery(hash), Recovery(hash)]
  {
    var code, w := Code(None, hash), World(State(Some(row), [hash], []), map[]);
    var f := Flight(row, code, current, true);
    FourSteps(codeOf, w, Read(1, code, current, true), Read(2, code, current, true), Save(1), Save(2));
    var a := Step(codeOf, w, Read(1, code, current, true));
    var b := Step(codeOf, a, Read(2, code, current, true));
    assert b == w.(flights := map[1 := f, 2 := f]);
    assert IndexOf([hash], hash) == Some(0);
    var c := Step(codeOf, b, Save(1));
    assert c.s.accepted == [Recovery(hash)] && c.flights == map[2 := f];
    assert Step(codeOf, c, Save(2)).s.accepted == [Recovery(hash)] + [Recovery(hash)];
  }

  lemma FourSteps(codeOf: (int, int) -> int, w: World, a: Event, b: Event, c: Event, d: Event)
    ensures Interleaved(codeOf, w, [a, b, c, d])
      == Step(codeOf, Step(codeOf, Step(codeOf, Step(codeOf, w, a), b), c), d)
  {
    hide Step;
    assert [a, b, c, d][..3] == [a, b, c] && [a, b, c][..2] == [a, b] && [a, b][..1] == [a] && [a][..0] == [];
    assert Interleaved(codeOf, w, [a]) == Step(codeOf, w, a);
    assert Interleaved(codeOf, w, [a, b]) == Step(codeOf, Step(codeOf, w, a), b);
    assert Interleaved(codeOf, w, [a, b, c]) == Step(codeOf, Step(codeOf, Step(codeOf, w, a), b), c);
  }
}

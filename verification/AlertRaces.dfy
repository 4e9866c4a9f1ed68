/** One alert under requests that overlap. A sync with an active trigger, an acknowledgement and a resolution read the
    row first and write it later, from what they have read; a sync without a trigger changes the row as it is. The syncs
    of a SKU wait for each other, acknowledgements and resolutions wait for nobody. */
module AlertRaces {
  import opened Options
  import opened Alerts

  datatype Flight =
    | Syncing(seen: Row, g: Trigger, confidence: int, now: int)
    | Acking(seen: Row, actor: Option<int>, note: Option<string>, now: int)
    | Resolving(seen: Row, actor: Option<int>, now: int)

  datatype World = World(row: Row, flights: map<nat, Flight>)

  datatype Event =
    | ReadSync(id: nat, g: Trigger, confidence: int, now: int)
    | ReadAck(id: nat, actor: Option<int>, note: Option<string>, now: int)
    | ReadResolve(id: nat, actor: Option<int>, now: int)
    | Write(id: nat)
    | Clear(now: int)
    | Stop(id: nat)

  ghost predicate SyncRuns(w: World) { exists id :: id in w.flights && w.flights[id].Syncing? }

  function Starts(w: World, id: nat, f: Flight): World { w.(flights := w.flights[id := f]) }

  /** What a request writes over the row of the moment. */
  function Written(row: Row, f: Flight): Row {
    match f
    case Syncing(seen, g, confidence, now) =>
      var updated := row.(severity := g.severity, riskScore := g.riskScore, confidence := confidence);
      if seen.status == Resolved
        then updated.(status := Open, openedAt := now, resolvedAt := None, lifecycle := NO_LIFECYCLE)
      else updated.(lifecycle := seen.lifecycle)
    case Acking(seen, actor, note, now) =>
      row.(status := Acknowledged, lifecycle := seen.lifecycle.(ack := Some(Ack(actor, now, CleanNote(note)))))
    case Resolving(seen, actor, now) =>
      row.(status := Resolved, resolvedAt := Some(now),
        lifecycle := seen.lifecycle.(resolvedBy := Some(User), resolvedById := actor))
  }

  ghost function Step(w: World, e: Event): World {
    match e
    case ReadSync(id, g, confidence, now) =>
      if id in w.flights || SyncRuns(w) || UserResolved(Some(w.row)) then w
      else Starts(w, id, Syncing(w.row, g, confidence, now))
    case ReadAck(id, actor, note, now) =>
      if id in w.flights || w.row.status == Resolved || (w.row.status == Acknowledged && !GivesNote(note)) then w
      else Starts(w, id, Acking(w.row, actor, note, now))
    case ReadResolve(id, actor, now) =>
      if id in w.flights || w.row.status == Resolved then w else Starts(w, id, Resolving(w.row, actor, now))
    case Write(id) =>
      if id in w.flights then World(Written(w.row, w.flights[id]), w.flights - {id}) else w
    case Clear(now) => if SyncRuns(w) then w else w.(row := Cleared(w.row, now))
    case Stop(id) => w.(flights := w.flights - {id})
  }

  ghost function Run(w: World, es: seq<Event>): World {
    if es == [] then w else Step(Run(w, es[..|es| - 1]), es[|es| - 1])
  }

  // ---- Without overlap these are the steps of a sync, an acknowledgement and a resolution ----------------------

  /** A read and the write that follows it at once do what the whole step does. */
  lemma AtOnce(w: World, id: nat, e: Event, t: AlertType)
    requires id !in w.flights && (e.ReadSync? ==> e.g.kind == t && !SyncRuns(w))
    requires (e.ReadSync? || e.ReadAck? || e.ReadResolve?) && e.id == id
    ensures var after := Step(Step(w, e), Write(id)).row; var s := State(map[t := w.row], []);
      match e
      case ReadSync(_, g, confidence, now) => after == Raised(Some(w.row), g, confidence, now)
      case ReadAck(_, actor, note, now) => AcknowledgedState(s, t, actor, note, now).0.rows == map[t := after]
      case ReadResolve(_, actor, now) => ResolvedState(s, t, actor, now).0.rows == map[t := after]
      case _ => true
  {
    hide CleanNote;
    var u := Step(w, e);
    if id in u.flights { assert u.flights[id].seen == w.row && u.row == w.row; }
  }

  // ---- Overlap ---------------------------------------------------------------------------------------------

  /** A live row carries no resolvedBy; what has been read is a row of the past. */
  ghost predicate Sound(w: World) {
    && (w.row.status != Resolved ==> w.row.lifecycle.resolvedBy.None?)
    && forall id :: id in w.flights ==> SoundFlight(w.flights[id])
  }

  predicate SoundFlight(f: Flight) {
    && !UserResolved(Some(f.seen)) && (f.seen.status != Resolved ==> f.seen.lifecycle.resolvedBy.None?)
    && (f.Acking? || f.Resolving? ==> f.seen.status != Resolved)
  }

  lemma SoundStep(w: World, e: Event)
    requires Sound(w)
    ensures Sound(Step(w, e))
  {
    hide CleanNote, SyncRuns;
    forall id | id in Step(w, e).flights ensures SoundFlight(Step(w, e).flights[id]) {
      if id in w.flights { assert SoundFlight(w.flights[id]); }
    }
    if e.Write? && e.id in w.flights { assert SoundFlight(w.flights[e.id]); }
  }

  lemma {:induction false} RunSound(w: World, es: seq<Event>)
    requires Sound(w)
    ensures Sound(Run(w, es))
  {
    hide Step, Sound;
    if es != [] {
      RunSound(w, es[..|es| - 1]);
      SoundStep(Run(w, es[..|es| - 1]), es[|es| - 1]);
    }
  }

  /** A request in flight that will undo a resolution by the owner: a sync, which found the row in another state, or an
      acknowledgement, which found it live. */
  ghost predicate Undoes(w: World, id: nat) { id in w.flights && !w.flights[id].Resolving? }

  ghost predicate NoClear(es: seq<Event>) { forall i :: 0 <= i < |es| ==> !es[i].Clear? }

  ghost predicate Settled(w: World) { UserResolved(Some(w.row)) && forall id :: !Undoes(w, id) }

  lemma SettledStep(w: World, e: Event)
    requires Settled(w) && !e.Clear?
    ensures Settled(Step(w, e))
  {
    hide CleanNote, SyncRuns;
    var u := Step(w, e);
    if e.Write? { assert !Undoes(w, e.id); }
    forall id ensures !Undoes(u, id) { assert !Undoes(w, id); }
  }

  lemma {:induction false} SettledRun(w: World, es: seq<Event>)
    requires Settled(w) && NoClear(es)
    ensures Settled(Run(w, es))
  {
    hide Step, Settled;
    if es != [] {
      SettledRun(w, es[..|es| - 1]);
      assert !es[|es| - 1].Clear?;
      SettledStep(Run(w, es[..|es| - 1]), es[|es| - 1]);
    }
  }

  lemma RunSnoc(w: World, es: seq<Event>, e: Event)
    ensures Run(w, es + [e]) == Step(Run(w, es), e)
  {
    hide Step;
    assert (es + [e])[..|es|] == es;
  }

  /** Its write takes the resolution away at once, and after one more sync at the latest the alert is live. */
  lemma UndoneBy(w: World, id: nat, g: Trigger)
    requires Sound(w) && UserResolved(Some(w.row)) && Undoes(w, id)
    ensures var a := Step(w, Write(id));
      && !UserResolved(Some(a.row))
      && (a.row.status == Resolved ==>
            w.flights[id].Syncing?
              && (!SyncRuns(a) ==> Step(Step(a, ReadSync(id, g, 0, 0)), Write(id)).row.status == Open))
  {
    hide CleanNote;
    assert SoundFlight(w.flights[id]);
    var a := Step(w, Write(id));
    if a.row.status == Resolved && !SyncRuns(a) {
      var b := Step(a, ReadSync(id, g, 0, 0));
      assert id in b.flights && b.flights[id] == Syncing(a.row, g, 0, 0);
    }
  }

  /** Syncs wait for each other. */
  ghost predicate OneSync(w: World) {
    forall a, b :: a in w.flights && b in w.flights && w.flights[a].Syncing? && w.flights[b].Syncing? ==> a == b
  }

  lemma OneSyncStep(w: World, e: Event)
    requires OneSync(w)
    ensures OneSync(Step(w, e))
  {
    hide Written, Cleared;
  }

  lemma {:induction false} RunOneSync(w: World, es: seq<Event>)
    requires OneSync(w)
    ensures OneSync(Run(w, es))
  {
    hide Step, OneSync;
    if es != [] {
      RunOneSync(w, es[..|es| - 1]);
      OneSyncStep(Run(w, es[..|es| - 1]), es[|es| - 1]);
    }
  }

  predicate Begins(w: World) { w.flights == map[] && (w.row.status != Resolved ==> w.row.lifecycle.resolvedBy.None?) }

  lemma UndoneLater(w: World, id: nat, g: Trigger) returns (once: seq<Event>, live: seq<Event>)
    requires Sound(w) && OneSync(w) && UserResolved(Some(w.row)) && Undoes(w, id)
    ensures NoClear(once) && !UserResolved(Some(Run(w, once).row))
    ensures NoClear(live) && Run(w, live).row.status != Resolved
  {
    hide Step, Sound, Written;
    UndoneBy(w, id, g);
    if w.flights[id].Syncing? { NobodySyncs(w, id); }
    RunSnoc(w, [], Write(id));
    once := [] + [Write(id)];
    RunSnoc(w, once, ReadSync(id, g, 0, 0));
    RunSnoc(w, once + [ReadSync(id, g, 0, 0)], Write(id));
    live := if Step(w, Write(id)).row.status == Resolved then once + [ReadSync(id, g, 0, 0)] + [Write(id)] else once;
  }

  lemma NobodySyncs(w: World, id: nat)
    requires OneSync(w) && id in w.flights && w.flights[id].Syncing?
    ensures !SyncRuns(Step(w, Write(id)))
  {
    hide Written;
  }

  /** From any point of any run at which the owner's resolution stands: it stands, and the alert does not come back, in
      every continuation without a sync that sees the condition clear, if and only if no sync and no acknowledgement is
      in flight that read the row before. */
  lemma ResolutionStaysIff(w0: World, before: seq<Event>, g: Trigger)
    requires Begins(w0) && UserResolved(Some(Run(w0, before).row))
    ensures var w := Run(w0, before);
      && ((forall es :: NoClear(es) ==> UserResolved(Some(Run(w, es).row))) <==> forall id :: !Undoes(w, id))
      && ((forall es :: NoClear(es) ==> Run(w, es).row.status == Resolved) <==> forall id :: !Undoes(w, id))
  {
    hide Step, Sound, OneSync;
    var w := Run(w0, before);
    BeginsSound(w0);
    RunSound(w0, before);
    RunOneSync(w0, before);
    if id :| Undoes(w, id) {
      var once, live := UndoneLater(w, id, g);
    } else {
      forall es | NoClear(es)
        ensures UserResolved(Some(Run(w, es).row)) && Run(w, es).row.status == Resolved
      {
        SettledRun(w, es);
      }
    }
  }

  lemma BeginsSound(w: World)
    requires Begins(w)
    ensures Sound(w) && OneSync(w)
  {}

  /** It happens: a sync reads an open alert, the owner resolves it, the sync writes what it read, and the next sync
      opens the alert again though none has seen its condition clear. */
  lemma OverlapReopens(w: World, g: Trigger, actor: Option<int>)
    requires Begins(w) && w.row.status == Open
    ensures var es := [ReadSync(1, g, 0, 0), ReadResolve(2, actor, 1), Write(2)];
      var more := [Write(1)] + [ReadSync(1, g, 0, 2)] + [Write(1)];
      UserResolved(Some(Run(w, es).row)) && NoClear(more) && Run(Run(w, es), more).row.status == Open
  {
    hide Run, Step, UserResolved;
    var es := [ReadSync(1, g, 0, 0), ReadResolve(2, actor, 1), Write(2)];
    var c := ResolvedMeanwhile(w, g, actor);
    RunNil(w);
    RunSnoc(w, [], ReadSync(1, g, 0, 0));
    RunSnoc(w, [] + [ReadSync(1, g, 0, 0)], ReadResolve(2, actor, 1));
    RunSnoc(w, [] + [ReadSync(1, g, 0, 0)] + [ReadResolve(2, actor, 1)], Write(2));
    assert es == [] + [ReadSync(1, g, 0, 0)] + [ReadResolve(2, actor, 1)] + [Write(2)];
    RunNil(c);
    RunSnoc(c, [], Write(1));
    assert [] + [Write(1)] == [Write(1)];
    RunSnoc(c, [Write(1)], ReadSync(1, g, 0, 2));
    RunSnoc(c, [Write(1)] + [ReadSync(1, g, 0, 2)], Write(1));
    OpensAgain(c, w.row, g);
  }

  lemma ResolvedMeanwhile(w: World, g: Trigger, actor: Option<int>) returns (c: World)
    requires Begins(w) && w.row.status == Open
    ensures c == Step(Step(Step(w, ReadSync(1, g, 0, 0)), ReadResolve(2, actor, 1)), Write(2))
    ensures c.flights == map[1 := Syncing(w.row, g, 0, 0)] && UserResolved(Some(c.row))
  {
    var a := Step(w, ReadSync(1, g, 0, 0));
    assert !SyncRuns(w) && a.flights == map[1 := Syncing(w.row, g, 0, 0)];
    var b := Step(a, ReadResolve(2, actor, 1));
    assert b.flights == map[1 := Syncing(w.row, g, 0, 0), 2 := Resolving(w.row, actor, 1)];
    c := Step(b, Write(2));
  }

  lemma OpensAgain(c: World, seen: Row, g: Trigger)
    requires c.flights == map[1 := Syncing(seen, g, 0, 0)] && UserResolved(Some(c.row))
    requires seen.status == Open && seen.lifecycle.resolvedBy.None?
    ensures Step(Step(Step(c, Write(1)), ReadSync(1, g, 0, 2)), Write(1)).row.status == Open
  {
    var d := Step(c, Write(1));
    assert d.flights == map[] && !SyncRuns(d);
    assert Step(d, ReadSync(1, g, 0, 2)).flights == map[1 := Syncing(d.row, g, 0, 2)];
  }

  lemma RunNil(w: World)
    ensures Run(w, []) == w
  {}
}

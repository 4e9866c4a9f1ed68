/** Commits of one import job that overlap. A request reads the job, and what it writes afterwards depends on what it
    has read; the claim alone is a compare-and-set. While a worker is at its chunks no other request touches the rows,
    so its work is one step here; it may also stop in the middle. */
module ImportRaces {
  import opened Options
  import opened ImportCommit
  import opened ImportRuns

  /** What a request that has read the job does next. */
  datatype Phase = Expiring | Claiming | Working | Answered

  datatype World = World(job: Job, clock: int, requests: map<nat, Phase>)

  datatype Event =
    | Read(id: nat)
    | Expire(id: nat)
    | Claim(id: nat, warehouse: bool)
    | Finish(id: nat, fault: Fault)
    | Stop(id: nat, fault: Fault)
    | Tick(dt: nat)

  predicate In(w: World, id: nat, phase: Phase) { id in w.requests && w.requests[id] == phase }

  function Went(w: World, id: nat, phase: Phase): World { w.(requests := w.requests[id := phase]) }

  /** The checks of the job as it was read; a committed job and a busy one are answered at once. */
  function ReadStep(w: World, id: nat): World {
    if id in w.requests then w else
    var j := w.job;
    Went(w, id, if j.invalidRows > 0 || j.status == JobCompleted || j.status == JobCommitting then Answered
                else if j.status == JobExpired || j.expiresAt < w.clock then Expiring
                else if !j.payloadIntact then Answered
                else Claiming)
  }

  /** The update to EXPIRED does not look at the status again. */
  function ExpireStep(w: World, id: nat): World {
    if In(w, id, Expiring) then Went(w, id, Answered).(job := w.job.(status := JobExpired)) else w
  }

  function ClaimStep(w: World, id: nat, warehouse: bool): World {
    if !In(w, id, Claiming) then w
    else if warehouse && w.job.status in {JobPreviewed, JobFailed}
      then Went(w, id, Working).(job := w.job.(status := JobCommitting))
    else Went(w, id, Answered)
  }

  function FinishStep(w: World, id: nat, fault: Fault): World
    requires Coherent(w.job)
  {
    if In(w, id, Working) then Went(w, id, Answered).(job := Work(w.job, fault).0) else w
  }

  /** The process ends: the chunks that have committed stay, and so do the rows marked PROCESSING. */
  function StopStep(w: World, id: nat, fault: Fault): World
    requires Coherent(w.job)
  {
    var u := w.(requests := w.requests - {id});
    if In(w, id, Working)
    then u.(job := w.job.(statuses := Progressed(w.job, fault).tx.statuses, db := Progressed(w.job, fault).tx.db))
      else u
  }

  function Step(w: World, e: Event): (u: World)
    requires Coherent(w.job)
    ensures Coherent(u.job)
  {
    match e
    case Read(id) => ReadStep(w, id)
    case Expire(id) => ExpireStep(w, id)
    case Claim(id, warehouse) => ClaimStep(w, id, warehouse)
    case Finish(id, fault) => FinishStep(w, id, fault)
    case Stop(id, fault) => StopStep(w, id, fault)
    case Tick(dt) => w.(clock := w.clock + dt)
  }

  function Interleaved(w: World, es: seq<Event>): (u: World)
    requires Coherent(w.job)
    ensures Coherent(u.job)
  {
    if es == [] then w else Step(Interleaved(w, es[..|es| - 1]), es[|es| - 1])
  }

  // ---- Without overlap these are the steps of one attempt ---------------------------------------------------------

  /** A request that takes its turns one after the other does what the whole attempt does. */
  lemma AtOnce(w: World, id: nat, warehouse: bool, fault: Fault)
    requires Coherent(w.job) && id !in w.requests
    ensures Step(Step(Step(Step(w, Read(id)), Expire(id)), Claim(id, warehouse)), Finish(id, fault))
      == World(Attempt(w.job, w.clock, warehouse, fault).0, w.clock, w.requests[id := Answered])
  {
    hide Work;
    WorkIgnoresStatus(w.job, fault);
    var a := Step(w, Read(id));
    var b := Step(a, Expire(id));
    var c := Step(b, Claim(id, warehouse));
    var d := Step(c, Finish(id, fault));
    assert d.requests == w.requests[id := Answered];
  }

  // ---- Overlapping commits are sequential ------------------------------------------------------------------

  predicate Gated(j: Job) { j.invalidRows == 0 && j.payloadIntact }

  /** One worker at most, on a job that is COMMITTING, or EXPIRED by a request that came too late. */
  ghost predicate Exclusive(w: World) {
    && (forall a, b :: In(w, a, Working) && In(w, b, Working) ==> a == b)
    && (forall a :: In(w, a, Working) ==> w.job.status in {JobCommitting, JobExpired} && Gated(w.job))
    && (forall a :: In(w, a, Claiming) ==> Gated(w.job))
  }

  ghost predicate Takeable(w: World) { w.job.status in {JobPreviewed, JobFailed} || exists a :: In(w, a, Working) }

  /** The job of an interleaved run against that of a sequence of attempts. */
  ghost predicate Simulates(w: World, j: Job) {
    && Coherent(w.job) && Coherent(j)
    && w.job == j.(status := w.job.status, statuses := w.job.statuses)
    && Released(w.job.statuses) == Released(j.statuses)
    && (Takeable(w) ==> w.job.statuses == j.statuses && j.status in {JobPreviewed, JobFailed})
    && (w.job.status == JobCompleted ==> w.job.statuses == j.statuses && j.status == JobCompleted)
  }

  lemma ReleasedTwice(statuses: seq<ItemStatus>)
    ensures Released(Released(statuses)) == Released(statuses)
  {}

  lemma ExclusiveStep(w: World, e: Event)
    requires Coherent(w.job) && Exclusive(w)
    ensures Exclusive(Step(w, e))
  {
    hide Progressed, Released;
    var u := Step(w, e);
    forall a | In(u, a, Working)
      ensures In(w, a, Working)
        || (e.Claim? && e.id == a && w.job.status in {JobPreviewed, JobFailed} && In(w, a, Claiming))
    {
    }
    forall a | In(u, a, Claiming)
      ensures In(w, a, Claiming) || Gated(w.job)
    {
    }
  }

  /** The attempt that the work of a taken job amounts to. */
  function TakenCall(j: Job, fault: Fault): Call { Call(j.expiresAt, true, fault) }

  lemma WorkAlike(w: World, j: Job, id: nat, fault: Fault)
    requires Exclusive(w) && Simulates(w, j) && In(w, id, Working)
    ensures var (a, b) := (Work(w.job, fault).0, Attempt(j, j.expiresAt, true, fault).0);
      && a == b && Progressed(w.job, fault) == Progressed(j, fault)
      && b == j.(status := b.status, statuses := b.statuses, db := Progressed(j, fault).tx.db)
      && Released(Progressed(j, fault).tx.statuses) == Released(b.statuses)
  {
    hide Released, Chunks, Todo;
    assert Progressed(w.job, fault) == Progressed(j, fault);
    ReleasedTwice(Progressed(j, fault).tx.statuses);
  }

  lemma FinishSimulates(w: World, j: Job, id: nat, fault: Fault)
    requires Exclusive(w) && Simulates(w, j) && In(w, id, Working)
    ensures Simulates(FinishStep(w, id, fault), Attempt(j, j.expiresAt, true, fault).0)
  {
    WorkAlike(w, j, id, fault);
    hide Released, Progressed, Attempt;
    var u := FinishStep(w, id, fault);
    assert forall a :: In(u, a, Working) ==> In(w, a, Working) && a != id;
  }

  lemma StopSimulates(w: World, j: Job, id: nat, fault: Fault)
    requires Exclusive(w) && Simulates(w, j) && In(w, id, Working)
    ensures Simulates(StopStep(w, id, fault), Attempt(j, j.expiresAt, true, fault).0)
  {
    WorkAlike(w, j, id, fault);
    hide Released, Progressed, Attempt, Work;
    var u := StopStep(w, id, fault);
    assert forall a :: In(u, a, Working) ==> In(w, a, Working) && a != id;
    assert u.job.status in {JobCommitting, JobExpired};
  }

  lemma OtherSimulates(w: World, j: Job, e: Event)
    requires Exclusive(w) && Simulates(w, j) && !((e.Finish? || e.Stop?) && In(w, e.id, Working))
    ensures Simulates(Step(w, e), j)
  {
    hide Released, Progressed, Work;
    var u := Step(w, e);
    assert u.job == w.job.(status := u.job.status);
    if a :| In(u, a, Working) { assert In(w, a, Working) || w.job.status in {JobPreviewed, JobFailed}; }
  }

  lemma {:induction false} RunExclusive(w: World, es: seq<Event>)
    requires Coherent(w.job) && Exclusive(w)
    ensures Exclusive(Interleaved(w, es))
  {
    hide Step, Exclusive;
    if es != [] {
      RunExclusive(w, es[..|es| - 1]);
      ExclusiveStep(Interleaved(w, es[..|es| - 1]), es[|es| - 1]);
    }
  }

  predicate Begins(w: World) { NewJob(w.job) && w.requests == map[] }

  /** Of overlapping commits at most one is at work, at every point of every run. */
  lemma OneWorker(w0: World, es: seq<Event>, a: nat, b: nat)
    requires Begins(w0) && In(Interleaved(w0, es), a, Working) && In(Interleaved(w0, es), b, Working)
    ensures a == b
  {
    RunExclusive(w0, es);
  }

  lemma RunSnoc(j: Job, calls: seq<Call>, c: Call)
    requires Coherent(j)
    ensures Run(j, calls + [c]) == Attempt(Run(j, calls), c.now, c.warehouse, c.fault).0
  {
    hide Attempt;
    assert (calls + [c])[..|calls|] == calls;
  }

  /** Every interleaving leaves the store as some sequence of attempts, one after the other, does. */
  lemma {:induction false} OverlapsAreSequential(w0: World, es: seq<Event>) returns (calls: seq<Call>)
    requires Begins(w0)
    ensures Simulates(Interleaved(w0, es), Run(w0.job, calls))
  {
    hide Step, Exclusive, Released, Attempt;
    if es == [] {
      calls := [];
      assert Run(w0.job, []) == w0.job;
    } else {
      var w, e := Interleaved(w0, es[..|es| - 1]), es[|es| - 1];
      calls := OverlapsAreSequential(w0, es[..|es| - 1]);
      BeginsExclusive(w0);
      RunExclusive(w0, es[..|es| - 1]);
      var j := Run(w0.job, calls);
      hide Simulates;
      if (e.Finish? || e.Stop?) && In(w, e.id, Working) {
        if e.Finish? { FinishSimulates(w, j, e.id, e.fault); } else { StopSimulates(w, j, e.id, e.fault); }
        calls := calls + [TakenCall(j, e.fault)];
        RunSnoc(w0.job, calls[..|calls| - 1], TakenCall(j, e.fault));
        assert calls[..|calls| - 1] + [TakenCall(j, e.fault)] == calls;
        StepOf(w, e);
      } else {
        OtherSimulates(w, j, e);
      }
    }
  }

  lemma BeginsExclusive(w: World)
    requires Begins(w)
    ensures Exclusive(w)
  {}

  lemma StepOf(w: World, e: Event)
    requires Coherent(w.job)
    ensures e.Finish? ==> Step(w, e) == FinishStep(w, e.id, e.fault)
    ensures e.Stop? ==> Step(w, e) == StopStep(w, e.id, e.fault)
  {}

  /** However commits overlap, expire and stop, a job that is COMPLETED has the store and the checkpoints of one
      uninterrupted pass over the file. */
  lemma OverlapsEqualStraight(w0: World, es: seq<Event>)
    requires Begins(w0) && Interleaved(w0, es).job.status == JobCompleted
    ensures var j := Interleaved(w0, es).job;
      Straight(w0.job.db, w0.job.mode, w0.job.rows, |w0.job.rows|) == Some(Pass(j.db, j.statuses))
  {
    hide Step, Released, Attempt, Straight;
    var calls := OverlapsAreSequential(w0, es);
    CompletedEqualsStraight(w0.job, calls);
  }

  // ---- The status ------------------------------------------------------------------------------------------

  ghost predicate Nobody(w: World, phase: Phase) { forall id :: !In(w, id, phase) }

  lemma CompletedStep(w: World, e: Event)
    requires Coherent(w.job) && w.job.status == JobCompleted && Nobody(w, Expiring) && Nobody(w, Working)
    ensures var u := Step(w, e); u.job == w.job && Nobody(u, Expiring) && Nobody(u, Working)
  {
    var u := Step(w, e);
    forall id
      ensures !In(u, id, Expiring) && !In(u, id, Working)
    {
      assert !In(w, id, Expiring) && !In(w, id, Working);
    }
  }

  lemma {:induction false} CompletedRun(w: World, es: seq<Event>)
    requires Coherent(w.job) && w.job.status == JobCompleted && Nobody(w, Expiring) && Nobody(w, Working)
    ensures var u := Interleaved(w, es); u.job == w.job && Nobody(u, Expiring) && Nobody(u, Working)
  {
    hide Step, Nobody;
    if es != [] {
      CompletedRun(w, es[..|es| - 1]);
      CompletedStep(Interleaved(w, es[..|es| - 1]), es[|es| - 1]);
    }
  }

  lemma One(w: World, e: Event)
    requires Coherent(w.job)
    ensures Interleaved(w, [e]) == Step(w, e)
  {
    hide Step;
    assert [e][..0] == [];
  }

  /** A COMPLETED job stays COMPLETED in every continuation exactly if no request is still to write EXPIRED. */
  lemma CompletedStaysIff(w0: World, es: seq<Event>)
    requires Begins(w0) && Interleaved(w0, es).job.status == JobCompleted
    ensures var w := Interleaved(w0, es);
      (forall more :: Interleaved(w, more).job.status == JobCompleted) <==> Nobody(w, Expiring)
  {
    hide Step, Exclusive;
    var w := Interleaved(w0, es);
    BeginsExclusive(w0);
    RunExclusive(w0, es);
    if Nobody(w, Expiring) {
      NoWorker(w);
      forall more
        ensures Interleaved(w, more).job.status == JobCompleted
      {
        CompletedRun(w, more);
      }
    } else {
      var id :| In(w, id, Expiring);
      One(w, Expire(id));
      ExpiresNow(w, id);
    }
  }

  lemma NoWorker(w: World)
    requires Exclusive(w) && w.job.status == JobCompleted
    ensures Nobody(w, Working)
  {}

  lemma ExpiresNow(w: World, id: nat)
    requires Coherent(w.job) && In(w, id, Expiring)
    ensures Step(w, Expire(id)).job.status == JobExpired
  {}

  lemma CommittingStep(w: World, e: Event)
    requires Coherent(w.job) && w.job.status == JobCommitting && Nobody(w, Expiring) && Nobody(w, Working)
    ensures var u := Step(w, e); u.job == w.job && Nobody(u, Expiring) && Nobody(u, Working)
  {
    var u := Step(w, e);
    forall id
      ensures !In(u, id, Expiring) && !In(u, id, Working)
    {
      assert !In(w, id, Expiring) && !In(w, id, Working);
    }
  }

  lemma {:induction false} CommittingRun(w: World, es: seq<Event>)
    requires Coherent(w.job) && w.job.status == JobCommitting && Nobody(w, Expiring) && Nobody(w, Working)
    ensures var u := Interleaved(w, es); u.job == w.job && Nobody(u, Expiring) && Nobody(u, Working)
  {
    hide Step, Nobody;
    if es != [] {
      CommittingRun(w, es[..|es| - 1]);
      CommittingStep(Interleaved(w, es[..|es| - 1]), es[|es| - 1]);
    }
  }

  /** A COMMITTING job is left COMMITTING for ever exactly if its worker has stopped and no request is still to write
      EXPIRED: every later commit is turned away as busy. */
  lemma CommittingForeverIff(w: World)
    requires Coherent(w.job) && w.job.status == JobCommitting
    ensures (forall more :: Interleaved(w, more).job.status == JobCommitting) <==>
      Nobody(w, Working) && Nobody(w, Expiring)
  {
    hide Step, Nobody;
    if Nobody(w, Working) && Nobody(w, Expiring) {
      forall more
        ensures Interleaved(w, more).job.status == JobCommitting
      {
        CommittingRun(w, more);
      }
    } else {
      LeavesCommitting(w);
    }
  }

  lemma LeavesCommitting(w: World)
    requires Coherent(w.job) && (!Nobody(w, Working) || !Nobody(w, Expiring))
    ensures exists more :: Interleaved(w, more).job.status != JobCommitting
  {
    hide Step;
    if id :| In(w, id, Working) {
      One(w, Finish(id, NoFault));
      FinishesNow(w, id);
      assert Interleaved(w, [Finish(id, NoFault)]).job.status != JobCommitting;
    } else {
      var id :| In(w, id, Expiring);
      One(w, Expire(id));
      ExpiresNow(w, id);
      assert Interleaved(w, [Expire(id)]).job.status != JobCommitting;
    }
  }

  lemma FinishesNow(w: World, id: nat)
    requires Coherent(w.job) && In(w, id, Working)
    ensures Step(w, Finish(id, NoFault)).job.status in {JobCompleted, JobFailed}
  {
    hide Progressed;
  }

  /** It happens: request 1 reads the job in time, request 2 after it has expired; 1 commits the whole file, and then 2
      writes EXPIRED over COMPLETED. */
  lemma CompletedThenExpired(w0: World) returns (es: seq<Event>)
    requires Begins(w0) && Gated(w0.job) && w0.clock == w0.job.expiresAt
    requires Straight(w0.job.db, w0.job.mode, w0.job.rows, |w0.job.rows|).Some?
    ensures var a, b := Interleaved(w0, es), Interleaved(w0, es + [Expire(2)]);
      && a.job.status == JobCompleted && b.job == a.job.(status := JobExpired)
      && Straight(w0.job.db, w0.job.mode, w0.job.rows, |w0.job.rows|) == Some(Pass(b.job.db, b.job.statuses))
  {
    hide Step, Straight, Interleaved, Attempt;
    es := [];
    var a := w0;
    assert Interleaved(w0, []) == w0 by { Nil(w0); }
    es := Next(w0, es, Read(1));
    a := Step(a, Read(1));
    es := Next(w0, es, Tick(1));
    a := Step(a, Tick(1));
    es := Next(w0, es, Read(2));
    a := Step(a, Read(2));
    es := Next(w0, es, Claim(1, true));
    a := Step(a, Claim(1, true));
    BothRead(w0, a);
    es := Next(w0, es, Finish(1, NoFault));
    a := Step(a, Finish(1, NoFault));
    OverlapsEqualStraight(w0, es);
    var more := Next(w0, es, Expire(2));
  }

  lemma Nil(w: World)
    requires Coherent(w.job)
    ensures Interleaved(w, []) == w
  {}

  lemma Next(w: World, es: seq<Event>, e: Event) returns (es': seq<Event>)
    requires Coherent(w.job)
    ensures es' == es + [e] && Interleaved(w, es') == Step(Interleaved(w, es), e)
  {
    hide Step;
    es' := es + [e];
    assert es'[..|es'| - 1] == es;
  }

  lemma BothRead(w0: World, a: World)
    requires Begins(w0) && Gated(w0.job) && w0.clock == w0.job.expiresAt
    requires Straight(w0.job.db, w0.job.mode, w0.job.rows, |w0.job.rows|).Some?
    requires a == Step(Step(Step(Step(w0, Read(1)), Tick(1)), Read(2)), Claim(1, true))
    ensures var c := Step(a, Finish(1, NoFault));
      c.job.status == JobCompleted && In(c, 2, Expiring) && Step(c, Expire(2)).job == c.job.(status := JobExpired)
  {
    hide Straight, Progressed, Released;
    assert a == World(w0.job.(status := JobCommitting), w0.clock + 1, map[1 := Working, 2 := Expiring]);
    assert Run(w0.job, []) == w0.job;
    RunProgress(w0.job, []);
    AttemptProgress(w0.job, w0.job, w0.job.expiresAt, true, NoFault);
    WorkIgnoresStatus(w0.job, NoFault);
    assert Attempt(w0.job, w0.job.expiresAt, true, NoFault) == Work(w0.job, NoFault);
  }

  lemma WorkIgnoresStatus(j: Job, fault: Fault)
    requires Coherent(j)
    ensures Work(j.(status := JobCommitting), fault).0 == Work(j, fault).0
  {
    hide Chunks, Todo, Released;
    assert Progressed(j.(status := JobCommitting), fault) == Progressed(j, fault);
  }
}

/** Importing historical sales: rows are classified in a preview and committed later by inserting them under a unique
    row hash. A hash is a number that determines the row it was computed from. */
module HistoricalSales {
  import opened Options

  datatype Sale = Sale(stockItemId: Option<int>, quantity: int, soldAt: int)
  datatype SaleRow = SaleRow(hash: int, sale: Sale)
  datatype RowStatus = Valid | Warning | Duplicate | Invalid

  // ---- Preview -------------------------------------------------------------------------------------------

  predicate Overlaps(r: SaleRow, cutoff: Option<int>) { cutoff.Some? && r.sale.soldAt >= cutoff.value }

  predicate Earlier(rows: seq<SaleRow>, i: nat)
    requires i < |rows|
  {
    exists k :: 0 <= k < i && rows[k].hash == rows[i].hash
  }

  function StatusOf(rows: seq<SaleRow>, i: nat, existing: set<int>, cutoff: Option<int>): RowStatus
    requires i < |rows|
  {
    if Overlaps(rows[i], cutoff) then Invalid
    else if rows[i].hash in existing || Earlier(rows, i) then Duplicate
    else if rows[i].sale.stockItemId.None? then Warning
    else Valid
  }

  function CountStatus(statuses: seq<RowStatus>, status: RowStatus): nat {
    if statuses == [] then 0
      else CountStatus(statuses[..|statuses| - 1], status) + (if statuses[|statuses| - 1] == status then 1 else 0)
  }

  /** The rows a commit will insert, in file order. */
  function ToInsert(rows: seq<SaleRow>, statuses: seq<RowStatus>): seq<SaleRow>
    requires |statuses| <= |rows|
  {
    if statuses == [] then []
    else
      var n := |statuses| - 1;
      ToInsert(rows, statuses[..n]) + (if statuses[n] == Duplicate || statuses[n] == Invalid then [] else [rows[n]])
  }

  datatype Preview = Preview(statuses: seq<RowStatus>, valid: nat, warning: nat, duplicate: nat, invalid: nat)

  lemma CountSnoc(statuses: seq<RowStatus>, x: RowStatus, status: RowStatus)
    ensures CountStatus(statuses + [x], status) == CountStatus(statuses, status) + (if x == status then 1 else 0)
  {
    assert (statuses + [x])[..|statuses|] == statuses;
  }

  method PreviewHistoricalSales(rows: seq<SaleRow>, existing: set<int>, cutoff: Option<int>) returns (p: Preview)
    ensures |p.statuses| == |rows| && forall i :: 0 <= i < |rows| ==>
      p.statuses[i] == StatusOf(rows, i, existing, cutoff)
    ensures p.valid == CountStatus(p.statuses, Valid) && p.warning == CountStatus(p.statuses, Warning)
    ensures p.duplicate == CountStatus(p.statuses, Duplicate) && p.invalid == CountStatus(p.statuses, Invalid)
    ensures p.valid + p.warning + p.duplicate + p.invalid == |rows|
  {
    var statuses: seq<RowStatus>, seen: set<int> := [], {};
    var valid, warning, duplicate, invalid := 0, 0, 0, 0;
    for i := 0 to |rows|
      invariant |statuses| == i && forall k :: 0 <= k < i ==> statuses[k] == StatusOf(rows, k, existing, cutoff)
      invariant forall h :: h in seen <==> exists k :: 0 <= k < i && rows[k].hash == h
      invariant valid == CountStatus(statuses, Valid) && warning == CountStatus(statuses, Warning)
      invariant duplicate == CountStatus(statuses, Duplicate) && invalid == CountStatus(statuses, Invalid)
      invariant valid + warning + duplicate + invalid == i
    {
      var row, status := rows[i], Valid;
      if cutoff.Some? && row.sale.soldAt >= cutoff.value {
        status := Invalid;
        invalid := invalid + 1;
      } else if row.hash in existing || row.hash in seen {
        status := Duplicate;
        duplicate := duplicate + 1;
      } else if row.sale.stockItemId.None? {
        status := Warning;
        warning := warning + 1;
      } else {
        valid := valid + 1;
      }
      forall s { CountSnoc(statuses, status, s); }
      seen := seen + {row.hash};
      statuses := statuses + [status];
    }
    p := Preview(statuses, valid, warning, duplicate, invalid);
  }

  /** How a row is classified: native sales since the cutoff make it invalid, a hash that is stored or stands earlier in
      the file a duplicate, and a row without a SKU is imported with a warning. */
  lemma ClassifiedIs(rows: seq<SaleRow>, i: nat, existing: set<int>, cutoff: Option<int>)
    requires i < |rows|
    ensures var status := StatusOf(rows, i, existing, cutoff); var row := rows[i];
      var native := cutoff.Some? && cutoff.value <= row.sale.soldAt;
      var known := row.hash in existing || exists k :: 0 <= k < i && rows[k].hash == row.hash;
      && (status == Invalid <==> native)
      && (status == Duplicate <==> !native && known)
      && (status == Warning <==> !native && !known && row.sale.stockItemId.None?)
      && (status == Valid <==> !native && !known && row.sale.stockItemId.Some?)
  {}

  ghost function WithStatus(statuses: seq<RowStatus>, n: nat, status: RowStatus): set<nat>
    requires n <= |statuses|
  {
    set i: nat | i < n && statuses[i] == status
  }

  lemma OneMoreRow(statuses: seq<RowStatus>, n: nat, status: RowStatus)
    requires 0 < n <= |statuses|
    ensures |WithStatus(statuses, n, status)| ==
      |WithStatus(statuses, n - 1, status)| + if statuses[n - 1] == status then 1 else 0
  {
    assert WithStatus(statuses, n, status) ==
      WithStatus(statuses, n - 1, status) + if statuses[n - 1] == status then {n - 1} else {};
  }

  /** The counters of a preview are numbers of rows. */
  lemma {:induction false} CountIs(statuses: seq<RowStatus>, n: nat, status: RowStatus)
    requires n <= |statuses|
    ensures CountStatus(statuses[..n], status) == |WithStatus(statuses, n, status)|
  {
    if n == 0 {
      assert WithStatus(statuses, 0, status) == {};
    } else {
      CountIs(statuses, n - 1, status);
      OneMoreRow(statuses, n, status);
      hide WithStatus;
      assert statuses[..n] == statuses[..n - 1] + [statuses[n - 1]];
      CountSnoc(statuses[..n - 1], statuses[n - 1], status);
    }
  }

  ghost predicate HashDetermines(rows: seq<SaleRow>) {
    forall i, k :: 0 <= i < k < |rows| && rows[i].hash == rows[k].hash ==> rows[i].sale.soldAt == rows[k].sale.soldAt
  }

  predicate StatusesAre(rows: seq<SaleRow>, statuses: seq<RowStatus>, existing: set<int>, cutoff: Option<int>) {
    |statuses| <= |rows| && forall i :: 0 <= i < |statuses| ==> statuses[i] == StatusOf(rows, i, existing, cutoff)
  }

  predicate HasHash(rows: seq<SaleRow>, h: int) { exists i :: 0 <= i < |rows| && rows[i].hash == h }

  /** Of the rows with one hash exactly the first is imported, if it is new and does not overlap native sales: the
      hashes to insert are distinct, and they are the new, non-overlapping hashes of the file. */
  lemma {:induction false} InsertsEachNewOnce(rows: seq<SaleRow>, statuses: seq<RowStatus>, existing: set<int>,
      cutoff: Option<int>)
    requires StatusesAre(rows, statuses, existing, cutoff) && HashDetermines(rows)
    ensures var ins := ToInsert(rows, statuses);
      && (forall i, k :: 0 <= i < k < |ins| ==> ins[i].hash != ins[k].hash)
      && forall h :: HasHash(ins, h) <==>
        h !in existing && exists i :: 0 <= i < |statuses| && rows[i].hash == h && !Overlaps(rows[i], cutoff)
  {
    if statuses != [] {
      var n := |statuses| - 1;
      InsertsEachNewOnce(rows, statuses[..n], existing, cutoff);
      var before, ins := ToInsert(rows, statuses[..n]), ToInsert(rows, statuses);
      assert statuses[n] == StatusOf(rows, n, existing, cutoff);
      forall i | 0 <= i < |before|
        ensures ins[i] == before[i] && HasHash(before, before[i].hash)
      {
      }
      forall h
        ensures HasHash(ins, h) <==> HasHash(before, h) || (|ins| > |before| && rows[n].hash == h)
      {
        if HasHash(before, h) {
          var i :| 0 <= i < |before| && before[i].hash == h;
          assert ins[i].hash == h;
        }
        if |ins| > |before| && rows[n].hash == h { assert ins[|before|].hash == h; }
      }
      if statuses[n] == Duplicate && rows[n].hash !in existing {
        var k :| 0 <= k < n && rows[k].hash == rows[n].hash;
        assert !Overlaps(rows[k], cutoff);
      }
    }
  }

  // ---- Commit ----------------------------------------------------------------------------------------------

  datatype JobStatus = Previewed | Completed | Expired

  /** `items` are the rows still to insert at the preview; `insertedCount` is the stored result. `commits` and `added`
      are history: how many transactions committed the job, and how many sales they added together. */
  datatype Job = Job(items: seq<SaleRow>, status: JobStatus, expiresAt: int, insertedCount: Option<nat>,
      commits: nat, added: nat)

  /** A request that has read the job, and what it will write. */
  datatype Flight = Committing(job: nat) | Expiring(job: nat)

  /** `total` is history: the sum of the counts that all commit transactions reported. */
  datatype State = State(sales: map<int, Sale>, jobs: seq<Job>, flights: map<int, Flight>, total: nat)

  datatype Event =
    | NewJob(items: seq<SaleRow>, expiresAt: int)
    | ReadJob(req: int, job: nat, now: int)
    | Expire(req: int)
    | Commit(req: int)
    | Crash(req: int)

  /** createMany with skipDuplicates. */
  function InsertAll(sales: map<int, Sale>, items: seq<SaleRow>): (r: map<int, Sale>) {
    if items == [] then sales
    else
      var before := InsertAll(sales, items[..|items| - 1]);
      var item := items[|items| - 1];
      if item.hash in before then before else before[item.hash := item.sale]
  }

  lemma {:induction false} InsertShape(sales: map<int, Sale>, items: seq<SaleRow>)
    ensures var r := InsertAll(sales, items);
      && |r| >= |sales|
      && (forall h :: h in sales ==> h in r && r[h] == sales[h])
      && (forall h :: h in r <==> h in sales || HasHash(items, h))
  {
    if items != [] {
      var init, item := items[..|items| - 1], items[|items| - 1];
      InsertShape(sales, init);
      forall h
        ensures HasHash(items, h) <==> HasHash(init, h) || item.hash == h
      {
        if HasHash(init, h) {
          var i :| 0 <= i < |init| && init[i].hash == h;
          assert items[i].hash == h;
        }
        if item.hash == h { assert items[|items| - 1].hash == h; }
      }
    }
  }

  function ReadStep(s: State, req: int, job: nat, now: int): State {
    if req in s.flights || job >= |s.jobs| || s.jobs[job].status != Previewed then s
    else if now > s.jobs[job].expiresAt then s.(flights := s.flights[req := Expiring(job)])
    else if s.jobs[job].items == [] then s
    else s.(flights := s.flights[req := Committing(job)])
  }

  predicate Flying(s: State, req: int, flight: Flight) {
    req in s.flights && s.flights[req] == flight && flight.job < |s.jobs|
  }

  function ExpireStep(s: State, req: int): State {
    if !(req in s.flights && Flying(s, req, Expiring(s.flights[req].job))) then s else
    var job := s.flights[req].job;
    s.(jobs := s.jobs[job := s.jobs[job].(status := Expired)], flights := s.flights - {req})
  }

  function Growth(s: State, job: nat): nat
    requires job < |s.jobs|
  {
    var sales := InsertAll(s.sales, s.jobs[job].items);
    if |sales| >= |s.sales| then |sales| - |s.sales| else 0
  }

  /** The transaction; it does not look at the job's status again. */
  function CommitStep(s: State, req: int): State {
    if !(req in s.flights && Flying(s, req, Committing(s.flights[req].job))) then s else
    var job := s.flights[req].job;
    var j, count := s.jobs[job], Growth(s, job);
    var committed := j.(status := Completed, insertedCount := Some(count), commits := j.commits + 1,
      added := j.added + count);
    State(InsertAll(s.sales, j.items), s.jobs[job := committed], s.flights - {req}, s.total + count)
  }

  /** A commit completes its job and stores as its count how many sales it has added; no other job changes. */
  lemma CommittedIs(s: State, req: int)
    requires req in s.flights && Flying(s, req, Committing(s.flights[req].job))
    ensures var t, job := CommitStep(s, req), s.flights[req].job;
      && |t.jobs| == |s.jobs| && t.jobs[job].status == Completed && t.jobs[job].items == s.jobs[job].items
      && t.jobs[job].insertedCount == Some(|t.sales| - |s.sales|)
      && (forall k :: 0 <= k < |s.jobs| && k != job ==> t.jobs[k] == s.jobs[k])
      && (forall h :: h in t.sales <==> h in s.sales || HasHash(s.jobs[job].items, h))
      && (forall h :: h in s.sales ==> t.sales[h] == s.sales[h])
      && t.flights == s.flights - {req}
  {
    InsertShape(s.sales, s.jobs[s.flights[req].job].items);
    hide HasHash, InsertAll;
  }

  function Step(s: State, e: Event): State {
    match e
    case NewJob(items, expiresAt) => s.(jobs := s.jobs + [Job(items, Previewed, expiresAt, None, 0, 0)])
    case ReadJob(req, job, now) => ReadStep(s, req, job, now)
    case Expire(req) => ExpireStep(s, req)
    case Commit(req) => CommitStep(s, req)
    case Crash(req) => s.(flights := s.flights - {req})
  }

  function Run(s: State, events: seq<Event>): State {
    if events == [] then s else Step(Run(s, events[..|events| - 1]), events[|events| - 1])
  }

  /** A sale is from the start or from a job that was committed. */
  predicate FromJob(s: State, h: int) {
    exists j :: 0 <= j < |s.jobs| && s.jobs[j].insertedCount.Some? && HasHash(s.jobs[j].items, h)
  }

  ghost predicate Grown(a: map<int, Sale>, b: map<int, Sale>) { forall h :: h in a ==> h in b && b[h] == a[h] }

  predicate AllIn(items: seq<SaleRow>, sales: map<int, Sale>) {
    forall i :: 0 <= i < |items| ==> items[i].hash in sales
  }

  ghost predicate Inv(s0: State, s: State) {
    && Grown(s0.sales, s.sales)
    && (forall h :: h in s.sales ==> h in s0.sales || FromJob(s, h))
    && (forall j :: 0 <= j < |s.jobs| && s.jobs[j].insertedCount.Some? ==> AllIn(s.jobs[j].items, s.sales))
    && |s.sales| == |s0.sales| + s.total
  }

  predicate Begins(s: State) { s.total == 0 && s.jobs == [] && s.flights == map[] }

  /** The steps only ever add jobs and complete them. */
  predicate LaterJobs(a: seq<Job>, b: seq<Job>) {
    |a| <= |b| && forall j :: 0 <= j < |a| ==>
      b[j].items == a[j].items && (a[j].insertedCount.Some? ==> b[j].insertedCount.Some?)
  }

  lemma FromJobKept(s: State, t: State, h: int)
    requires LaterJobs(s.jobs, t.jobs) && FromJob(s, h)
    ensures FromJob(t, h)
  {
    var j :| 0 <= j < |s.jobs| && s.jobs[j].insertedCount.Some? && HasHash(s.jobs[j].items, h);
    assert t.jobs[j].insertedCount.Some? && HasHash(t.jobs[j].items, h);
  }

  lemma InsertFacts(sales: map<int, Sale>, items: seq<SaleRow>)
    ensures var r := InsertAll(sales, items);
      Grown(sales, r) && AllIn(items, r) && |r| >= |sales| && forall h :: h in r && h !in sales ==> HasHash(items, h)
  {
    InsertShape(sales, items);
    forall i | 0 <= i < |items|
      ensures items[i].hash in InsertAll(sales, items)
    {
      assert HasHash(items, items[i].hash);
    }
  }

  lemma CommitInv(s0: State, s: State, req: int)
    requires Inv(s0, s) && req in s.flights && Flying(s, req, Committing(s.flights[req].job))
    ensures Inv(s0, CommitStep(s, req))
  {
    hide HasHash, InsertAll;
    var t, job := CommitStep(s, req), s.flights[req].job;
    InsertFacts(s.sales, s.jobs[job].items);
    forall h | h in t.sales
      ensures h in s0.sales || FromJob(t, h)
    {
      if h in s.sales && h !in s0.sales { FromJobKept(s, t, h); }
      if h !in s.sales { assert t.jobs[job].insertedCount.Some? && HasHash(t.jobs[job].items, h); }
    }
    forall j | 0 <= j < |t.jobs| && t.jobs[j].insertedCount.Some?
      ensures AllIn(t.jobs[j].items, t.sales)
    {
      if j != job { assert AllIn(s.jobs[j].items, s.sales); }
    }
  }

  predicate Commits(s: State, e: Event) {
    e.Commit? && e.req in s.flights && Flying(s, e.req, Committing(s.flights[e.req].job))
  }

  /** The other steps touch neither the sales nor which jobs are committed. */
  lemma OtherSteps(s: State, e: Event)
    requires !Commits(s, e)
    ensures var t := Step(s, e);
      && t.sales == s.sales && t.total == s.total && LaterJobs(s.jobs, t.jobs)
      && forall j :: 0 <= j < |t.jobs| && t.jobs[j].insertedCount.Some? ==>
           j < |s.jobs| && s.jobs[j].insertedCount.Some? && t.jobs[j].items == s.jobs[j].items
  {
    hide InsertAll, Growth;
  }

  lemma StepInv(s0: State, s: State, e: Event)
    requires Inv(s0, s)
    ensures Inv(s0, Step(s, e))
  {
    if Commits(s, e) {
      hide HasHash, AllIn, Grown, FromJob, LaterJobs, Inv, InsertAll;
      CommitInv(s0, s, e.req);
    } else {
      hide HasHash, AllIn, Grown, Step, FromJob, LaterJobs;
      var t := Step(s, e);
      OtherSteps(s, e);
      forall h | h in t.sales
        ensures h in s0.sales || FromJob(t, h)
      {
        if h !in s0.sales { FromJobKept(s, t, h); }
      }
    }
  }

  /** Whatever commits run, race or crash: every sale is there once under its hash and never changes; the sales are
      those from the start and the importable rows of the committed jobs, all of them; and the counts reported by the
      commits add up to the growth. */
  lemma {:induction false} SetInsert(s0: State, events: seq<Event>)
    requires Begins(s0)
    ensures Inv(s0, Run(s0, events))
  {
    hide Step, FromJob, AllIn;
    if events != [] {
      SetInsert(s0, events[..|events| - 1]);
      StepInv(s0, Run(s0, events[..|events| - 1]), events[|events| - 1]);
    }
  }

  lemma {:induction false} InsertNothing(sales: map<int, Sale>, items: seq<SaleRow>)
    requires forall i :: 0 <= i < |items| ==> items[i].hash in sales
    ensures InsertAll(sales, items) == sales
  {
    if items != [] { InsertNothing(sales, items[..|items| - 1]); }
  }

  // ---- The stored count -------------------------------------------------------------------------------------

  /** What the job records as inserted is what its commits have added. */
  predicate Right(s: State, job: nat)
    requires job < |s.jobs|
  {
    s.jobs[job].insertedCount == Some(s.jobs[job].added)
  }

  /** The first commit adds whatever is new and takes the job out of PREVIEWED; each later one adds nothing. */
  predicate Counted(s: State, j: Job) {
    && (j.insertedCount.None? <==> j.commits == 0)
    && (j.commits > 0 ==> j.status != Previewed && AllIn(j.items, s.sales))
    && (j.commits == 0 ==> j.added == 0)
    && (j.commits == 1 ==> j.insertedCount == Some(j.added))
    && (j.commits > 1 ==> j.insertedCount == Some(0))
  }

  ghost predicate CountInv(s: State) { forall j :: 0 <= j < |s.jobs| ==> Counted(s, s.jobs[j]) }

  lemma AddsNothing(s: State, job: nat)
    requires job < |s.jobs| && AllIn(s.jobs[job].items, s.sales)
    ensures Growth(s, job) == 0 && InsertAll(s.sales, s.jobs[job].items) == s.sales
  {
    InsertNothing(s.sales, s.jobs[job].items);
  }

  lemma CommitCounted(s: State, req: int, k: nat)
    requires CountInv(s) && req in s.flights && Flying(s, req, Committing(s.flights[req].job)) && k < |s.jobs|
    ensures Counted(CommitStep(s, req), CommitStep(s, req).jobs[k])
  {
    var job := s.flights[req].job;
    InsertFacts(s.sales, s.jobs[job].items);
    assert Counted(s, s.jobs[k]) && Counted(s, s.jobs[job]);
    if s.jobs[job].commits > 0 { AddsNothing(s, job); }
    hide InsertAll;
  }

  lemma CountStep(s: State, e: Event)
    requires CountInv(s)
    ensures CountInv(Step(s, e))
  {
    hide InsertAll, AllIn, Growth;
    var t := Step(s, e);
    if Commits(s, e) {
      forall k: nat | k < |s.jobs|
        ensures Counted(t, t.jobs[k])
      {
        CommitCounted(s, e.req, k);
      }
    } else {
      forall k | 0 <= k < |t.jobs|
        ensures Counted(t, t.jobs[k])
      {
        if k < |s.jobs| { assert Counted(s, s.jobs[k]); }
      }
    }
  }

  /** In every run a committed job records what its commits have added exactly if it was committed once, or nothing in
      it was new. */
  lemma {:induction false} StoredCountIff(s0: State, events: seq<Event>)
    requires Begins(s0)
    ensures CountInv(Run(s0, events))
    ensures var s := Run(s0, events); forall k :: 0 <= k < |s.jobs| && s.jobs[k].commits > 0 ==>
      (Right(s, k) <==> s.jobs[k].commits == 1 || s.jobs[k].added == 0)
  {
    hide Step, AllIn;
    if events != [] {
      StoredCountIff(s0, events[..|events| - 1]);
      CountStep(Run(s0, events[..|events| - 1]), events[|events| - 1]);
    }
    var s := Run(s0, events);
    assert forall k :: 0 <= k < |s.jobs| ==> Counted(s, s.jobs[k]);
  }

  /** The count of a committed job cannot go wrong any more. */
  ghost predicate StaysRight(s: State, job: nat) {
    && job < |s.jobs| && s.jobs[job].commits > 0 && Right(s, job)
    && (s.jobs[job].added == 0 || forall r :: r in s.flights ==> s.flights[r] != Committing(job))
  }

  lemma StaysRightStep(s: State, e: Event, job: nat)
    requires StaysRight(s, job) && CountInv(s)
    ensures StaysRight(Step(s, e), job)
  {
    hide InsertAll, AllIn, Growth;
    assert Counted(s, s.jobs[job]);
    if e.Commit? && e.req in s.flights && s.flights[e.req] == Committing(job) { AddsNothing(s, job); }
  }

  lemma {:induction false} StaysRightRun(s: State, events: seq<Event>, job: nat)
    requires StaysRight(s, job) && CountInv(s)
    ensures StaysRight(Run(s, events), job) && CountInv(Run(s, events))
  {
    hide Step, StaysRight, CountInv;
    if events != [] {
      StaysRightRun(s, events[..|events| - 1], job);
      StaysRightStep(Run(s, events[..|events| - 1]), events[|events| - 1], job);
      CountStep(Run(s, events[..|events| - 1]), events[|events| - 1]);
    }
  }

  /** Another request has read the job as well and is about to commit it. */
  ghost predicate ReadTwice(s: State, req: int, job: nat) {
    exists other :: other != req && Flying(s, other, Committing(job))
  }

  /** In what a caller can see: from the first commit of a job on its count is right in every continuation if and only
      if that commit adds nothing or no second request has read the job before it. */
  lemma CountStaysRightIff(s0: State, before: seq<Event>, req: int, job: nat)
    requires Begins(s0) && Flying(Run(s0, before), req, Committing(job)) && Run(s0, before).jobs[job].commits == 0
    ensures var s := Run(s0, before);
      (forall more :: var t := Run(Step(s, Commit(req)), more); job < |t.jobs| && Right(t, job))
        <==> Growth(s, job) == 0 || !ReadTwice(s, req, job)
  {
    hide InsertAll, Run, AllIn, Growth;
    var s := Run(s0, before);
    StoredCountIff(s0, before);
    assert Counted(s, s.jobs[job]);
    var a := Step(s, Commit(req));
    CountStep(s, Commit(req));
    if Growth(s, job) == 0 || !ReadTwice(s, req, job) {
      forall r | r in a.flights && a.flights[r] == Committing(job)
        ensures ReadTwice(s, req, job)
      {
        assert r != req && Flying(s, r, Committing(job));
      }
      assert StaysRight(a, job);
      forall more
        ensures var t := Run(a, more); job < |t.jobs| && Right(t, job)
      {
        StaysRightRun(a, more, job);
      }
    } else {
      var other :| other != req && Flying(s, other, Committing(job));
      SecondCommit(s, req, other, job);
      RunOne(a, Commit(other));
    }
  }

  lemma RunOne(s: State, e: Event)
    ensures Run(s, [e]) == Step(s, e)
  {
    hide Step;
    assert [e][..0] == [];
  }

  /** Two requests that both read the job before either committed: the second transaction inserts nothing, and it
      overwrites the stored count with 0. */
  lemma SecondCommit(s: State, first: int, second: int, job: nat)
    requires first != second && Flying(s, first, Committing(job)) && Flying(s, second, Committing(job))
    ensures var a := Step(s, Commit(first)); var b := Step(a, Commit(second));
      && b.sales == a.sales == InsertAll(s.sales, s.jobs[job].items) && b.total == a.total && job < |b.jobs|
      && b.jobs[job].insertedCount == Some(0) && b.jobs[job].added == s.jobs[job].added + Growth(s, job)
  {
    InsertFacts(s.sales, s.jobs[job].items);
    hide InsertAll;
    AddsNothing(Step(s, Commit(first)), job);
  }

  lemma RunFive(s: State, a: Event, b: Event, c: Event, d: Event, e: Event)
    ensures Run(s, [a, b, c, d, e]) == Step(Step(Step(Step(Step(s, a), b), c), d), e)
  {
    hide Step;
    assert [a, b, c, d, e][..4] == [a, b, c, d] && [a, b, c, d][..3] == [a, b, c] && [a, b, c][..2] == [a, b]
      && [a, b][..1] == [a];
    RunOne(s, a);
    assert Run(s, [a, b]) == Step(Step(s, a), b);
    assert Run(s, [a, b, c]) == Step(Step(Step(s, a), b), c);
  }

  lemma {:induction false} NewRowGrows(sales: map<int, Sale>, items: seq<SaleRow>, i: nat)
    requires i < |items| && items[i].hash !in sales
    ensures |InsertAll(sales, items)| > |sales|
  {
    var init := items[..|items| - 1];
    InsertShape(sales, init);
    if i < |items| - 1 {
      NewRowGrows(sales, init, i);
    } else if items[i].hash in InsertAll(sales, init) {
      var k :| 0 <= k < |init| && init[k].hash == items[i].hash;
      NewRowGrows(sales, init, k);
    }
  }

  /** It happens: two requests read a fresh job with a new row, and after both commits the job records no inserted
      row. */
  lemma SecondCommitResetsCount(s0: State, items: seq<SaleRow>, expiresAt: int, i: nat)
    requires Begins(s0) && i < |items| && items[i].hash !in s0.sales
    ensures var t := Run(s0,
      [NewJob(items, expiresAt), ReadJob(1, 0, expiresAt), ReadJob(2, 0, expiresAt), Commit(1), Commit(2)]);
      && t.sales == InsertAll(s0.sales, items) && |t.sales| > |s0.sales|
      && |t.jobs| == 1 && t.jobs[0].insertedCount == Some(0) && t.jobs[0].added > 0
  {
    RunFive(s0, NewJob(items, expiresAt), ReadJob(1, 0, expiresAt), ReadJob(2, 0, expiresAt), Commit(1), Commit(2));
    NewRowGrows(s0.sales, items, i);
    hide InsertAll, Run;
    var a := Step(s0, NewJob(items, expiresAt));
    assert a == s0.(jobs := [Job(items, Previewed, expiresAt, None, 0, 0)]);
    var b := Step(a, ReadJob(1, 0, expiresAt));
    var c := Step(b, ReadJob(2, 0, expiresAt));
    assert c == a.(flights := map[1 := Committing(0), 2 := Committing(0)]);
    SecondCommit(c, 1, 2, 0);
  }
}

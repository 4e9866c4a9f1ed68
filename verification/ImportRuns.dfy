/** What any history of commit attempts leaves behind: the same store as one uninterrupted pass over the rows. */
module ImportRuns {
  import opened Options
  import opened ImportCommit

  // ---- The reference: one pass over the rows, no chunks, no checkpoints, no faults --------------------

  datatype Pass = Pass(db: Db, marks: seq<ItemStatus>)

  /** The store after the first n rows, with one mark per row; None when one of them is in error. */
  function Straight(db: Db, mode: Mode, rows: seq<ImportRow>, n: nat): (r: Option<Pass>)
    requires n <= |rows|
    ensures r.Some? ==> |r.value.marks| == n && forall i :: 0 <= i < n ==> Finished(r.value.marks[i])
  {
    if n == 0 then Some(Pass(db, [])) else
    match Straight(db, mode, rows, n - 1)
    case None => None
    case Some(p) =>
      match ApplyRow(p.db, mode, n, rows[n - 1])
      case Applied(db') => Some(Pass(db', p.marks + [Completed]))
      case SkipRow => Some(Pass(p.db, p.marks + [Skipped]))
      case RowError => None
  }

  predicate Finished(st: ItemStatus) { st == Completed || st == Skipped }

  /** How many rows from the top are finished. */
  function Done(statuses: seq<ItemStatus>): (n: nat)
    ensures n <= |statuses| && (forall i :: 0 <= i < n ==> Finished(statuses[i]))
      && (n < |statuses| ==> !Finished(statuses[n]))
  {
    if statuses == [] || !Finished(statuses[0]) then 0 else 1 + Done(statuses[1..])
  }

  lemma DoneIs(statuses: seq<ItemStatus>, n: nat)
    requires n <= |statuses| && (forall i :: 0 <= i < n ==> Finished(statuses[i]))
      && (n < |statuses| ==> !Finished(statuses[n]))
    ensures Done(statuses) == n
  {
  }

  // ---- The invariant ----------------------------------------------------------------------------------

  /** The first n rows are finished exactly as in the straight pass, and no later row has left a trace. */
  predicate Upto(db0: Db, mode: Mode, rows: seq<ImportRow>, db: Db, statuses: seq<ItemStatus>, n: nat) {
    && n <= |rows| == |statuses|
    && Straight(db0, mode, rows, n) == Some(Pass(db, statuses[..n]))
    && forall i :: n <= i < |rows| ==> !Finished(statuses[i])
  }

  predicate NoneProcessing(statuses: seq<ItemStatus>) { forall i :: 0 <= i < |statuses| ==> statuses[i] != Processing }

  predicate Progress(j0: Job, j: Job) {
    && j == j0.(status := j.status, statuses := j.statuses, db := j.db)
    && Coherent(j) && NoneProcessing(j.statuses)
    && Upto(j0.db, j.mode, j.rows, j.db, j.statuses, Done(j.statuses))
    && j.status != JobCommitting
    && (j.status == JobCompleted ==> Done(j.statuses) == |j.rows|)
  }

  predicate NewJob(j: Job) {
    Coherent(j) && j.status == JobPreviewed && forall i :: 0 <= i < |j.statuses| ==> j.statuses[i] == Pending
  }

  function Range(a: nat, n: nat): (ks: seq<nat>)
    requires a <= n
    ensures |ks| == n - a && forall i :: 0 <= i < |ks| ==> ks[i] == a + i
  {
    seq(n - a, i requires 0 <= i < n - a => a + i)
  }

  /** A resume loads exactly the rows after the finished ones, in order. */
  lemma {:induction false} TodoIsRest(statuses: seq<ItemStatus>, n: nat, m: nat)
    requires n <= |statuses| && m <= |statuses| && NoneProcessing(statuses)
    requires (forall i :: 0 <= i < n ==> Finished(statuses[i]))
      && (forall i :: n <= i < |statuses| ==> !Finished(statuses[i]))
    ensures Todo(statuses, m) == if m <= n then [] else Range(n, m)
  {
    if m > 0 {
      TodoIsRest(statuses, n, m - 1);
      if m <= n { assert Finished(statuses[m - 1]); }
      else {
        assert !Finished(statuses[m - 1]) && statuses[m - 1] != Processing;
        assert Range(n, m) == (if m - 1 <= n then [] else Range(n, m - 1)) + [m - 1];
      }
    }
  }

  predicate Struck(fault: Fault, a: nat, n: nat) { fault.AtRow? && a <= fault.row < n }

  /** One row of a chunk does what the straight pass does on it, unless the fault strikes there. */
  lemma RowFollows(db0: Db, t: Tx, mode: Mode, rows: seq<ImportRow>, n: nat, fault: Fault)
    requires 0 < n <= |rows| && Upto(db0, mode, rows, t.db, t.statuses, n - 1)
    ensures var r := RowTx(t, mode, rows, n - 1, fault);
      && (r.Some? <==> Straight(db0, mode, rows, n).Some? && fault != AtRow(n - 1))
      && (r.Some? ==> Upto(db0, mode, rows, r.value.db, r.value.statuses, n))
  {
    hide ApplyRow;
    match ApplyRow(t.db, mode, n, rows[n - 1]) {
      case Applied(db) =>
        assert t.statuses[n - 1 := Completed][..n] == t.statuses[..n - 1] + [Completed];
      case SkipRow =>
        assert t.statuses[n - 1 := Skipped][..n] == t.statuses[..n - 1] + [Skipped];
      case RowError =>
    }
  }

  lemma ChunkEmpty(db0: Db, tx: Tx, mode: Mode, rows: seq<ImportRow>, a: nat, fault: Fault)
    requires a <= |rows| == |tx.statuses| && Upto(db0, mode, rows, tx.db, tx.statuses, a)
    ensures Within(Range(a, a), |rows|) && ChunkTx(tx, mode, rows, Range(a, a), fault) == Some(tx)
    ensures Straight(db0, mode, rows, a).Some?
  {
    assert Range(a, a) == [];
  }

  lemma ChunkSnoc(tx: Tx, mode: Mode, rows: seq<ImportRow>, a: nat, n: nat, fault: Fault)
    requires a < n <= |rows| == |tx.statuses|
    ensures Within(Range(a, n), |rows|) && Within(Range(a, n - 1), |rows|)
    ensures var before := ChunkTx(tx, mode, rows, Range(a, n - 1), fault);
      ChunkTx(tx, mode, rows, Range(a, n), fault) == if before.None? then None
        else RowTx(before.value, mode, rows, n - 1, fault)
  {
    hide RowTx;
    var ks := Range(a, n);
    assert ks[..|ks| - 1] == Range(a, n - 1) && ks[|ks| - 1] == n - 1;
  }

  /** A chunk transaction over rows a..n does what the straight pass does on them, or nothing. */
  lemma {:induction false} ChunkFollows(db0: Db, tx: Tx, mode: Mode, rows: seq<ImportRow>, a: nat, n: nat, fault: Fault)
    requires a <= n <= |rows| == |tx.statuses| && Upto(db0, mode, rows, tx.db, tx.statuses, a)
    ensures Within(Range(a, n), |rows|)
    ensures var r := ChunkTx(tx, mode, rows, Range(a, n), fault);
      && (r.Some? <==> Straight(db0, mode, rows, n).Some? && !Struck(fault, a, n))
      && (r.Some? ==> Upto(db0, mode, rows, r.value.db, r.value.statuses, n))
  {
    hide RowTx, Straight, Upto, ChunkTx;
    ChunkEmpty(db0, tx, mode, rows, a, fault);
    if a < n {
      ChunkSnoc(tx, mode, rows, a, n, fault);
      ChunkFollows(db0, tx, mode, rows, a, n - 1, fault);
      var before := ChunkTx(tx, mode, rows, Range(a, n - 1), fault);
      assert Struck(fault, a, n) <==> Struck(fault, a, n - 1) || fault == AtRow(n - 1);
      if before.Some? {
        RowFollows(db0, before.value, mode, rows, n, fault);
      } else if Straight(db0, mode, rows, n - 1).None? {
        StraightFails(db0, mode, rows, n - 1, n);
      }
    }
  }

  /** A chunk that is marked and then rolled back leaves the finished rows as they were. */
  lemma MarkedUpto(db0: Db, mode: Mode, rows: seq<ImportRow>, db: Db, statuses: seq<ItemStatus>, a: nat, n: nat)
    requires a <= n <= |rows| && Upto(db0, mode, rows, db, statuses, a)
    ensures Within(Range(a, n), |statuses|)
    ensures Upto(db0, mode, rows, db, Marked(statuses, Range(a, n)), a)
  {
    var ks := Range(a, n);
    var marked := Marked(statuses, ks);
    forall i | 0 <= i < |statuses|
      ensures i in ks <==> a <= i < n
    {
      if a <= i < n { assert ks[i - a] == i; }
    }
    assert marked[..a] == statuses[..a];
  }

  /** The straight pass that fails on n rows fails on more. */
  lemma {:induction false} StraightFails(db: Db, mode: Mode, rows: seq<ImportRow>, n: nat, m: nat)
    requires n <= m <= |rows| && Straight(db, mode, rows, n).None?
    ensures Straight(db, mode, rows, m).None?
  {
    if n < m { StraightFails(db, mode, rows, n, m - 1); }
  }

  predicate Landing(a: nat, n: nat, end: nat) { a <= n <= end && (n == end || (n - a) % CHUNK_SIZE == 0) }

  /** One chunk, marked and then committed or rolled back. */
  lemma ChunkRound(db0: Db, tx: Tx, mode: Mode, rows: seq<ImportRow>, a: nat, n: nat, fault: Fault)
    requires a < n <= |rows| == |tx.statuses| && Upto(db0, mode, rows, tx.db, tx.statuses, a)
    ensures Within(Range(a, n), |rows|)
    ensures var marked := tx.(statuses := Marked(tx.statuses, Range(a, n)));
      var r := ChunkTx(marked, mode, rows, Range(a, n), fault);
      && Upto(db0, mode, rows, marked.db, marked.statuses, a)
      && (r.None? && fault.NoFault? ==> Straight(db0, mode, rows, |rows|).None?)
      && (r.Some? ==> Upto(db0, mode, rows, r.value.db, r.value.statuses, n))
  {
    hide ChunkTx, Marked;
    MarkedUpto(db0, mode, rows, tx.db, tx.statuses, a, n);
    var marked := tx.(statuses := Marked(tx.statuses, Range(a, n)));
    ChunkFollows(db0, marked, mode, rows, a, n, fault);
    if Straight(db0, mode, rows, n).None? { StraightFails(db0, mode, rows, n, |rows|); }
  }

  lemma AllFinished(db0: Db, mode: Mode, rows: seq<ImportRow>, db: Db, statuses: seq<ItemStatus>)
    requires |statuses| == |rows| && Upto(db0, mode, rows, db, statuses, |rows|)
    ensures NoneProcessing(statuses)
  {
    hide ApplyRow;
    assert statuses[..|rows|] == statuses;
  }

  /** The chunk loop stops on a chunk boundary, with everything before it as in the straight pass and every row
      after it unfinished; without a fault it reaches the end exactly when the straight pass does. */
  lemma {:induction false} ChunksFollow(db0: Db, tx: Tx, mode: Mode, rows: seq<ImportRow>, a: nat, fault: Fault)
      returns (n: nat)
    requires a <= |rows| == |tx.statuses| && Upto(db0, mode, rows, tx.db, tx.statuses, a)
    ensures Within(Range(a, |rows|), |rows|)
    ensures var r := Chunks(tx, mode, rows, Range(a, |rows|), fault);
      && Landing(a, n, |rows|)
      && Upto(db0, mode, rows, r.tx.db, r.tx.statuses, n)
      && (r.ok ==> n == |rows|)
      && (fault.NoFault? && Straight(db0, mode, rows, |rows|).Some? ==> r.ok)
    decreases |rows| - a
  {
    hide Upto, ChunkTx, Marked, Straight;
    var todo := Range(a, |rows|);
    n := a;
    if a == |rows| { return; }
    var chunk := FirstChunk(todo);
    var b := a + |chunk|;
    assert chunk == Range(a, b);
    if fault == AtMark(todo[0]) { return; }
    ChunkRound(db0, tx, mode, rows, a, b, fault);
    var marked := tx.(statuses := Marked(tx.statuses, chunk));
    var r := ChunkTx(marked, mode, rows, chunk, fault);
    if r.Some? {
      assert todo[|chunk|..] == Range(b, |rows|);
      n := ChunksFollow(db0, r.value, mode, rows, b, fault);
    }
  }

  // ---- One attempt, then any history ------------------------------------------------------------------

  datatype Call = Call(now: int, warehouse: bool, fault: Fault)

  function Run(j: Job, calls: seq<Call>): (r: Job)
    requires Coherent(j)
    ensures Coherent(r) && r == j.(status := r.status, statuses := r.statuses, db := r.db)
  {
    if calls == [] then j
    else var c := calls[|calls| - 1]; Attempt(Run(j, calls[..|calls| - 1]), c.now, c.warehouse, c.fault).0
  }

  /** What lets an attempt reach the rows. */
  predicate Open(j: Job, now: int, warehouse: bool) {
    j.invalidRows == 0 && j.status in {JobPreviewed, JobFailed} && now <= j.expiresAt && j.payloadIntact && warehouse
  }

  lemma ReleasedKeeps(db0: Db, mode: Mode, rows: seq<ImportRow>, db: Db, statuses: seq<ItemStatus>, n: nat)
    requires |statuses| == |rows| && Upto(db0, mode, rows, db, statuses, n)
    ensures n <= |rows| && Done(statuses) == Done(Released(statuses)) == n
    ensures Upto(db0, mode, rows, db, Released(statuses), n)
    ensures |Released(statuses)| == |rows| && NoneProcessing(Released(statuses))
  {
    hide ApplyRow;
    var released := Released(statuses);
    assert forall i :: 0 <= i < n ==> Finished(statuses[..n][i]) && statuses[..n][i] == statuses[i];
    assert statuses[..n] == released[..n];
    DoneIs(statuses, n);
    DoneIs(released, n);
  }

  lemma ReleasedUpto(j0: Job, j: Job, db: Db, statuses: seq<ItemStatus>, n: nat, status: JobStatus)
    requires n <= |j.rows| == |statuses| && Upto(j0.db, j.mode, j.rows, db, statuses, n)
    requires j == j0.(status := j.status, statuses := j.statuses, db := j.db)
    requires status == JobFailed || (status == JobCompleted && n == |j.rows|)
    ensures Done(statuses) == Done(Released(statuses)) == n
    ensures status == JobFailed ==> Progress(j0, j.(status := status, statuses := Released(statuses), db := db))
    ensures status == JobCompleted ==> Progress(j0, j.(status := status, statuses := statuses, db := db))
  {
    var released := Released(statuses);
    ReleasedKeeps(j0.db, j.mode, j.rows, db, statuses, n);
    if n == |j.rows| { AllFinished(j0.db, j.mode, j.rows, db, statuses); }
    hide Upto;
  }

  /** How far the chunks of an attempt get, in rows of the straight pass. */
  lemma ProgressedUpto(j0: Job, j: Job, fault: Fault) returns (n: nat)
    requires Progress(j0, j)
    ensures var out := Progressed(j, fault);
      && Upto(j0.db, j.mode, j.rows, out.tx.db, out.tx.statuses, n) && Landing(Done(j.statuses), n, |j.rows|)
      && (out.ok ==> n == |j.rows|)
      && (fault.NoFault? ==> (out.ok <==> Straight(j0.db, j0.mode, j0.rows, |j0.rows|).Some?))
      && (fault == AtLoad ==> !out.ok)
  {
    n := Done(j.statuses);
    if fault != AtLoad {
      TodoIsRest(j.statuses, n, |j.statuses|);
      n := ChunksFollow(j0.db, Tx(j.db, j.statuses), j.mode, j.rows, n, fault);
    }
  }

  lemma WorkProgress(j0: Job, j: Job, fault: Fault)
    requires Progress(j0, j) && j.status != JobCompleted
    ensures var (j', reply) := Work(j, fault);
      && Progress(j0, j') && Landing(Done(j.statuses), Done(j'.statuses), |j.rows|)
      && (reply == Success <==> j'.status == JobCompleted)
      && (fault.NoFault? ==> (reply == Success <==> Straight(j0.db, j0.mode, j0.rows, |j0.rows|).Some?))
  {
    var n := ProgressedUpto(j0, j, fault);
    var out := Progressed(j, fault);
    hide Progressed, Straight, Upto, Landing;
    ReleasedUpto(j0, j, out.tx.db, out.tx.statuses, n, if out.ok && fault != AtFinish then JobCompleted else JobFailed);
  }

  lemma ShutKeeps(j0: Job, j: Job, now: int, warehouse: bool, fault: Fault)
    requires Progress(j0, j) && !Open(j, now, warehouse)
    ensures var (j', reply) := Attempt(j, now, warehouse, fault);
      && Progress(j0, j') && Landing(Done(j.statuses), Done(j'.statuses), |j.rows|) && reply != Success
      && (j'.status == JobCompleted <==> j.status == JobCompleted)
  {
    hide Work, Straight;
  }

  /** Every attempt keeps the invariant and never undoes a row; it succeeds on a job that is open exactly when the
      straight pass has no row in error, if no fault strikes. */
  lemma AttemptProgress(j0: Job, j: Job, now: int, warehouse: bool, fault: Fault)
    requires Progress(j0, j)
    ensures var (j', reply) := Attempt(j, now, warehouse, fault);
      && Progress(j0, j')
      && Landing(Done(j.statuses), Done(j'.statuses), |j.rows|)
      && (reply == Success <==> j.status != JobCompleted && j'.status == JobCompleted)
      && (reply == Success ==> Open(j, now, warehouse))
      && (Open(j, now, warehouse) && fault.NoFault? ==>
        (reply == Success <==> Straight(j0.db, j0.mode, j0.rows, |j0.rows|).Some?))
  {
    hide Progress, Work, Straight, Landing, Done;
    if Open(j, now, warehouse) {
      WorkProgress(j0, j, fault);
    } else {
      ShutKeeps(j0, j, now, warehouse, fault);
    }
  }

  lemma {:induction false} RunProgress(j0: Job, calls: seq<Call>)
    requires NewJob(j0)
    ensures Progress(j0, Run(j0, calls))
  {
    hide Attempt;
    if calls == [] {
      assert Done(j0.statuses) == 0;
      assert j0.statuses[..0] == [];
    } else {
      var c := calls[|calls| - 1];
      RunProgress(j0, calls[..|calls| - 1]);
      AttemptProgress(j0, Run(j0, calls[..|calls| - 1]), c.now, c.warehouse, c.fault);
    }
  }

  /** Any history that ends in COMPLETED leaves the store and the checkpoints of one straight pass over all rows,
      so any two such histories agree; and a file with a row in error is never completed. */
  lemma CompletedEqualsStraight(j0: Job, calls: seq<Call>)
    requires NewJob(j0) && Run(j0, calls).status == JobCompleted
    ensures Straight(j0.db, j0.mode, j0.rows, |j0.rows|) == Some(Pass(Run(j0, calls).db, Run(j0, calls).statuses))
  {
    hide Attempt, ApplyRow, Straight, Run;
    RunProgress(j0, calls);
    var j := Run(j0, calls);
    assert j.statuses[..|j.rows|] == j.statuses;
  }

  /** After any history that leaves the job open, one more fault-free attempt completes it exactly when no row is
      in error. */
  lemma RetryCompletesIff(j0: Job, calls: seq<Call>, now: int)
    requires NewJob(j0) && Open(Run(j0, calls), now, true)
    ensures Run(j0, calls + [Call(now, true, NoFault)]).status == JobCompleted
      <==> Straight(j0.db, j0.mode, j0.rows, |j0.rows|).Some?
  {
    hide Attempt, ApplyRow, Straight;
    RunProgress(j0, calls);
    assert (calls + [Call(now, true, NoFault)])[..|calls|] == calls;
    AttemptProgress(j0, Run(j0, calls), now, true, NoFault);
  }

  /** What a call answers, gate by gate, and what it changes when a gate stops it. */
  lemma RepliesAre(j: Job, now: int, warehouse: bool, fault: Fault)
    requires Coherent(j)
    ensures var (after, reply) := Attempt(j, now, warehouse, fault);
      && (j.invalidRows > 0 ==> reply == InvalidRows && after == j)
      && (j.invalidRows == 0 && j.status == JobCompleted ==> reply == AlreadyDone && after == j)
      && (j.invalidRows == 0 && j.status == JobCommitting ==> reply == Busy && after == j)
      && (j.invalidRows == 0 && j.status in {JobPreviewed, JobFailed, JobExpired} ==>
            if j.status == JobExpired || now > j.expiresAt then reply == Expired && after == j.(status := JobExpired)
            else if !j.payloadIntact then reply == Tampered && after == j
            else if !warehouse then reply == NoWarehouse && after == j
            else
              && (reply == Success || reply == CommitError)
              && after.status == (if reply == Success then JobCompleted else JobFailed)
              && after == j.(status := after.status, statuses := after.statuses, db := after.db)
              && (fault == AtLoad || fault == AtFinish ==> reply == CommitError)
              && (fault == AtLoad ==> after.db == j.db))
  {
    hide Progressed;
    if fault == AtLoad { NothingLoaded(j); }
  }

  lemma NothingLoaded(j: Job)
    requires Coherent(j)
    ensures Progressed(j, AtLoad) == Committed(Tx(j.db, j.statuses), false)
  {}

  // ---- What the store holds -----------------------------------------------------------------------------

  /** The store after applying exactly the rows whose checkpoint is COMPLETED, in row order. */
  function Effects(db: Db, mode: Mode, rows: seq<ImportRow>, statuses: seq<ItemStatus>): Db
    requires |statuses| <= |rows|
  {
    if statuses == [] then db else
    var n := |statuses|;
    var before := Effects(db, mode, rows, statuses[..n - 1]);
    if statuses[n - 1] != Completed then before else
    match ApplyRow(before, mode, n, rows[n - 1])
    case Applied(db') => db'
    case _ => before
  }

  lemma EffectsNone(db: Db, mode: Mode, rows: seq<ImportRow>)
    ensures Effects(db, mode, rows, []) == db
  {}

  lemma EffectsSnoc(db: Db, mode: Mode, rows: seq<ImportRow>, marks: seq<ItemStatus>, mark: ItemStatus)
    requires |marks| < |rows|
    ensures var before := Effects(db, mode, rows, marks); var out := ApplyRow(before, mode, |marks| + 1, rows[|marks|]);
      Effects(db, mode, rows, marks + [mark]) == if mark == Completed && out.Applied? then out.db else before
  {
    hide ApplyRow;
    assert (marks + [mark])[..|marks|] == marks;
  }

  lemma {:induction false} StraightEffects(db: Db, mode: Mode, rows: seq<ImportRow>, n: nat)
    requires n <= |rows| && Straight(db, mode, rows, n).Some?
    ensures var p := Straight(db, mode, rows, n).value; p.db == Effects(db, mode, rows, p.marks)
  {
    hide ApplyRow, Effects;
    if n > 0 {
      StraightEffects(db, mode, rows, n - 1);
      var before := Straight(db, mode, rows, n - 1).value;
      EffectsSnoc(db, mode, rows, before.marks, if ApplyRow(before.db, mode, n, rows[n - 1]).Applied? then Completed
        else Skipped);
    } else {
      EffectsNone(db, mode, rows);
    }
  }

  lemma {:induction false} UnfinishedTail(db: Db, mode: Mode, rows: seq<ImportRow>, statuses: seq<ItemStatus>, n: nat)
    requires n <= |statuses| <= |rows| && forall i :: n <= i < |statuses| ==> !Finished(statuses[i])
    ensures Effects(db, mode, rows, statuses) == Effects(db, mode, rows, statuses[..n])
  {
    hide ApplyRow;
    if n < |statuses| {
      UnfinishedTail(db, mode, rows, statuses[..|statuses| - 1], n);
      assert statuses[..|statuses| - 1][..n] == statuses[..n];
    } else {
      assert statuses[..n] == statuses;
    }
  }

  /** After any history, failed or not, the store holds the effects of a row if and only if its checkpoint is
      COMPLETED, each once and in row order. */
  lemma EffectsIffCompleted(j0: Job, calls: seq<Call>)
    requires NewJob(j0)
    ensures var j := Run(j0, calls); j.db == Effects(j0.db, j0.mode, j0.rows, j.statuses)
  {
    hide Attempt, ApplyRow, Run;
    RunProgress(j0, calls);
    var j := Run(j0, calls);
    StraightEffects(j0.db, j0.mode, j0.rows, Done(j.statuses));
    UnfinishedTail(j0.db, j0.mode, j0.rows, j.statuses, Done(j.statuses));
  }

  // ---- Stock and ledger ---------------------------------------------------------------------------------

  predicate Mentions(rows: seq<ImportRow>, n: nat, sku: int)
    requires n <= |rows|
  {
    exists i :: 0 <= i < n && rows[i].sku == sku
  }

  /** What one row asks of the quantity of its own SKU. */
  function RowTarget(known: bool, mode: Mode, r: ImportRow, before: int): int {
    match mode
    case CreateOnly => if known || r.initialQuantity < 0 then before else before + r.initialQuantity
    case UpsertMetadata => before
    case AdjustStock => if r.adjustment.Some? then before + r.adjustment.value else before
    case ReplaceStock => if r.counted.Some? then r.counted.value else before
  }

  /** The quantity of a SKU that the file asks for, read off the rows: the opening quantity of the first row that
      names a new SKU, nothing, the sum of the adjustments, or the last count. */
  function Target(db0: Db, mode: Mode, rows: seq<ImportRow>, n: nat, sku: int): int
    requires n <= |rows|
  {
    if n == 0 then Quantity(db0, sku) else
    var before := Target(db0, mode, rows, n - 1, sku);
    if rows[n - 1].sku != sku then before
    else RowTarget(sku in db0.items || Mentions(rows, n - 1, sku), mode, rows[n - 1], before)
  }

  function DeltaSum(ledger: seq<Movement>, sku: int): int {
    if ledger == [] then 0
    else
      var last := ledger[|ledger| - 1];
      (if last.sku == sku then last.delta else 0) + DeltaSum(ledger[..|ledger| - 1], sku)
  }

  /** Which SKUs exist, what quantity they have and what the ledger says, after n rows. */
  predicate StockRight(db0: Db, mode: Mode, rows: seq<ImportRow>, n: nat, db: Db, sku: int)
    requires n <= |rows|
  {
    && (sku in db.items <==> sku in db0.items || (!IsStockMode(mode) && Mentions(rows, n, sku)))
    && Quantity(db, sku) == Target(db0, mode, rows, n, sku)
    && Quantity(db, sku) - Quantity(db0, sku) == DeltaSum(db.ledger, sku) - DeltaSum(db0.ledger, sku)
  }

  lemma DeltaSnoc(ledger: seq<Movement>, m: Movement, sku: int)
    ensures DeltaSum(ledger + [m], sku) == DeltaSum(ledger, sku) + (if m.sku == sku then m.delta else 0)
  {
    assert (ledger + [m])[..|ledger|] == ledger;
  }

  /** One movement: the balance and the ledger change together, for this SKU only. */
  lemma MovedStock(db: Db, row: nat, moved: int, delta: int, sku: int)
    ensures !Moved(db, row, moved, delta).SkipRow?
    ensures var out := Moved(db, row, moved, delta);
      out.Applied? ==>
        && out.db.items == db.items
        && Quantity(out.db, sku) == Quantity(db, sku) + (if sku == moved then delta else 0)
        && DeltaSum(out.db.ledger, sku) == DeltaSum(db.ledger, sku) + (if sku == moved then delta else 0)
  {
    DeltaSnoc(db.ledger, Movement(row, moved, delta), sku);
  }

  lemma RowEffect(db: Db, mode: Mode, row: nat, r: ImportRow, sku: int)
    ensures var out := ApplyRow(db, mode, row, r);
      && (out.Applied? ==>
          && (sku in out.db.items <==> sku in db.items || (!IsStockMode(mode) && sku == r.sku))
          && Quantity(out.db, sku)
            == (if sku == r.sku then RowTarget(sku in db.items, mode, r, Quantity(db, sku)) else Quantity(db, sku))
          && DeltaSum(out.db.ledger, sku) - DeltaSum(db.ledger, sku) == Quantity(out.db, sku) - Quantity(db, sku))
      && (out.SkipRow? ==> r.sku in db.items && mode == CreateOnly)
  {
    hide DeltaSum, Moved;
    var catalogue := if IsStockMode(mode) then db
                     else if r.sku in db.items then UpdatedItem(Upserted(db, r), row, r)
                     else CreatedItem(Upserted(db, r), r);
    MovedStock(catalogue, row, r.sku, r.initialQuantity, sku);
    if r.adjustment.Some? { MovedStock(catalogue, row, r.sku, r.adjustment.value, sku); }
    if r.counted.Some? { MovedStock(catalogue, row, r.sku, r.counted.value - Quantity(catalogue, r.sku), sku); }
  }

  lemma RowStock(db0: Db, mode: Mode, rows: seq<ImportRow>, n: nat, db: Db, sku: int)
    requires 0 < n <= |rows| && StockRight(db0, mode, rows, n - 1, db, sku)
    ensures var r := ApplyRow(db, mode, n, rows[n - 1]);
      && (r.Applied? ==> StockRight(db0, mode, rows, n, r.db, sku))
      && (r.SkipRow? ==> StockRight(db0, mode, rows, n, db, sku))
  {
    hide DeltaSum, Quantity, ApplyRow;
    var row := rows[n - 1];
    assert Mentions(rows, n, sku) <==> Mentions(rows, n - 1, sku) || row.sku == sku by {
      if row.sku == sku { assert rows[n - 1].sku == sku; }
    }
    RowEffect(db, mode, n, row, sku);
  }

  /** Every straight pass, hence every completed history, brings each SKU to the quantity the file asks for, and the
      ledger accounts for the whole difference. */
  lemma {:induction false} StockReached(db0: Db, mode: Mode, rows: seq<ImportRow>, n: nat, sku: int)
    requires n <= |rows| && Straight(db0, mode, rows, n).Some?
    ensures StockRight(db0, mode, rows, n, Straight(db0, mode, rows, n).value.db, sku)
  {
    hide ApplyRow, StockRight;
    if n > 0 {
      StockReached(db0, mode, rows, n - 1, sku);
      RowStock(db0, mode, rows, n, Straight(db0, mode, rows, n - 1).value.db, sku);
    } else {
      StockStart(db0, mode, rows, sku);
    }
  }

  lemma StockStart(db0: Db, mode: Mode, rows: seq<ImportRow>, sku: int)
    ensures StockRight(db0, mode, rows, 0, db0, sku)
  {}

  /** No history drives a quantity below zero: a deduction larger than the balance is an error. */
  lemma {:induction false} StockStaysNonNegative(db0: Db, mode: Mode, rows: seq<ImportRow>, n: nat, sku: int)
    requires n <= |rows| && Straight(db0, mode, rows, n).Some? && Quantity(db0, sku) >= 0
    requires forall i :: 0 <= i < n && rows[i].counted.Some? ==> rows[i].counted.value >= 0
    ensures Quantity(Straight(db0, mode, rows, n).value.db, sku) >= 0
  {
    hide ApplyRow, Quantity;
    if n > 0 {
      StockStaysNonNegative(db0, mode, rows, n - 1, sku);
      var before := Straight(db0, mode, rows, n - 1).value.db;
      RowEffect(before, mode, n, rows[n - 1], sku);
      if mode == AdjustStock && rows[n - 1].adjustment.Some? && ApplyRow(before, mode, n, rows[n - 1]).Applied? {
        DeductRefuses(before, mode, n, rows[n - 1]);
      }
    }
  }

  lemma DeductRefuses(db: Db, mode: Mode, row: nat, r: ImportRow)
    requires mode == AdjustStock && r.adjustment.Some? && ApplyRow(db, mode, row, r).Applied?
    ensures r.adjustment.value < 0 ==> Quantity(db, r.sku) + r.adjustment.value >= 0
  {}

  /** Ledger entries of the job come in row order, at most one a row, and only from completed rows. */
  predicate LedgerInOrder(ledger: seq<Movement>, rows: seq<ImportRow>, marks: seq<ItemStatus>)
  {
    && |marks| <= |rows|
    && (forall i, k :: 0 <= i < k < |ledger| ==> ledger[i].row < ledger[k].row)
    && forall i :: 0 <= i < |ledger| ==>
         1 <= ledger[i].row <= |marks| && marks[ledger[i].row - 1] == Completed
           && rows[ledger[i].row - 1].sku == ledger[i].sku
  }

  lemma RowLedger(db: Db, mode: Mode, row: nat, r: ImportRow)
    ensures var out := ApplyRow(db, mode, row, r);
      out.Applied? ==> out.db.ledger == db.ledger || exists delta ::
        out.db.ledger == db.ledger + [Movement(row, r.sku, delta)]
  {}

  lemma {:induction false} LedgerOnce(db0: Db, mode: Mode, rows: seq<ImportRow>, n: nat)
    requires n <= |rows| && Straight(db0, mode, rows, n).Some? && db0.ledger == []
    ensures var p := Straight(db0, mode, rows, n).value; LedgerInOrder(p.db.ledger, rows, p.marks)
  {
    hide ApplyRow;
    if n > 0 {
      LedgerOnce(db0, mode, rows, n - 1);
      RowLedger(Straight(db0, mode, rows, n - 1).value.db, mode, n, rows[n - 1]);
    }
  }

  /** The same for any history: each finished row of the job moved its SKU at most once, and every SKU stands where
      the finished rows put it. */
  lemma HistoryStock(j0: Job, calls: seq<Call>, sku: int)
    requires NewJob(j0) && j0.db.ledger == []
    ensures var j := Run(j0, calls);
      && StockRight(j0.db, j0.mode, j0.rows, Done(j.statuses), j.db, sku)
      && LedgerInOrder(j.db.ledger, j.rows, j.statuses)
  {
    hide Attempt, ApplyRow, Run;
    RunProgress(j0, calls);
    var j := Run(j0, calls);
    var n := Done(j.statuses);
    StockReached(j0.db, j0.mode, j0.rows, n, sku);
    LedgerOnce(j0.db, j0.mode, j0.rows, n);
  }
}

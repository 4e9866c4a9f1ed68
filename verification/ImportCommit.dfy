/** Committing a bulk import job: chunks of rows in one transaction each, a checkpoint per row, and a resume
    after any failure. Names, codes and SKUs are numbers standing for the trimmed (and, for codes, upper-cased)
    strings; prices are amounts in the smallest unit. */
module ImportCommit {
  import opened Options

  datatype Mode = CreateOnly | UpsertMetadata | AdjustStock | ReplaceStock

  datatype ImportRow = ImportRow(category: int, categoryName: int, product: int, productName: int, sku: int,
      barcode: Option<int>, cost: int, selling: int, initialQuantity: int, adjustment: Option<int>,
      counted: Option<int>, minLevel: int, maxLevel: int)

  datatype StockItem = StockItem(product: int, name: int, barcode: Option<int>, cost: int, selling: int,
      minLevel: int, maxLevel: int, active: bool)
  datatype Product = Product(category: int, name: int)
  /** A ledger entry; its idempotency key is (job, row, SKU), unique in the table. */
  datatype Movement = Movement(row: nat, sku: int, delta: int)
  datatype PriceChange = PriceChange(sku: int, oldPrice: int, newPrice: int, row: nat)

  datatype Db = Db(categories: map<int, int>, products: map<int, Product>, items: map<int, StockItem>,
      stock: map<int, int>, ledger: seq<Movement>, prices: seq<PriceChange>, expired: seq<int>)

  datatype RowOutcome = Applied(db: Db) | SkipRow | RowError

  function Quantity(db: Db, sku: int): int {
    if sku in db.stock then db.stock[sku] else 0
  }

  /** Move the balance and append the ledger entry; the unique key refuses a second entry of the same row and SKU. */
  function Moved(db: Db, row: nat, sku: int, delta: int): RowOutcome {
    if exists m :: m in db.ledger && m.row == row && m.sku == sku then RowError
    else Applied(db.(stock := db.stock[sku := Quantity(db, sku) + delta],
      ledger := db.ledger + [Movement(row, sku, delta)]))
  }

  predicate ActiveSku(db: Db, sku: int) { sku in db.items && db.items[sku].active }

  function AtomicAdd(db: Db, row: nat, sku: int, quantity: int): RowOutcome {
    if quantity <= 0 then Applied(db) else if !ActiveSku(db, sku) then RowError else Moved(db, row, sku, quantity)
  }

  function AtomicDeduct(db: Db, row: nat, sku: int, quantity: int): RowOutcome {
    if quantity <= 0 then Applied(db)
    else if !ActiveSku(db, sku) || sku !in db.stock || db.stock[sku] < quantity then RowError
    else Moved(db, row, sku, -quantity)
  }

  function ReplaceWithCount(db: Db, row: nat, sku: int, counted: int): RowOutcome {
    if !ActiveSku(db, sku) then RowError
    else if counted == Quantity(db, sku) then Applied(db.(stock := db.stock[sku := counted]))
    else Moved(db, row, sku, counted - Quantity(db, sku))
  }

  function Upserted(db: Db, r: ImportRow): Db {
    db.(categories := db.categories[r.category := r.categoryName],
        products := db.products[r.product := Product(r.category, r.productName)])
  }

  function UpdatedItem(db: Db, row: nat, r: ImportRow): Db
    requires r.sku in db.items
  {
    var current := db.items[r.sku];
    var item := current.(name := r.productName, barcode := if r.barcode.Some? then r.barcode else current.barcode,
                      cost := r.cost, selling := r.selling, minLevel := r.minLevel, maxLevel := r.maxLevel);
    var priced := db.(items := db.items[r.sku := item]);
    var expiring :=
      if current.selling != r.selling || current.cost != r.cost then priced.(expired := db.expired + [r.sku])
      else priced;
    if current.selling != r.selling
      then expiring.(prices := db.prices + [PriceChange(r.sku, current.selling, r.selling, row)]) else expiring
  }

  function CreatedItem(db: Db, r: ImportRow): Db {
    db.(items := db.items[r.sku := StockItem(r.product, r.productName, r.barcode, r.cost, r.selling, r.minLevel,
      r.maxLevel, true)])
  }

  function IsStockMode(mode: Mode): bool { mode == AdjustStock || mode == ReplaceStock }

  /** One row inside the chunk transaction. */
  function ApplyRow(db: Db, mode: Mode, row: nat, r: ImportRow): RowOutcome {
    var existing := r.sku in db.items;
    if existing && mode == CreateOnly then SkipRow
    else if IsStockMode(mode) && !existing then RowError
    else
      var catalogue := if IsStockMode(mode) then db
                       else if existing then UpdatedItem(Upserted(db, r), row, r)
                       else CreatedItem(Upserted(db, r), r);
      if !existing && mode == CreateOnly && r.initialQuantity > 0
      then AtomicAdd(catalogue, row, r.sku, r.initialQuantity)
      else if existing && mode == AdjustStock then
        if r.adjustment.None? then RowError
        else if r.adjustment.value > 0 then AtomicAdd(catalogue, row, r.sku, r.adjustment.value)
        else if r.adjustment.value < 0 then AtomicDeduct(catalogue, row, r.sku, -r.adjustment.value)
        else Applied(catalogue)
      else if existing && mode == ReplaceStock then
        if r.counted.None? then RowError else ReplaceWithCount(catalogue, row, r.sku, r.counted.value)
      else Applied(catalogue)
  }

  // ---- The job ---------------------------------------------------------------------------------------

  datatype ItemStatus = Pending | Processing | Completed | Failed | Skipped
  datatype JobStatus = JobPreviewed | JobCommitting | JobCompleted | JobFailed | JobExpired

  /** What goes wrong with the infrastructure during one attempt: nothing, loading the checkpoints, marking the
      chunk that starts with this row, this row's statements, or the final status update. */
  datatype Fault = NoFault | AtLoad | AtMark(row: nat) | AtRow(row: nat) | AtFinish

  datatype Reply = Success | AlreadyDone | Busy | InvalidRows | Expired | Tampered | NoWarehouse | CommitError

  /** The job, its row checkpoints and the store's data. `rows` and `mode` come from the stored payload. */
  datatype Job = Job(mode: Mode, rows: seq<ImportRow>, invalidRows: nat, payloadIntact: bool, expiresAt: int,
      status: JobStatus, statuses: seq<ItemStatus>, db: Db)

  const CHUNK_SIZE: nat := 100

  predicate Unfinished(st: ItemStatus) { st == Pending || st == Failed }

  predicate Within(ks: seq<nat>, n: nat) { forall i :: 0 <= i < |ks| ==> ks[i] < n }

  /** The rows a resume loads, in row order. */
  function Todo(statuses: seq<ItemStatus>, n: nat): (ks: seq<nat>)
    requires n <= |statuses|
    ensures Within(ks, n)
  {
    if n == 0 then [] else Todo(statuses, n - 1) + (if Unfinished(statuses[n - 1]) then [n - 1] else [])
  }

  function Marked(statuses: seq<ItemStatus>, ks: seq<nat>): (r: seq<ItemStatus>)
    requires Within(ks, |statuses|)
    ensures |r| == |statuses|
  {
    seq(|statuses|, i requires 0 <= i < |statuses| => if i in ks then Processing else statuses[i])
  }

  datatype Tx = Tx(db: Db, statuses: seq<ItemStatus>)

  /** One row of a chunk: its effects and its checkpoint together. */
  function RowTx(t: Tx, mode: Mode, rows: seq<ImportRow>, k: nat, fault: Fault): (r: Option<Tx>)
    requires k < |rows| == |t.statuses|
    ensures r.Some? ==> |r.value.statuses| == |rows|
  {
    if fault == AtRow(k) then None else
    match ApplyRow(t.db, mode, k + 1, rows[k])
    case Applied(db) => Some(Tx(db, t.statuses[k := Completed]))
    case SkipRow => Some(Tx(t.db, t.statuses[k := Skipped]))
    case RowError => None
  }

  /** The rows of a chunk inside its transaction; None rolls everything back. */
  function ChunkTx(tx: Tx, mode: Mode, rows: seq<ImportRow>, ks: seq<nat>, fault: Fault): (r: Option<Tx>)
    requires |tx.statuses| == |rows| && Within(ks, |rows|)
    ensures r.Some? ==> |r.value.statuses| == |rows|
  {
    if ks == [] then Some(tx) else
    var k := ks[|ks| - 1];
    match ChunkTx(tx, mode, rows, ks[..|ks| - 1], fault)
    case None => None
    case Some(t) => RowTx(t, mode, rows, k, fault)
  }

  function FirstChunk(todo: seq<nat>): (chunk: seq<nat>)
    ensures |chunk| <= |todo| && chunk == todo[..|chunk|] && (todo != [] ==> 0 < |chunk|)
  {
    if |todo| <= CHUNK_SIZE then todo else todo[..CHUNK_SIZE]
  }

  datatype Committed = Committed(tx: Tx, ok: bool)

  /** Chunk after chunk; a failed chunk leaves its rows marked PROCESSING and nothing else. */
  function Chunks(tx: Tx, mode: Mode, rows: seq<ImportRow>, todo: seq<nat>, fault: Fault): (r: Committed)
    requires |tx.statuses| == |rows| && Within(todo, |rows|)
    ensures |r.tx.statuses| == |rows|
    decreases |todo|
  {
    if todo == [] then Committed(tx, true) else
    var chunk := FirstChunk(todo);
    if fault == AtMark(todo[0]) then Committed(tx, false) else
    var marked := tx.(statuses := Marked(tx.statuses, chunk));
    match ChunkTx(marked, mode, rows, chunk, fault)
    case None => Committed(marked, false)
    case Some(t) => Chunks(t, mode, rows, todo[|chunk|..], fault)
  }

  /** The catch block: rows still PROCESSING become FAILED. */
  function Released(statuses: seq<ItemStatus>): seq<ItemStatus> {
    seq(|statuses|, i requires 0 <= i < |statuses| => if statuses[i] == Processing then Failed else statuses[i])
  }

  predicate Coherent(j: Job) { |j.statuses| == |j.rows| }

  /** How far the chunks of an attempt get. */
  function Progressed(j: Job, fault: Fault): (r: Committed)
    requires Coherent(j)
    ensures |r.tx.statuses| == |j.rows|
  {
    if fault == AtLoad then Committed(Tx(j.db, j.statuses), false)
    else Chunks(Tx(j.db, j.statuses), j.mode, j.rows, Todo(j.statuses, |j.statuses|), fault)
  }

  /** An attempt that has taken the job: the chunks, and the final or the failed status. */
  function Work(j: Job, fault: Fault): (Job, Reply)
    requires Coherent(j)
  {
    var out := Progressed(j, fault);
    if out.ok && fault != AtFinish
    then (j.(status := JobCompleted, statuses := out.tx.statuses, db := out.tx.db), Success)
    else (j.(status := JobFailed, statuses := Released(out.tx.statuses), db := out.tx.db), CommitError)
  }

  /** One call of commitImport that no other call overlaps. */
  function Attempt(j: Job, now: int, warehouse: bool, fault: Fault): (Job, Reply)
    requires Coherent(j)
  {
    if j.invalidRows > 0 then (j, InvalidRows)
    else if j.status == JobCompleted then (j, AlreadyDone)
    else if j.status == JobCommitting then (j, Busy)
    else if j.status == JobExpired || j.expiresAt < now then (j.(status := JobExpired), Expired)
    else if !j.payloadIntact then (j, Tampered)
    else if !warehouse then (j, NoWarehouse)
    else Work(j, fault)
  }

  class ImportJobs {
    const mode: Mode
    const rows: seq<ImportRow>
    const invalidRows: nat
    const payloadIntact: bool
    const expiresAt: int
    var status: JobStatus
    var statuses: seq<ItemStatus>
    var db: Db

    function Model(): Job
      reads this
    {
      Job(mode, rows, invalidRows, payloadIntact, expiresAt, status, statuses, db)
    }

    constructor (mode: Mode, rows: seq<ImportRow>, invalidRows: nat, expiresAt: int, db: Db)
      ensures Model() == Job(mode, rows, invalidRows, true, expiresAt, JobPreviewed, seq(|rows|, i => Pending), db)
    {
      this.mode, this.rows, this.invalidRows, this.payloadIntact, this.expiresAt := mode, rows, invalidRows, true,
        expiresAt;
      status, statuses, this.db := JobPreviewed, seq(|rows|, i => Pending), db;
    }

    method CommitImport(now: int, warehouse: bool, fault: Fault) returns (reply: Reply)
      requires Coherent(Model())
      modifies this
      ensures (Model(), reply) == old(Attempt(Model(), now, warehouse, fault))
    {
      if invalidRows > 0 { return InvalidRows; }
      if status == JobCompleted { return AlreadyDone; }
      if status == JobCommitting { return Busy; }
      if status == JobExpired || expiresAt < now {
        status := JobExpired;
        return Expired;
      }
      if !payloadIntact { return Tampered; }
      if !warehouse { return NoWarehouse; }
      status := JobCommitting;
      var ok := false;
      if fault != AtLoad {
        var todo := LoadTodo();
        ok := RunChunks(todo, fault);
      }
      if ok && fault != AtFinish {
        status := JobCompleted;
        return Success;
      }
      ReleaseRows();
      status := JobFailed;
      reply := CommitError;
    }

    method LoadTodo() returns (todo: seq<nat>)
      ensures todo == Todo(statuses, |statuses|)
    {
      todo := [];
      for i := 0 to |statuses|
        invariant todo == Todo(statuses, i)
      {
        if statuses[i] == Pending || statuses[i] == Failed { todo := todo + [i]; }
      }
    }

    method RunChunks(todo: seq<nat>, fault: Fault) returns (ok: bool)
      requires |statuses| == |rows| && Within(todo, |rows|)
      modifies this`statuses, this`db
      ensures Committed(Tx(db, statuses), ok) == old(Chunks(Tx(db, statuses), mode, rows, todo, fault))
      ensures |statuses| == |rows|
    {
      var i := 0;
      while i < |todo|
        invariant 0 <= i <= |todo| && |statuses| == |rows|
        invariant Chunks(Tx(db, statuses), mode, rows, todo[i..], fault)
          == old(Chunks(Tx(db, statuses), mode, rows, todo, fault))
      {
        var rest := todo[i..];
        var chunk := if i + CHUNK_SIZE < |todo| then todo[i..i + CHUNK_SIZE] else todo[i..];
        assert chunk == FirstChunk(rest) && rest[|chunk|..] == todo[i + |chunk|..];
        if fault == AtMark(chunk[0]) { return false; }
        ghost var before := Tx(db, statuses);
        MarkProcessing(chunk);
        ghost var marked := Tx(db, statuses);
        var committed := RunTransaction(chunk, fault);
        if !committed { return false; }
        i := i + |chunk|;
      }
      ok := true;
    }

    method MarkProcessing(chunk: seq<nat>)
      requires Within(chunk, |statuses|)
      modifies this`statuses
      ensures statuses == old(Marked(statuses, chunk))
    {
      for i := 0 to |chunk|
        invariant |statuses| == old(|statuses|)
        invariant forall k :: 0 <= k < |statuses| ==> statuses[k] == if k in chunk[..i] then Processing
          else old(statuses)[k]
      {
        statuses := statuses[chunk[i] := Processing];
        assert chunk[..i + 1] == chunk[..i] + [chunk[i]];
      }
      assert chunk[..|chunk|] == chunk;
    }

    /** Works on copies; the fields change only when the transaction commits. */
    method RunTransaction(chunk: seq<nat>, fault: Fault) returns (committed: bool)
      requires |statuses| == |rows| && Within(chunk, |rows|)
      modifies this`statuses, this`db
      ensures var tx := old(ChunkTx(Tx(db, statuses), mode, rows, chunk, fault));
        committed == tx.Some? && Tx(db, statuses) == (if tx.Some? then tx.value else Tx(old(db), old(statuses)))
    {
      hide ApplyRow;
      var txDb, txStatuses := db, statuses;
      for i := 0 to |chunk|
        invariant |txStatuses| == |rows|
        invariant ChunkTx(Tx(db, statuses), mode, rows, chunk[..i], fault) == Some(Tx(txDb, txStatuses))
      {
        var k := chunk[i];
        assert chunk[..i + 1][..i] == chunk[..i];
        ghost var done := txStatuses;
        txStatuses := txStatuses[k := Processing];
        assert txStatuses[k := Completed] == done[k := Completed] && txStatuses[k := Skipped] == done[k := Skipped];
        var outcome := if fault == AtRow(k) then RowError else ApplyRow(txDb, mode, k + 1, rows[k]);
        match outcome {
          case Applied(applied) =>
            txDb, txStatuses := applied, txStatuses[k := Completed];
          case SkipRow =>
            txStatuses := txStatuses[k := Skipped];
          case RowError =>
            assert ChunkTx(Tx(db, statuses), mode, rows, chunk[..i + 1], fault).None?;
            TxStopsAt(Tx(db, statuses), mode, rows, chunk, i + 1, fault);
            return false;
        }
      }
      assert chunk[..|chunk|] == chunk;
      db, statuses := txDb, txStatuses;
      committed := true;
    }

    method ReleaseRows()
      modifies this`statuses
      ensures statuses == old(Released(statuses))
    {
      for i := 0 to |statuses|
        invariant |statuses| == old(|statuses|)
        invariant forall k :: 0 <= k < |statuses| ==> statuses[k] == if k < i then old(Released(statuses))[k]
          else old(statuses)[k]
      {
        if statuses[i] == Processing { statuses := statuses[i := Failed]; }
      }
    }
  }

  /** A transaction that failed on the first n rows fails as a whole. */
  lemma {:induction false} TxStopsAt(tx: Tx, mode: Mode, rows: seq<ImportRow>, ks: seq<nat>, n: nat, fault: Fault)
    requires |tx.statuses| == |rows| && Within(ks, |rows|) && n <= |ks|
    requires ChunkTx(tx, mode, rows, ks[..n], fault).None?
    ensures ChunkTx(tx, mode, rows, ks, fault).None?
    decreases |ks|
  {
    if n < |ks| {
      assert ks[..|ks| - 1][..n] == ks[..n];
      TxStopsAt(tx, mode, rows, ks[..|ks| - 1], n, fault);
    } else {
      assert ks[..n] == ks;
    }
  }
}

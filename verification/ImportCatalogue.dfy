/** What an import writes to the catalogue, read off the rows of its file. */
module ImportCatalogue {
  import opened Options
  import opened ImportCommit
  import opened ImportRuns

  /** Row i is the last, or the first, of the first n rows that name the SKU. */
  predicate IsLast(rows: seq<ImportRow>, n: nat, sku: int, i: nat)
    requires n <= |rows|
  {
    i < n && rows[i].sku == sku && forall k :: i < k < n ==> rows[k].sku != sku
  }

  predicate IsFirst(rows: seq<ImportRow>, n: nat, sku: int, i: nat)
    requires n <= |rows|
  {
    i < n && rows[i].sku == sku && forall k :: 0 <= k < i ==> rows[k].sku != sku
  }

  /** Row i is the last one to give the SKU a barcode. */
  predicate GivesBarcode(rows: seq<ImportRow>, n: nat, sku: int, i: nat)
    requires n <= |rows|
  {
    i < n && rows[i].sku == sku && rows[i].barcode.Some? &&
    forall k :: i < k < n && rows[k].sku == sku ==> rows[k].barcode.None?
  }

  predicate SameItem(db0: Db, db: Db, sku: int) {
    (sku in db.items <==> sku in db0.items) && (sku in db.items ==> db.items[sku] == db0.items[sku])
  }

  predicate FromRow(item: StockItem, r: ImportRow) {
    && item.name == r.productName && item.cost == r.cost && item.selling == r.selling
    && item.minLevel == r.minLevel && item.maxLevel == r.maxLevel
  }

  /** Row i writes the catalogue: not in a stock mode, and in CREATE_ONLY only for a SKU that is new. */
  predicate Writes(db0: Db, mode: Mode, rows: seq<ImportRow>, i: nat)
    requires i < |rows|
  {
    match mode
    case AdjustStock | ReplaceStock => false
    case CreateOnly => rows[i].sku !in db0.items && forall k :: 0 <= k < i ==> rows[k].sku != rows[i].sku
    case UpsertMetadata => true
  }

  predicate LastOfCategory(db0: Db, mode: Mode, rows: seq<ImportRow>, n: nat, c: int, i: nat)
    requires n <= |rows|
  {
    i < n && Writes(db0, mode, rows, i) && rows[i].category == c &&
    forall k :: i < k < n && Writes(db0, mode, rows, k) ==> rows[k].category != c
  }

  predicate LastOfProduct(db0: Db, mode: Mode, rows: seq<ImportRow>, n: nat, p: int, i: nat)
    requires n <= |rows|
  {
    i < n && Writes(db0, mode, rows, i) && rows[i].product == p &&
    forall k :: i < k < n && Writes(db0, mode, rows, k) ==> rows[k].product != p
  }

  datatype Basis = Basis(cost: int, selling: int)

  /** Cost and selling price of a SKU before row n + 1: of the last row that names it, or as stored at first. */
  function BasisAt(db0: Db, rows: seq<ImportRow>, n: nat, sku: int): Option<Basis>
    requires n <= |rows|
  {
    if n == 0 then if sku in db0.items then Some(Basis(db0.items[sku].cost, db0.items[sku].selling)) else None
    else if rows[n - 1].sku == sku then Some(Basis(rows[n - 1].cost, rows[n - 1].selling))
    else BasisAt(db0, rows, n - 1, sku)
  }

  /** One entry for each row that changes the selling price of its SKU, with both prices. */
  function PriceEntries(db0: Db, mode: Mode, rows: seq<ImportRow>, n: nat): seq<PriceChange>
    requires n <= |rows|
  {
    if n == 0 || mode != UpsertMetadata then [] else
    var r, before := rows[n - 1], BasisAt(db0, rows, n - 1, rows[n - 1].sku);
    PriceEntries(db0, mode, rows, n - 1) +
    if before.Some? && before.value.selling != r.selling
    then [PriceChange(sku := r.sku, oldPrice := before.value.selling, newPrice := r.selling, row := n)] else []
  }

  /** The SKUs whose recommendations expire: one for each row that changes the cost or the selling price. */
  function Expirations(db0: Db, mode: Mode, rows: seq<ImportRow>, n: nat): seq<int>
    requires n <= |rows|
  {
    if n == 0 || mode != UpsertMetadata then [] else
    var r, before := rows[n - 1], BasisAt(db0, rows, n - 1, rows[n - 1].sku);
    Expirations(db0, mode, rows, n - 1) +
    if before.Some? && (before.value.selling != r.selling || before.value.cost != r.cost) then [r.sku] else []
  }

  // ---- One row -----------------------------------------------------------------------------------------------

  function Catalogue(db: Db, mode: Mode, row: nat, r: ImportRow): Db {
    if IsStockMode(mode) || (mode == CreateOnly && r.sku in db.items) then db
    else if r.sku in db.items then UpdatedItem(Upserted(db, r), row, r)
    else CreatedItem(Upserted(db, r), r)
  }

  predicate SameCatalogue(a: Db, b: Db) { a == b.(stock := a.stock, ledger := a.ledger) }

  lemma RowWrites(db: Db, mode: Mode, row: nat, r: ImportRow)
    ensures var out := ApplyRow(db, mode, row, r);
      out.Applied? ==> SameCatalogue(out.db, Catalogue(db, mode, row, r))
    ensures ApplyRow(db, mode, row, r).SkipRow? <==> mode == CreateOnly && r.sku in db.items
    ensures ApplyRow(db, mode, row, r).SkipRow? ==> Catalogue(db, mode, row, r) == db
  {}

  /** What a row does to the entry of a SKU. */
  lemma RowItem(a: Db, mode: Mode, row: nat, r: ImportRow, sku: int)
    ensures var b := Catalogue(a, mode, row, r);
      if sku != r.sku || IsStockMode(mode) || (mode == CreateOnly && sku in a.items) then SameItem(a, b, sku)
      else
        && sku in b.items && FromRow(b.items[sku], r)
        && (if sku in a.items
            then
              && b.items[sku].barcode == (if r.barcode.Some? then r.barcode else a.items[sku].barcode)
              && b.items[sku].product == a.items[sku].product && b.items[sku].active == a.items[sku].active
            else b.items[sku].barcode == r.barcode && b.items[sku].product == r.product && b.items[sku].active)
  {}

  /** Exactly when a row is in error: an unknown or inactive SKU where the quantity moves, a missing number, a shortage,
      or a ledger entry of the same row and SKU that is there already. */
  lemma RowFailsIff(db: Db, mode: Mode, row: nat, r: ImportRow)
    ensures ApplyRow(db, mode, row, r).RowError? <==>
      var taken := exists m :: m in db.ledger && m.row == row && m.sku == r.sku;
      var stands := r.sku in db.items && db.items[r.sku].active;
      var quantity := if r.sku in db.stock then db.stock[r.sku] else 0;
      match mode
      case CreateOnly => r.sku !in db.items && r.initialQuantity > 0 && taken
      case UpsertMetadata => false
      case AdjustStock =>
        || r.sku !in db.items || r.adjustment.None?
        || (r.adjustment.value > 0 && (!stands || taken))
        || (r.adjustment.value < 0 && (!stands || r.sku !in db.stock || quantity + r.adjustment.value < 0 || taken))
      case ReplaceStock =>
        !stands || r.counted.None? || (r.counted.value != quantity && taken)
  {}

  // ---- The whole pass ----------------------------------------------------------------------------------------

  /** The store after a straight pass over the first n rows. */
  function After(db0: Db, mode: Mode, rows: seq<ImportRow>, n: nat): Db
    requires n <= |rows| && Straight(db0, mode, rows, n).Some?
  {
    Straight(db0, mode, rows, n).value.db
  }

  /** What row n does to the catalogue of a pass. */
  lemma PassStep(db0: Db, mode: Mode, rows: seq<ImportRow>, n: nat)
    requires 0 < n <= |rows| && Straight(db0, mode, rows, n).Some?
    ensures Straight(db0, mode, rows, n - 1).Some?
    ensures SameCatalogue(After(db0, mode, rows, n), Catalogue(After(db0, mode, rows, n - 1), mode, n, rows[n - 1]))
    ensures var a := After(db0, mode, rows, n - 1);
      rows[n - 1].sku in a.items <==>
        rows[n - 1].sku in db0.items || (!IsStockMode(mode) && Mentions(rows, n - 1, rows[n - 1].sku))
  {
    hide ApplyRow, Catalogue, Target, DeltaSum, Quantity, Mentions;
    StockReached(db0, mode, rows, n - 1, rows[n - 1].sku);
    RowWrites(After(db0, mode, rows, n - 1), mode, n, rows[n - 1]);
  }

  lemma Earlier(rows: seq<ImportRow>, n: nat, sku: int)
    requires 0 < n <= |rows|
    ensures Mentions(rows, n, sku) <==> Mentions(rows, n - 1, sku) || rows[n - 1].sku == sku
  {
    if rows[n - 1].sku == sku { assert rows[n - 1].sku == sku; }
  }

  /** What no row names, what a stock mode names, and what CREATE_ONLY finds stays as it is. */
  lemma {:induction false} ItemUntouched(db0: Db, mode: Mode, rows: seq<ImportRow>, n: nat, sku: int)
    requires n <= |rows| && Straight(db0, mode, rows, n).Some?
    requires !Mentions(rows, n, sku) || IsStockMode(mode) || (mode == CreateOnly && sku in db0.items)
    ensures SameItem(db0, After(db0, mode, rows, n), sku)
  {
    if n > 0 {
      Earlier(rows, n, sku);
      PassStep(db0, mode, rows, n);
      RowItem(After(db0, mode, rows, n - 1), mode, n, rows[n - 1], sku);
      hide Catalogue;
      hide Straight, Mentions;
      ItemUntouched(db0, mode, rows, n - 1, sku);
    }
  }

  /** CREATE_ONLY stores a new SKU as the first row that names it says. */
  lemma {:induction false} CreatedAsFirst(db0: Db, rows: seq<ImportRow>, n: nat, sku: int, i: nat)
    requires n <= |rows| && Straight(db0, CreateOnly, rows, n).Some? && sku !in db0.items && IsFirst(rows, n, sku, i)
    ensures var db := After(db0, CreateOnly, rows, n);
      && sku in db.items && FromRow(db.items[sku], rows[i])
      && db.items[sku].barcode == rows[i].barcode && db.items[sku].product == rows[i].product && db.items[sku].active
  {
    PassStep(db0, CreateOnly, rows, n);
    RowItem(After(db0, CreateOnly, rows, n - 1), CreateOnly, n, rows[n - 1], sku);
    hide Catalogue;
    if i == n - 1 {
      assert !Mentions(rows, n - 1, sku);
    } else {
      hide Straight;
      CreatedAsFirst(db0, rows, n - 1, sku, i);
    }
  }

  /** UPSERT_METADATA leaves every SKU with the name, prices and levels of the last row that names it. */
  lemma {:induction false} UpsertedAsLast(db0: Db, rows: seq<ImportRow>, n: nat, sku: int, i: nat)
    requires n <= |rows| && Straight(db0, UpsertMetadata, rows, n).Some? && IsLast(rows, n, sku, i)
    ensures var db := After(db0, UpsertMetadata, rows, n); sku in db.items && FromRow(db.items[sku], rows[i])
  {
    PassStep(db0, UpsertMetadata, rows, n);
    RowItem(After(db0, UpsertMetadata, rows, n - 1), UpsertMetadata, n, rows[n - 1], sku);
    hide Catalogue;
    if i < n - 1 {
      hide Straight;
      UpsertedAsLast(db0, rows, n - 1, sku, i);
    }
  }

  /** The barcode is the last one given; a row without one leaves it. */
  lemma {:induction false} LastBarcode(db0: Db, rows: seq<ImportRow>, n: nat, sku: int, i: nat)
    requires n <= |rows| && Straight(db0, UpsertMetadata, rows, n).Some? && GivesBarcode(rows, n, sku, i)
    ensures var db := After(db0, UpsertMetadata, rows, n); sku in db.items && db.items[sku].barcode == rows[i].barcode
  {
    PassStep(db0, UpsertMetadata, rows, n);
    RowItem(After(db0, UpsertMetadata, rows, n - 1), UpsertMetadata, n, rows[n - 1], sku);
    hide Catalogue;
    if i < n - 1 {
      hide Straight;
      LastBarcode(db0, rows, n - 1, sku, i);
    }
  }

  lemma {:induction false} NoBarcode(db0: Db, rows: seq<ImportRow>, n: nat, sku: int)
    requires n <= |rows| && Straight(db0, UpsertMetadata, rows, n).Some?
    requires forall k :: 0 <= k < n && rows[k].sku == sku ==> rows[k].barcode.None?
    ensures var db := After(db0, UpsertMetadata, rows, n); sku in db.items ==>
      db.items[sku].barcode == if sku in db0.items then db0.items[sku].barcode else None
  {
    if n > 0 {
      PassStep(db0, UpsertMetadata, rows, n);
      RowItem(After(db0, UpsertMetadata, rows, n - 1), UpsertMetadata, n, rows[n - 1], sku);
      hide Catalogue;
      hide Straight;
      NoBarcode(db0, rows, n - 1, sku);
      KnownStays(db0, rows, n - 1, sku);
    }
  }

  lemma KnownStays(db0: Db, rows: seq<ImportRow>, n: nat, sku: int)
    requires n <= |rows| && Straight(db0, UpsertMetadata, rows, n).Some?
    ensures sku in After(db0, UpsertMetadata, rows, n).items <==> sku in db0.items || Mentions(rows, n, sku)
  {
    StockReached(db0, UpsertMetadata, rows, n, sku);
  }

  /** A SKU keeps its product and stays active or inactive; a new one is active under the product of its first row. */
  lemma {:induction false} ProductStays(db0: Db, rows: seq<ImportRow>, n: nat, sku: int)
    requires n <= |rows| && Straight(db0, UpsertMetadata, rows, n).Some? && sku in db0.items
    ensures var db := After(db0, UpsertMetadata, rows, n);
      && sku in db.items && db.items[sku].product == db0.items[sku].product
      && db.items[sku].active == db0.items[sku].active
  {
    if n > 0 {
      PassStep(db0, UpsertMetadata, rows, n);
      RowItem(After(db0, UpsertMetadata, rows, n - 1), UpsertMetadata, n, rows[n - 1], sku);
      hide Catalogue;
      hide Straight;
      ProductStays(db0, rows, n - 1, sku);
    }
  }

  lemma {:induction false} ProductOfFirst(db0: Db, rows: seq<ImportRow>, n: nat, sku: int, i: nat)
    requires n <= |rows| && Straight(db0, UpsertMetadata, rows, n).Some?
    requires sku !in db0.items && IsFirst(rows, n, sku, i)
    ensures var db := After(db0, UpsertMetadata, rows, n);
      sku in db.items && db.items[sku].product == rows[i].product && db.items[sku].active
  {
    PassStep(db0, UpsertMetadata, rows, n);
    RowItem(After(db0, UpsertMetadata, rows, n - 1), UpsertMetadata, n, rows[n - 1], sku);
    hide Catalogue;
    if i == n - 1 {
      assert !Mentions(rows, n - 1, sku);
    } else {
      hide Straight;
      ProductOfFirst(db0, rows, n - 1, sku, i);
    }
  }

  /** Row n writes the catalogue exactly if it is applied and moves no stock. */
  lemma WritesIff(db0: Db, mode: Mode, rows: seq<ImportRow>, n: nat)
    requires 0 < n <= |rows| && Straight(db0, mode, rows, n).Some?
    ensures Straight(db0, mode, rows, n - 1).Some?
    ensures var a, r := After(db0, mode, rows, n - 1), rows[n - 1];
      Writes(db0, mode, rows, n - 1) <==> !IsStockMode(mode) && !(mode == CreateOnly && r.sku in a.items)
  {
    PassStep(db0, mode, rows, n);
  }

  lemma RowNames(a: Db, mode: Mode, row: nat, r: ImportRow)
    ensures var b := Catalogue(a, mode, row, r);
      if IsStockMode(mode) || (mode == CreateOnly && r.sku in a.items)
      then b.categories == a.categories && b.products == a.products
      else b.categories == a.categories[r.category := r.categoryName] &&
           b.products == a.products[r.product := Product(r.category, r.productName)]
  {}

  lemma NamesStep(db0: Db, mode: Mode, rows: seq<ImportRow>, n: nat)
    requires 0 < n <= |rows| && Straight(db0, mode, rows, n).Some?
    ensures Straight(db0, mode, rows, n - 1).Some?
    ensures var a, b, r := After(db0, mode, rows, n - 1), After(db0, mode, rows, n), rows[n - 1];
      if Writes(db0, mode, rows, n - 1)
      then b.categories == a.categories[r.category := r.categoryName] &&
           b.products == a.products[r.product := Product(r.category, r.productName)]
      else b.categories == a.categories && b.products == a.products
  {
    hide Straight, Writes, Mentions, Catalogue, After;
    PassStep(db0, mode, rows, n);
    WritesIff(db0, mode, rows, n);
    RowNames(After(db0, mode, rows, n - 1), mode, n, rows[n - 1]);
  }

  lemma NothingDone(db0: Db, mode: Mode, rows: seq<ImportRow>)
    ensures Straight(db0, mode, rows, 0).Some? && After(db0, mode, rows, 0) == db0
  {}

  /** A category carries the name of the last row that writes it. */
  lemma {:induction false} CategoryAsLast(db0: Db, mode: Mode, rows: seq<ImportRow>, n: nat, c: int, i: nat)
    requires n <= |rows| && Straight(db0, mode, rows, n).Some? && LastOfCategory(db0, mode, rows, n, c, i)
    ensures var db := After(db0, mode, rows, n); c in db.categories && db.categories[c] == rows[i].categoryName
  {
    hide Straight, Writes, After;
    NamesStep(db0, mode, rows, n);
    if i < n - 1 { CategoryAsLast(db0, mode, rows, n - 1, c, i); }
  }

  /** A product carries the name and the category of the last row that writes it. */
  lemma {:induction false} ProductAsLast(db0: Db, mode: Mode, rows: seq<ImportRow>, n: nat, p: int, i: nat)
    requires n <= |rows| && Straight(db0, mode, rows, n).Some? && LastOfProduct(db0, mode, rows, n, p, i)
    ensures var db := After(db0, mode, rows, n);
      p in db.products && db.products[p].name == rows[i].productName && db.products[p].category == rows[i].category
  {
    hide Straight, Writes, After;
    NamesStep(db0, mode, rows, n);
    if i < n - 1 { ProductAsLast(db0, mode, rows, n - 1, p, i); }
  }

  /** Categories and products that no row writes stay as they are. */
  lemma {:induction false} NamesUntouched(db0: Db, mode: Mode, rows: seq<ImportRow>, n: nat, code: int)
    requires n <= |rows| && Straight(db0, mode, rows, n).Some?
    ensures var db := After(db0, mode, rows, n);
      && ((forall k :: 0 <= k < n && Writes(db0, mode, rows, k) ==> rows[k].category != code) ==>
            (code in db.categories <==> code in db0.categories) &&
            (code in db.categories ==> db.categories[code] == db0.categories[code]))
      && ((forall k :: 0 <= k < n && Writes(db0, mode, rows, k) ==> rows[k].product != code) ==>
            (code in db.products <==> code in db0.products) &&
            (code in db.products ==> db.products[code] == db0.products[code]))
  {
    hide Straight, Writes, After;
    if n > 0 {
      NamesStep(db0, mode, rows, n);
      NamesUntouched(db0, mode, rows, n - 1, code);
    } else {
      NothingDone(db0, mode, rows);
    }
  }

  lemma {:induction false} BasisReached(db0: Db, rows: seq<ImportRow>, n: nat, sku: int)
    requires n <= |rows| && Straight(db0, UpsertMetadata, rows, n).Some?
    ensures var db := After(db0, UpsertMetadata, rows, n);
      BasisAt(db0, rows, n, sku) ==
        if sku in db.items then Some(Basis(db.items[sku].cost, db.items[sku].selling)) else None
  {
    if n > 0 {
      PassStep(db0, UpsertMetadata, rows, n);
      RowItem(After(db0, UpsertMetadata, rows, n - 1), UpsertMetadata, n, rows[n - 1], sku);
      hide Catalogue;
      hide Straight, Mentions;
      BasisReached(db0, rows, n - 1, sku);
    }
  }

  /** The price history grows by one entry for each row that changes a selling price, with the price before and the
      price after, and recommendations expire once for each row that changes the cost or the selling price. */
  lemma {:induction false} PricesRecorded(db0: Db, mode: Mode, rows: seq<ImportRow>, n: nat)
    requires n <= |rows| && Straight(db0, mode, rows, n).Some?
    ensures var db := After(db0, mode, rows, n);
      && db.prices == db0.prices + PriceEntries(db0, mode, rows, n)
      && db.expired == db0.expired + Expirations(db0, mode, rows, n)
  {
    hide Straight, After, PriceEntries, Expirations;
    if n > 0 {
      PricesStep(db0, mode, rows, n);
      PricesRecorded(db0, mode, rows, n - 1);
      EntriesStep(db0, mode, rows, n);
    } else {
      NothingDone(db0, mode, rows);
      NoEntries(db0, mode, rows);
    }
  }

  lemma NoEntries(db0: Db, mode: Mode, rows: seq<ImportRow>)
    ensures PriceEntries(db0, mode, rows, 0) == [] && Expirations(db0, mode, rows, 0) == []
  {}

  lemma PricesStep(db0: Db, mode: Mode, rows: seq<ImportRow>, n: nat)
    requires 0 < n <= |rows| && Straight(db0, mode, rows, n).Some?
    ensures Straight(db0, mode, rows, n - 1).Some?
    ensures var r := rows[n - 1]; var before := BasisAt(db0, rows, n - 1, r.sku);
      var a, b := After(db0, mode, rows, n - 1), After(db0, mode, rows, n);
      && b.prices == a.prices +
           (if mode == UpsertMetadata && before.Some? && before.value.selling != r.selling
            then [PriceChange(r.sku, before.value.selling, r.selling, n)] else [])
      && b.expired == a.expired +
           (if mode == UpsertMetadata && before.Some? &&
               (before.value.selling != r.selling || before.value.cost != r.cost) then [r.sku] else [])
  {
    hide Straight, Mentions, BasisAt, Catalogue, After;
    PassStep(db0, mode, rows, n);
    RowPrices(After(db0, mode, rows, n - 1), mode, n, rows[n - 1]);
    if mode == UpsertMetadata { BasisReached(db0, rows, n - 1, rows[n - 1].sku); }
  }

  lemma EntriesStep(db0: Db, mode: Mode, rows: seq<ImportRow>, n: nat)
    requires 0 < n <= |rows|
    ensures var r := rows[n - 1]; var before := BasisAt(db0, rows, n - 1, r.sku);
      && PriceEntries(db0, mode, rows, n) == PriceEntries(db0, mode, rows, n - 1) +
           (if mode == UpsertMetadata && before.Some? && before.value.selling != r.selling
            then [PriceChange(r.sku, before.value.selling, r.selling, n)] else [])
      && Expirations(db0, mode, rows, n) == Expirations(db0, mode, rows, n - 1) +
           (if mode == UpsertMetadata && before.Some? &&
               (before.value.selling != r.selling || before.value.cost != r.cost) then [r.sku] else [])
  {
    hide BasisAt;
  }

  lemma RowPrices(a: Db, mode: Mode, row: nat, r: ImportRow)
    ensures var b := Catalogue(a, mode, row, r);
      if mode != UpsertMetadata || r.sku !in a.items then b.prices == a.prices && b.expired == a.expired
      else
        var was := a.items[r.sku];
        && b.prices == a.prices +
             (if was.selling != r.selling then [PriceChange(r.sku, was.selling, r.selling, row)] else [])
        && b.expired == a.expired + if was.selling != r.selling || was.cost != r.cost then [r.sku] else []
  {}

  /** The stock modes leave the whole catalogue alone. */
  lemma {:induction false} StockModesKeepCatalogue(db0: Db, mode: Mode, rows: seq<ImportRow>, n: nat)
    requires n <= |rows| && Straight(db0, mode, rows, n).Some? && IsStockMode(mode)
    ensures SameCatalogue(After(db0, mode, rows, n), db0)
  {
    if n > 0 {
      PassStep(db0, mode, rows, n);
      hide Straight, Mentions;
      StockModesKeepCatalogue(db0, mode, rows, n - 1);
    }
  }

  /** All of it holds after any history of attempts and failures, for the rows that are finished by then. */
  lemma HistoryIsPass(j0: Job, calls: seq<Call>)
    requires NewJob(j0)
    ensures var j := Run(j0, calls); var n := Done(j.statuses);
      n <= |j0.rows| && Straight(j0.db, j0.mode, j0.rows, n).Some? && j.db == After(j0.db, j0.mode, j0.rows, n)
  {
    hide Attempt, ApplyRow, Run, Straight;
    RunProgress(j0, calls);
  }
}

/** What any history of rebuilds leaves in the summary, and what its rows add up to. */
module DailySalesRuns {
  import opened Options
  import opened BusinessDate
  import opened BusinessCalendar
  import opened DailySales

  // ---- Histories -------------------------------------------------------------------------------------

  /** Each table comes from the one before it by the rebuild between them. */
  ghost predicate History(tables: seq<map<DayKey, Row>>, calls: seq<Call>) {
    |tables| == |calls| + 1 && forall i :: 0 <= i < |calls| ==> IsRebuild(tables[i], calls[i], tables[i + 1])
  }

  /** The last of the calls that covers a key. */
  function LastCovering(calls: seq<Call>, k: DayKey): (r: Option<nat>)
    ensures r.None? ==> forall i :: 0 <= i < |calls| ==> !Covers(calls[i], k)
    ensures r.Some? ==> r.value < |calls| && Covers(calls[r.value], k) && forall i :: r.value < i < |calls| ==>
      !Covers(calls[i], k)
  {
    if calls == [] then None
    else if Covers(calls[|calls| - 1], k) then Some(|calls| - 1) else LastCovering(calls[..|calls| - 1], k)
  }

  /** A row is what the data called for at the last rebuild that covered it; a row no rebuild covered is unchanged. */
  lemma {:induction false} RowsAfterHistory(tables: seq<map<DayKey, Row>>, calls: seq<Call>, k: DayKey)
    requires History(tables, calls)
    ensures var last := LastCovering(calls, k);
      Lookup(tables[|calls|], k)
      == if last.Some? then var c := calls[last.value]; Fresh(c.src, c.items, c.offset, k) else Lookup(tables[0], k)
  {
    hide Covers, Fresh;
    if calls != [] {
      var n := |calls| - 1;
      assert IsRebuild(tables[n], calls[n], tables[n + 1]);
      assert Lookup(tables[n + 1], k) == RowAfter(tables[n], calls[n], k);
      assert forall i :: 0 <= i < n ==> calls[..n][i] == calls[i];
      assert forall i :: 0 <= i <= n ==> tables[..n + 1][i] == tables[i];
      assert History(tables[..n + 1], calls[..n]);
      RowsAfterHistory(tables[..n + 1], calls[..n], k);
    }
  }

  lemma SameTable(a: map<DayKey, Row>, b: map<DayKey, Row>)
    requires forall k :: Lookup(a, k) == Lookup(b, k)
    ensures a == b
  {
    forall k
      ensures k in a <==> k in b
      ensures k in a ==> a[k] == b[k]
    {
      assert Lookup(a, k) == Lookup(b, k);
    }
  }

  /** Two histories that start alike and whose last coverings read the same data end alike. */
  lemma HistoriesAgree(tables: seq<map<DayKey, Row>>, calls: seq<Call>, tables': seq<map<DayKey, Row>>,
      calls': seq<Call>)
    requires History(tables, calls) && History(tables', calls') && tables[0] == tables'[0]
    requires forall k :: LastCovering(calls, k).Some? <==> LastCovering(calls', k).Some?
    requires forall k :: LastCovering(calls, k).Some? ==>
      var c, c' := calls[LastCovering(calls, k).value], calls'[LastCovering(calls', k).value];
      c.src == c'.src && c.items == c'.items && c.offset == c'.offset
    ensures tables[|calls|] == tables'[|calls'|]
  {
    hide Fresh, LastCovering;
    forall k
      ensures Lookup(tables[|calls|], k) == Lookup(tables'[|calls'|], k)
    {
      RowsAfterHistory(tables, calls, k);
      RowsAfterHistory(tables', calls', k);
      assert LastCovering(calls, k).Some? <==> LastCovering(calls', k).Some?;
    }
    SameTable(tables[|calls|], tables'[|calls'|]);
  }

  /** Rebuilding twice is rebuilding once. */
  lemma RebuildIsIdempotent(t: map<DayKey, Row>, c: Call, t1: map<DayKey, Row>, t2: map<DayKey, Row>)
    requires IsRebuild(t, c, t1) && IsRebuild(t1, c, t2)
    ensures t1 == t2
  {
    hide Fresh;
    forall k
      ensures Lookup(t1, k) == Lookup(t2, k)
    {
      assert Lookup(t1, k) == RowAfter(t, c, k) && Lookup(t2, k) == RowAfter(t1, c, k);
    }
    SameTable(t1, t2);
  }

  /** Rebuilding from a to b and then from b + 1 to d is rebuilding from a to d, in either order. */
  lemma RebuildInTwoParts(t: map<DayKey, Row>, whole: Call, b: int, first: Call, second: Call,
                          t1: map<DayKey, Row>, t2: map<DayKey, Row>, t': map<DayKey, Row>)
    requires whole.from <= b + 1 <= whole.to + 1
    requires first == whole.(to := b) && second == whole.(from := b + 1)
    requires (IsRebuild(t, first, t1) && IsRebuild(t1, second, t2))
      || (IsRebuild(t, second, t1) && IsRebuild(t1, first, t2))
    requires IsRebuild(t, whole, t')
    ensures t2 == t'
  {
    hide Fresh;
    forall k
      ensures Lookup(t2, k) == Lookup(t', k)
    {
      assert Covers(whole, k) <==> Covers(first, k) || Covers(second, k);
      assert Lookup(t', k) == RowAfter(t, whole, k);
      if IsRebuild(t, first, t1) && IsRebuild(t1, second, t2) {
        assert Lookup(t1, k) == RowAfter(t, first, k) && Lookup(t2, k) == RowAfter(t1, second, k);
      } else {
        assert Lookup(t1, k) == RowAfter(t, second, k) && Lookup(t2, k) == RowAfter(t1, first, k);
      }
    }
    SameTable(t2, t');
  }

  // ---- Conservation ----------------------------------------------------------------------------------

  datatype Measure =
    | GrossQuantity | ReturnedQuantity | NetQuantity | GrossRevenue | Refunds | NetRevenue | Cost | GrossProfit
    | CostMissing

  function RowValue(r: Row, m: Measure): int {
    match m
    case GrossQuantity => r.grossSoldQty
    case ReturnedQuantity => r.returnQty
    case NetQuantity => r.netSoldQty
    case GrossRevenue => r.grossRevenue
    case Refunds => r.refundAmount
    case NetRevenue => r.netRevenue
    case Cost => r.cogs
    case GrossProfit => r.grossProfit
    case CostMissing => r.costMissingQty
  }

  function EntryValue(e: Entry, m: Measure): int {
    match m
    case GrossQuantity => e.grossSoldQty
    case ReturnedQuantity => e.returnQty
    case NetQuantity => e.grossSoldQty - e.returnQty
    case GrossRevenue => e.grossRevenue
    case Refunds => e.refundAmount
    case NetRevenue => e.grossRevenue - e.refundAmount
    case Cost => e.cogs
    case GrossProfit => e.grossRevenue - e.refundAmount - e.cogs
    case CostMissing => e.costMissingQty
  }

  function OptionValue(e: Option<Entry>, m: Measure): int { if e.Some? then EntryValue(e.value, m) else 0 }

  /** The records of a SKU that fall on `len` days from `from`, added up. */
  function DaysValue(ps: seq<Posting>, n: nat, items: set<int>, offset: int, sku: int, from: int, len: nat,
      m: Measure): int
    requires n <= |ps|
  {
    if n == 0 then 0 else
    var p := ps[n - 1];
    DaysValue(ps, n - 1, items, offset, sku, from, len, m)
    + (if p.eligible && p.sku in items && p.sku == sku
      && from <= LocalDay(p.time, offset) < from + len then EntryValue(p.entry, m) else 0)
  }

  lemma {:induction false} OneMoreDay(ps: seq<Posting>, n: nat, items: set<int>, offset: int, sku: int, from: int,
      len: nat, m: Measure)
    requires n <= |ps|
    ensures DaysValue(ps, n, items, offset, sku, from, len + 1, m)
      == DaysValue(ps, n, items, offset, sku, from, len, m)
        + OptionValue(DaySum(ps, n, items, offset, DayKey(sku, from + len)), m)
  {
    hide LocalDay;
    if n > 0 { OneMoreDay(ps, n - 1, items, offset, sku, from, len, m); }
  }

  lemma {:induction false} NoDays(ps: seq<Posting>, n: nat, items: set<int>, offset: int, sku: int, from: int,
      m: Measure)
    requires n <= |ps|
    ensures DaysValue(ps, n, items, offset, sku, from, 0, m) == 0
  {
    if n > 0 { NoDays(ps, n - 1, items, offset, sku, from, m); }
  }

  function SeriesValue(series: seq<Row>, m: Measure): int {
    if series == [] then 0 else SeriesValue(series[..|series| - 1], m) + RowValue(series[|series| - 1], m)
  }

  lemma EntryRow(e: Entry, m: Measure)
    ensures RowValue(RowOf(e), m) == EntryValue(e, m)
  {}

  lemma FreshValue(src: Source, items: set<int>, offset: int, k: DayKey, m: Measure)
    ensures RowValue(RowOrZero(Fresh(src, items, offset, k)), m)
      == OptionValue(DaySum(Postings(src), |Postings(src)|, items, offset, k), m)
  {
    hide Postings, DaySum, RowOf, RowValue, EntryValue, Plus;
    var sum := DaySum(Postings(src), |Postings(src)|, items, offset, k);
    EntryRow(if sum.Some? then sum.value else EMPTY_ENTRY, m);
    EmptyValue(m);
  }

  lemma EmptyValue(m: Measure)
    ensures EntryValue(EMPTY_ENTRY, m) == 0
  {}

  lemma RebuiltValue(rows: map<DayKey, Row>, c: Call, rows': map<DayKey, Row>, k: DayKey, m: Measure)
    requires IsRebuild(rows, c, rows') && Covers(c, k)
    ensures RowValue(RowOrZero(Lookup(rows', k)), m)
      == OptionValue(DaySum(Postings(c.src), |Postings(c.src)|, c.items, c.offset, k), m)
  {
    hide Fresh, RowValue, RowOrZero, OptionValue;
    assert Lookup(rows', k) == RowAfter(rows, c, k);
    FreshValue(c.src, c.items, c.offset, k, m);
  }

  lemma NoSeries(rows: map<DayKey, Row>, sku: int, from: int, m: Measure)
    ensures SeriesValue(Series(rows, sku, from, 0), m) == 0
  {}

  lemma SeriesSnoc(rows: map<DayKey, Row>, sku: int, from: int, len: nat, m: Measure)
    requires len > 0
    ensures SeriesValue(Series(rows, sku, from, len), m)
      == SeriesValue(Series(rows, sku, from, len - 1), m)
        + RowValue(RowOrZero(Lookup(rows, DayKey(sku, from + len - 1))), m)
  {
    hide RowValue, RowOrZero, Lookup;
    assert Series(rows, sku, from, len)[..len - 1] == Series(rows, sku, from, len - 1);
  }

  /** After a rebuild, the series of a SKU over covered days adds up to what the source records of those days say. */
  lemma {:induction false} SeriesConserves(rows: map<DayKey, Row>, c: Call, rows': map<DayKey, Row>, sku: int,
      from: int, len: nat, m: Measure)
    requires IsRebuild(rows, c, rows') && InScope(c.scope, sku) && c.from <= from && from + len - 1 <= c.to
    ensures SeriesValue(Series(rows', sku, from, len), m)
      == DaysValue(Postings(c.src), |Postings(c.src)|, c.items, c.offset, sku, from, len, m)
  {
    hide Postings, DaySum, DaysValue, IsRebuild, Series, SeriesValue, RowValue, RowOrZero, OptionValue, Lookup, InScope;
    if len == 0 {
      NoSeries(rows', sku, from, m);
      NoDays(Postings(c.src), |Postings(c.src)|, c.items, c.offset, sku, from, m);
    } else {
      SeriesConserves(rows, c, rows', sku, from, len - 1, m);
      OneMoreDay(Postings(c.src), |Postings(c.src)|, c.items, c.offset, sku, from, len - 1, m);
      RebuiltValue(rows, c, rows', DayKey(sku, from + len - 1), m);
      SeriesSnoc(rows', sku, from, len, m);
    }
  }

  // ---- Orders ------------------------------------------------------------------------------------------

  /** The orders of a day are the distinct orders of its records: an order with several items counts once. */
  lemma {:induction false} DayOrders(ps: seq<Posting>, n: nat, items: set<int>, offset: int, k: DayKey, ref: OrderRef)
    requires n <= |ps|
    ensures var sum := DaySum(ps, n, items, offset, k);
      (sum.Some? && ref in sum.value.orders <==>
        exists i :: 0 <= i < n && CountsFor(ps[i], items, offset, k) && ref in ps[i].entry.orders)
  {
    if n > 0 {
      DayOrders(ps, n - 1, items, offset, k, ref);
      if CountsFor(ps[n - 1], items, offset, k) && ref in ps[n - 1].entry.orders {
        assert exists i :: 0 <= i < n && CountsFor(ps[i], items, offset, k) && ref in ps[i].entry.orders;
      }
    }
  }
}

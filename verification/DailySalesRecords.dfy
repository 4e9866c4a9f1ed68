/** The rows of a rebuild against the orders, the historical sales and the returns it reads, field by field. */
module DailySalesRecords {
  import opened Options
  import opened BusinessDate
  import opened BusinessCalendar
  import opened DailySales
  import opened DailySalesRuns

  datatype OrderTotals = OrderTotals(quantity: int, refundable: int, cost: int)
  datatype SaleTotals = SaleTotals(quantity: int, total: int, cost: int, uncosted: int)
  datatype ReturnTotals = ReturnTotals(quantity: int, refunds: int, restockedCost: int)

  /** The fulfilled order items of a SKU with a time stamp from lo up to hi, among the first n. */
  function OrderedUpTo(s: seq<OrderItem>, n: nat, sku: int, lo: int, hi: int): OrderTotals
    requires n <= |s|
  {
    if n == 0 then OrderTotals(0, 0, 0) else
    var t, o := OrderedUpTo(s, n - 1, sku, lo, hi), s[n - 1];
    if o.fulfilled && o.fulfilledAt.Some? && o.sku == sku && lo <= o.fulfilledAt.value < hi
    then OrderTotals(quantity := t.quantity + o.quantity, refundable := t.refundable + o.refundableAmount,
                     cost := t.cost + o.costPrice * o.quantity)
    else t
  }

  /** The historical sales of a SKU; a sale without a cost counts its quantity as uncosted. */
  function ImportedUpTo(s: seq<HistoricalSale>, n: nat, sku: int, lo: int, hi: int): SaleTotals
    requires n <= |s|
  {
    if n == 0 then SaleTotals(0, 0, 0, 0) else
    var t, h := ImportedUpTo(s, n - 1, sku, lo, hi), s[n - 1];
    if h.sku == Some(sku) && lo <= h.soldAt < hi
    then SaleTotals(quantity := t.quantity + h.quantity, total := t.total + h.totalAmount,
                    cost := t.cost + (if h.costPrice.Some? then h.costPrice.value * h.quantity else 0),
                    uncosted := t.uncosted + (if h.costPrice.Some? then 0 else h.quantity))
    else t
  }

  /** The completed returns of a SKU; only what is restocked gives its cost back. */
  function ReturnedUpTo(s: seq<ReturnItem>, n: nat, sku: int, lo: int, hi: int): ReturnTotals
    requires n <= |s|
  {
    if n == 0 then ReturnTotals(0, 0, 0) else
    var t, r := ReturnedUpTo(s, n - 1, sku, lo, hi), s[n - 1];
    if r.completed && r.sku == sku && lo <= r.createdAt < hi
    then ReturnTotals(quantity := t.quantity + r.quantity, refunds := t.refunds + r.refundPrice,
                      restockedCost := t.restockedCost +
                        if r.restockable && r.costPrice.Some? then r.costPrice.value * r.quantity else 0)
    else t
  }

  function Ordered(src: Source, sku: int, lo: int, hi: int): OrderTotals {
    OrderedUpTo(src.orders, |src.orders|, sku, lo, hi)
  }

  function Imported(src: Source, sku: int, lo: int, hi: int): SaleTotals {
    ImportedUpTo(src.sales, |src.sales|, sku, lo, hi)
  }

  function Returned(src: Source, sku: int, lo: int, hi: int): ReturnTotals {
    ReturnedUpTo(src.returned, |src.returned|, sku, lo, hi)
  }

  /** What the three kinds of records say about a column. */
  function ColumnTotal(o: OrderTotals, h: SaleTotals, r: ReturnTotals, m: Measure): int {
    match m
    case GrossQuantity => o.quantity + h.quantity
    case ReturnedQuantity => r.quantity
    case NetQuantity => o.quantity + h.quantity - r.quantity
    case GrossRevenue => o.refundable + h.total
    case Refunds => r.refunds
    case NetRevenue => o.refundable + h.total - r.refunds
    case Cost => o.cost + h.cost - r.restockedCost
    case GrossProfit => o.refundable + h.total - r.refunds - (o.cost + h.cost - r.restockedCost)
    case CostMissing => h.uncosted
  }

  const NO_ORDERS := OrderTotals(0, 0, 0)
  const NO_SALES := SaleTotals(0, 0, 0, 0)
  const NO_RETURNS := ReturnTotals(0, 0, 0)

  /** The first instant of a business day at an offset. */
  function Midnight(day: int, offset: int): int { day * MS_PER_DAY - offset }

  lemma DaysOf(t: int, offset: int, from: int, len: nat)
    ensures from <= LocalDay(t, offset) < from + len <==> Midnight(from, offset) <= t < Midnight(from + len, offset)
  {
    var q := LocalDay(t, offset);
    assert q * MS_PER_DAY <= t + offset < (q + 1) * MS_PER_DAY;
    Scaled(from, q);
    Scaled(q + 1, from);
    Scaled(from + len, q);
    Scaled(q + 1, from + len);
  }

  lemma Scaled(a: int, b: int)
    ensures a <= b ==> a * MS_PER_DAY <= b * MS_PER_DAY
  {}

  lemma {:induction false} OrdersPart(src: Source, n: nat, items: set<int>, offset: int, sku: int, from: int, len: nat,
      m: Measure)
    requires n <= |src.orders| && sku in items
    ensures var lo, hi := Midnight(from, offset), Midnight(from + len, offset);
      DaysValue(Postings(src), n, items, offset, sku, from, len, m)
      == ColumnTotal(OrderedUpTo(src.orders, n, sku, lo, hi), NO_SALES, NO_RETURNS, m)
  {
    hide LocalDay, Midnight;
    if n > 0 {
      var o := src.orders[n - 1];
      OrdersPart(src, n - 1, items, offset, sku, from, len, m);
      assert Postings(src)[n - 1] == OrderPosting(o);
      if o.fulfilledAt.Some? { DaysOf(o.fulfilledAt.value, offset, from, len); }
    }
  }

  lemma {:induction false} SalesPart(src: Source, n: nat, items: set<int>, offset: int, sku: int, from: int, len: nat,
      m: Measure)
    requires n <= |src.sales| && sku in items
    ensures var lo, hi := Midnight(from, offset), Midnight(from + len, offset);
      DaysValue(Postings(src), |src.orders| + n, items, offset, sku, from, len, m)
      == ColumnTotal(Ordered(src, sku, lo, hi), ImportedUpTo(src.sales, n, sku, lo, hi), NO_RETURNS, m)
  {
    hide LocalDay, Midnight, OrderedUpTo;
    if n > 0 {
      var h := src.sales[n - 1];
      SalesPart(src, n - 1, items, offset, sku, from, len, m);
      assert Postings(src)[|src.orders| + n - 1] == SalePosting(h);
      DaysOf(h.soldAt, offset, from, len);
    } else {
      OrdersPart(src, |src.orders|, items, offset, sku, from, len, m);
    }
  }

  lemma {:induction false} ReturnsPart(src: Source, n: nat, items: set<int>, offset: int, sku: int, from: int,
      len: nat, m: Measure)
    requires n <= |src.returned| && sku in items
    ensures var lo, hi := Midnight(from, offset), Midnight(from + len, offset);
      DaysValue(Postings(src), |src.orders| + |src.sales| + n, items, offset, sku, from, len, m)
      == ColumnTotal(Ordered(src, sku, lo, hi), Imported(src, sku, lo, hi),
                     ReturnedUpTo(src.returned, n, sku, lo, hi), m)
  {
    hide LocalDay, Midnight, OrderedUpTo, ImportedUpTo;
    if n > 0 {
      var r := src.returned[n - 1];
      ReturnsPart(src, n - 1, items, offset, sku, from, len, m);
      assert Postings(src)[|src.orders| + |src.sales| + n - 1] == ReturnPosting(r);
      DaysOf(r.createdAt, offset, from, len);
    } else {
      SalesPart(src, |src.sales|, items, offset, sku, from, len, m);
    }
  }

  lemma SeriesColumn(rows: map<DayKey, Row>, c: Call, rows': map<DayKey, Row>, sku: int, from: int, len: nat,
      m: Measure)
    requires IsRebuild(rows, c, rows') && (c.scope == [] || sku in c.scope) && sku in c.items
    requires c.from <= from && from + len - 1 <= c.to
    ensures SeriesValue(Series(rows', sku, from, len), m) ==
      var lo, hi := Midnight(from, c.offset), Midnight(from + len, c.offset);
      ColumnTotal(Ordered(c.src, sku, lo, hi), Imported(c.src, sku, lo, hi), Returned(c.src, sku, lo, hi), m)
  {
    hide DaysValue, Midnight, Ordered, Imported, ReturnedUpTo, IsRebuild, Series, SeriesValue, ColumnTotal;
    SeriesConserves(rows, c, rows', sku, from, len, m);
    ReturnsPart(c.src, |c.src.returned|, c.items, c.offset, sku, from, len, m);
    assert |Postings(c.src)| == |c.src.orders| + |c.src.sales| + |c.src.returned|;
  }

  /** After a rebuild, every column of the series of a SKU over covered days adds up to the fields of the order items,
      historical sales and returns of those days. */
  lemma SeriesColumns(rows: map<DayKey, Row>, c: Call, rows': map<DayKey, Row>, sku: int, from: int, len: nat)
    requires IsRebuild(rows, c, rows') && (c.scope == [] || sku in c.scope) && sku in c.items
    requires c.from <= from && from + len - 1 <= c.to
    ensures var lo, hi := Midnight(from, c.offset), Midnight(from + len, c.offset);
      var o, h, r := Ordered(c.src, sku, lo, hi), Imported(c.src, sku, lo, hi), Returned(c.src, sku, lo, hi);
      var series := Series(rows', sku, from, len);
      && SeriesValue(series, GrossQuantity) == o.quantity + h.quantity
      && SeriesValue(series, ReturnedQuantity) == r.quantity
      && SeriesValue(series, NetQuantity) == o.quantity + h.quantity - r.quantity
      && SeriesValue(series, GrossRevenue) == o.refundable + h.total
      && SeriesValue(series, Refunds) == r.refunds
      && SeriesValue(series, NetRevenue) == o.refundable + h.total - r.refunds
      && SeriesValue(series, Cost) == o.cost + h.cost - r.restockedCost
      && SeriesValue(series, GrossProfit) == o.refundable + h.total - r.refunds - o.cost - h.cost + r.restockedCost
      && SeriesValue(series, CostMissing) == h.uncosted
  {
    hide Midnight, Ordered, Imported, Returned, IsRebuild, Series, SeriesValue, RowValue, Covers, InScope;
    SeriesColumn(rows, c, rows', sku, from, len, GrossQuantity);
    SeriesColumn(rows, c, rows', sku, from, len, ReturnedQuantity);
    SeriesColumn(rows, c, rows', sku, from, len, NetQuantity);
    SeriesColumn(rows, c, rows', sku, from, len, GrossRevenue);
    SeriesColumn(rows, c, rows', sku, from, len, Refunds);
    SeriesColumn(rows, c, rows', sku, from, len, NetRevenue);
    SeriesColumn(rows, c, rows', sku, from, len, Cost);
    SeriesColumn(rows, c, rows', sku, from, len, GrossProfit);
    SeriesColumn(rows, c, rows', sku, from, len, CostMissing);
  }

  lemma WindowIs(c: Call)
    requires UsualDays(c)
    ensures WindowStart(c) == Midnight(c.from, c.offset) && WindowEnd(c) == Midnight(c.to + 1, c.offset)
  {
    hide CivilOf, RangeStart, RangeEnd;
    DayOfCivil(c.from);
    DayOfCivil(c.to);
    StartIs(CivilOf(c.from), c.offset);
    EndIs(CivilOf(c.to), c.offset);
  }

  /** Over the whole rebuilt range, the columns add up to the fields of the records whose time stamps lie in the
      half-open UTC range of its query. */
  lemma RangeConserves(rows: map<DayKey, Row>, c: Call, rows': map<DayKey, Row>, sku: int, m: Measure)
    requires IsRebuild(rows, c, rows') && UsualDays(c) && c.from <= c.to + 1
    requires (c.scope == [] || sku in c.scope) && sku in c.items
    ensures var lo, hi := WindowStart(c), WindowEnd(c);
      SeriesValue(Series(rows', sku, c.from, c.to - c.from + 1), m)
      == ColumnTotal(Ordered(c.src, sku, lo, hi), Imported(c.src, sku, lo, hi), Returned(c.src, sku, lo, hi), m)
  {
    hide Midnight, WindowStart, WindowEnd, Ordered, Imported, Returned, IsRebuild, Series, SeriesValue, UsualDays,
         ColumnTotal, InScope;
    WindowIs(c);
    SeriesColumn(rows, c, rows', sku, c.from, c.to - c.from + 1, m);
  }

  /** A rebuild leaves the rows of other days and, unless its scope is empty, of SKUs outside the scope as they are. */
  lemma OthersKept(rows: map<DayKey, Row>, c: Call, rows': map<DayKey, Row>, k: DayKey)
    requires IsRebuild(rows, c, rows')
    requires k.day < c.from || c.to < k.day || (c.scope != [] && k.sku !in c.scope)
    ensures (k in rows' <==> k in rows) && (k in rows ==> rows'[k] == rows[k])
  {
    assert Lookup(rows', k) == RowAfter(rows, c, k);
    hide Fresh;
  }

  // ---- The single row ----------------------------------------------------------------------------------------

  predicate OrderOn(o: OrderItem, sku: int, lo: int, hi: int) {
    o.fulfilled && o.fulfilledAt.Some? && o.sku == sku && lo <= o.fulfilledAt.value < hi
  }

  predicate SaleOn(h: HistoricalSale, sku: int, lo: int, hi: int) { h.sku == Some(sku) && lo <= h.soldAt < hi }

  predicate ReturnOn(r: ReturnItem, sku: int, lo: int, hi: int) {
    r.completed && r.sku == sku && lo <= r.createdAt < hi
  }

  /** The orders of a day: its fulfilled orders, and its historical sales by their external number or, without one, by
      their time. */
  ghost function OrdersOf(src: Source, sku: int, lo: int, hi: int): set<OrderRef> {
    (set o | o in src.orders && OrderOn(o, sku, lo, hi) :: FulfilledOrder(o.orderId))
    + (set h | h in src.sales && SaleOn(h, sku, lo, hi) ::
         if h.externalOrderId == "" then SaleAt(h.soldAt) else ExternalOrder(h.externalOrderId))
  }

  ghost predicate AnyRecord(src: Source, sku: int, lo: int, hi: int) {
    || (exists o :: o in src.orders && OrderOn(o, sku, lo, hi))
    || (exists h :: h in src.sales && SaleOn(h, sku, lo, hi))
    || (exists r :: r in src.returned && ReturnOn(r, sku, lo, hi))
  }

  lemma PostingOf(src: Source, i: nat, items: set<int>, offset: int, k: DayKey)
    requires i < |Postings(src)| && k.sku in items
    ensures var lo, hi, p := Midnight(k.day, offset), Midnight(k.day + 1, offset), Postings(src)[i];
      var a, b := |src.orders|, |src.orders| + |src.sales|;
      CountsFor(p, items, offset, k) <==>
        if i < a then OrderOn(src.orders[i], k.sku, lo, hi)
        else if i < b then SaleOn(src.sales[i - a], k.sku, lo, hi) else ReturnOn(src.returned[i - b], k.sku, lo, hi)
  {
    DaysOf(Postings(src)[i].time, offset, k.day, 1);
    hide Midnight, LocalDay;
  }

  lemma {:induction false} SomeRecord(ps: seq<Posting>, n: nat, items: set<int>, offset: int, k: DayKey)
    requires n <= |ps|
    ensures DaySum(ps, n, items, offset, k).Some? <==> exists i :: 0 <= i < n && CountsFor(ps[i], items, offset, k)
  {
    hide CountsFor;
    if n > 0 { SomeRecord(ps, n - 1, items, offset, k); }
  }

  lemma AnyPosting(src: Source, items: set<int>, offset: int, k: DayKey)
    requires k.sku in items
    ensures (exists i :: 0 <= i < |Postings(src)| && CountsFor(Postings(src)[i], items, offset, k)) <==>
      AnyRecord(src, k.sku, Midnight(k.day, offset), Midnight(k.day + 1, offset))
  {
    var lo, hi := Midnight(k.day, offset), Midnight(k.day + 1, offset);
    var a, b, ps := |src.orders|, |src.orders| + |src.sales|, Postings(src);
    assert |ps| == b + |src.returned|;
    hide Midnight, CountsFor, OrderOn, SaleOn, ReturnOn, Postings;
    forall i: nat | i < |ps|
      ensures CountsFor(ps[i], items, offset, k) <==>
        if i < a then OrderOn(src.orders[i], k.sku, lo, hi)
        else if i < b then SaleOn(src.sales[i - a], k.sku, lo, hi) else ReturnOn(src.returned[i - b], k.sku, lo, hi)
    {
      PostingOf(src, i, items, offset, k);
    }
    if o :| o in src.orders && OrderOn(o, k.sku, lo, hi) {
      var i :| 0 <= i < a && src.orders[i] == o;
      assert CountsFor(ps[i], items, offset, k);
    }
    if h :| h in src.sales && SaleOn(h, k.sku, lo, hi) {
      var i :| 0 <= i < |src.sales| && src.sales[i] == h;
      assert CountsFor(ps[a + i], items, offset, k);
    }
    if r :| r in src.returned && ReturnOn(r, k.sku, lo, hi) {
      var i :| 0 <= i < |src.returned| && src.returned[i] == r;
      assert CountsFor(ps[b + i], items, offset, k);
    }
  }

  /** A covered row exists exactly if one of the records falls on its day. */
  lemma RowExistsIff(rows: map<DayKey, Row>, c: Call, rows': map<DayKey, Row>, k: DayKey)
    requires IsRebuild(rows, c, rows') && c.from <= k.day <= c.to
    requires (c.scope == [] || k.sku in c.scope) && k.sku in c.items
    ensures k in rows' <==> AnyRecord(c.src, k.sku, Midnight(k.day, c.offset), Midnight(k.day + 1, c.offset))
  {
    assert Lookup(rows', k) == RowAfter(rows, c, k);
    SomeRecord(Postings(c.src), |Postings(c.src)|, c.items, c.offset, k);
    AnyPosting(c.src, c.items, c.offset, k);
    hide Postings, AnyRecord, DaySum, CountsFor, Midnight, RowOf, IsRebuild;
  }
  lemma RefsOf(src: Source, items: set<int>, offset: int, k: DayKey, ref: OrderRef)
    requires k.sku in items
    ensures (exists i :: 0 <= i < |Postings(src)| && CountsFor(Postings(src)[i], items, offset, k) &&
               ref in Postings(src)[i].entry.orders)
      <==> ref in OrdersOf(src, k.sku, Midnight(k.day, offset), Midnight(k.day + 1, offset))
  {
    var lo, hi := Midnight(k.day, offset), Midnight(k.day + 1, offset);
    var a, b, ps := |src.orders|, |src.orders| + |src.sales|, Postings(src);
    forall i: nat | i < |ps|
      ensures ref in ps[i].entry.orders <==>
        if i < a then ref == FulfilledOrder(src.orders[i].orderId)
        else i < b && ref == SaleRef(src.sales[i - a])
    {
      PostingRefs(src, i, ref);
    }
    assert |ps| == b + |src.returned|;
    hide Midnight, CountsFor, OrderOn, SaleOn, ReturnOn, Postings;
    forall i: nat | i < |ps|
      ensures CountsFor(ps[i], items, offset, k) <==>
        if i < a then OrderOn(src.orders[i], k.sku, lo, hi)
        else if i < b then SaleOn(src.sales[i - a], k.sku, lo, hi) else ReturnOn(src.returned[i - b], k.sku, lo, hi)
    {
      PostingOf(src, i, items, offset, k);
    }
    if ref in OrdersOf(src, k.sku, lo, hi) {
      if o :| o in src.orders && OrderOn(o, k.sku, lo, hi) && ref == FulfilledOrder(o.orderId) {
        var i :| 0 <= i < a && src.orders[i] == o;
        assert CountsFor(ps[i], items, offset, k) && ref in ps[i].entry.orders;
      } else {
        var h :| h in src.sales && SaleOn(h, k.sku, lo, hi) && ref == SaleRef(h);
        var i :| 0 <= i < |src.sales| && src.sales[i] == h;
        assert CountsFor(ps[a + i], items, offset, k) && ref in ps[a + i].entry.orders;
      }
    }
  }

  lemma PostingRefs(src: Source, i: nat, ref: OrderRef)
    requires i < |Postings(src)|
    ensures ref in Postings(src)[i].entry.orders <==>
      if i < |src.orders| then ref == FulfilledOrder(src.orders[i].orderId)
      else i < |src.orders| + |src.sales| && ref == SaleRef(src.sales[i - |src.orders|])
  {}

  /** The order count of a covered row is the number of distinct orders of its day. */
  lemma RowOrderCount(rows: map<DayKey, Row>, c: Call, rows': map<DayKey, Row>, k: DayKey)
    requires IsRebuild(rows, c, rows') && c.from <= k.day <= c.to && k in rows'
    requires (c.scope == [] || k.sku in c.scope) && k.sku in c.items
    ensures rows'[k].orderCount ==
      |OrdersOf(c.src, k.sku, Midnight(k.day, c.offset), Midnight(k.day + 1, c.offset))|
  {
    assert Lookup(rows', k) == RowAfter(rows, c, k);
    var sum := DaySum(Postings(c.src), |Postings(c.src)|, c.items, c.offset, k);
    var refs := OrdersOf(c.src, k.sku, Midnight(k.day, c.offset), Midnight(k.day + 1, c.offset));
    forall ref
      ensures sum.Some? && ref in sum.value.orders <==> ref in refs
    {
      DayOrders(Postings(c.src), |Postings(c.src)|, c.items, c.offset, k, ref);
      RefsOf(c.src, c.items, c.offset, k, ref);
    }
    hide Postings, DaySum, CountsFor, Midnight, OrdersOf, IsRebuild;
    assert sum.value.orders == refs;
  }
}

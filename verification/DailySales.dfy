/** The daily sales summary: rows per (SKU, business day), deleted and rebuilt from orders, historical sales and
    returns. Money is in the smallest unit; a day is its number, which corresponds one to one to its key
    (BusinessDate.DayOfCivil, BusinessDate.CivilOfDay). */
module DailySales {
  import opened Options
  import opened BusinessDate
  import opened BusinessCalendar

  datatype OrderItem = OrderItem(sku: int, quantity: int, refundableAmount: int, costPrice: int, orderId: int,
      fulfilled: bool, fulfilledAt: Option<int>)
  datatype HistoricalSale = HistoricalSale(sku: Option<int>, quantity: int, totalAmount: int,
      costPrice: Option<int>, soldAt: int, externalOrderId: string)
  datatype ReturnItem = ReturnItem(sku: int, quantity: int, refundPrice: int, restockable: bool,
      costPrice: Option<int>, completed: bool, createdAt: int)
  datatype Source = Source(orders: seq<OrderItem>, sales: seq<HistoricalSale>, returned: seq<ReturnItem>)

  /** What identifies an order for the order count. */
  datatype OrderRef = FulfilledOrder(id: int) | ExternalOrder(ref: string) | SaleAt(time: int)

  datatype Entry = Entry(grossSoldQty: int, returnQty: int, grossRevenue: int, refundAmount: int, cogs: int,
      costMissingQty: int, orders: set<OrderRef>)

  datatype Row = Row(grossSoldQty: int, returnQty: int, netSoldQty: int, grossRevenue: int, refundAmount: int,
      netRevenue: int, cogs: int, grossProfit: int, costMissingQty: int, orderCount: nat)

  datatype DayKey = DayKey(sku: int, day: int)

  const EMPTY_ENTRY := Entry(0, 0, 0, 0, 0, 0, {})

  function RowOf(e: Entry): Row {
    var netRevenue := e.grossRevenue - e.refundAmount;
    Row(e.grossSoldQty, e.returnQty, e.grossSoldQty - e.returnQty, e.grossRevenue, e.refundAmount, netRevenue,
        e.cogs, netRevenue - e.cogs, e.costMissingQty, |e.orders|)
  }

  function Plus(a: Entry, b: Entry): Entry {
    Entry(a.grossSoldQty + b.grossSoldQty, a.returnQty + b.returnQty, a.grossRevenue + b.grossRevenue,
      a.refundAmount + b.refundAmount, a.cogs + b.cogs, a.costMissingQty + b.costMissingQty, a.orders + b.orders)
  }

  // ---- What every source record contributes, and when ------------------------------------------------

  /** A record as it counts; records that never count are not eligible. */
  datatype Posting = Posting(eligible: bool, sku: int, time: int, entry: Entry)

  function OrderPosting(o: OrderItem): Posting {
    Posting(o.fulfilled && o.fulfilledAt.Some?, o.sku, if o.fulfilledAt.Some? then o.fulfilledAt.value else 0,
            Entry(o.quantity, 0, o.refundableAmount, 0, o.costPrice * o.quantity, 0, {FulfilledOrder(o.orderId)}))
  }

  function SaleRef(h: HistoricalSale): OrderRef {
    if h.externalOrderId != "" then ExternalOrder(h.externalOrderId) else SaleAt(h.soldAt)
  }

  function SalePosting(h: HistoricalSale): Posting {
    Posting(h.sku.Some?, if h.sku.Some? then h.sku.value else 0, h.soldAt,
            Entry(h.quantity, 0, h.totalAmount, 0, if h.costPrice.Some? then h.costPrice.value * h.quantity else 0,
                  if h.costPrice.Some? then 0 else h.quantity, {SaleRef(h)}))
  }

  /** A restocked return takes its cost back out, which may leave the day's cost negative. */
  function ReturnPosting(r: ReturnItem): Posting {
    Posting(r.completed, r.sku, r.createdAt,
            Entry(0, r.quantity, 0, r.refundPrice,
              if r.restockable && r.costPrice.Some? then -(r.costPrice.value * r.quantity) else 0, 0, {}))
  }

  function Postings(src: Source): seq<Posting> {
    seq(|src.orders|, i requires 0 <= i < |src.orders| => OrderPosting(src.orders[i]))
    + seq(|src.sales|, i requires 0 <= i < |src.sales| => SalePosting(src.sales[i]))
    + seq(|src.returned|, i requires 0 <= i < |src.returned| => ReturnPosting(src.returned[i]))
  }

  // ---- The declarative sum ---------------------------------------------------------------------------

  function Added(before: Option<Entry>, e: Entry): Option<Entry> {
    Some(Plus(if before.Some? then before.value else EMPTY_ENTRY, e))
  }

  predicate CountsFor(p: Posting, items: set<int>, offset: int, k: DayKey) {
    p.eligible && p.sku in items && k == DayKey(p.sku, LocalDay(p.time, offset))
  }

  /** Everything the first n records sold or took back of a SKU on a business day; None when nothing did. */
  function DaySum(ps: seq<Posting>, n: nat, items: set<int>, offset: int, k: DayKey): Option<Entry>
    requires n <= |ps|
  {
    if n == 0 then None else
    var before := DaySum(ps, n - 1, items, offset, k);
    if CountsFor(ps[n - 1], items, offset, k) then Added(before, ps[n - 1].entry) else before
  }

  function Fresh(src: Source, items: set<int>, offset: int, k: DayKey): Option<Row> {
    match DaySum(Postings(src), |Postings(src)|, items, offset, k)
    case None => None
    case Some(e) => Some(RowOf(e))
  }

  /** One call of the rebuild: the data it reads and what it covers; an empty scope is every SKU. */
  datatype Call = Call(src: Source, items: set<int>, offset: int, from: int, to: int, scope: seq<int>)

  predicate InScope(scope: seq<int>, sku: int) { scope == [] || sku in scope }

  predicate Covers(c: Call, k: DayKey) { c.from <= k.day <= c.to && InScope(c.scope, k.sku) }

  function Lookup<V>(m: map<DayKey, V>, k: DayKey): Option<V> { if k in m then Some(m[k]) else None }

  /** A rebuild leaves, for each covered key, the row its data calls for, and every other row as it was. */
  function RowAfter(rows: map<DayKey, Row>, c: Call, k: DayKey): Option<Row> {
    if Covers(c, k) then Fresh(c.src, c.items, c.offset, k) else Lookup(rows, k)
  }

  ghost predicate IsRebuild(rows: map<DayKey, Row>, c: Call, rows': map<DayKey, Row>) {
    forall k :: Lookup(rows', k) == RowAfter(rows, c, k)
  }

  // ---- The windowed query the rebuild runs ------------------------------------------------------------

  predicate UsualDays(c: Call) { 1000 <= CivilOf(c.from).year <= 9999 && 1000 <= CivilOf(c.to).year <= 9999 }

  function WindowStart(c: Call): int { RangeStart(CivilOf(c.from), c.offset) }
  function WindowEnd(c: Call): int { RangeEnd(CivilOf(c.to), c.offset) }

  predicate Queried(p: Posting, c: Call, ids: set<int>) {
    p.eligible && p.sku in ids && WindowStart(c) <= p.time < WindowEnd(c)
  }

  function KeyOf(p: Posting, offset: int): DayKey { DayKey(p.sku, LocalDay(p.time, offset)) }

  /** What the accumulator holds for a key after the first n records. */
  function WindowSum(ps: seq<Posting>, n: nat, c: Call, ids: set<int>, k: DayKey): Option<Entry>
    requires n <= |ps|
  {
    if n == 0 then None else
    var before := WindowSum(ps, n - 1, c, ids, k);
    if Queried(ps[n - 1], c, ids) && KeyOf(ps[n - 1], c.offset) == k then Added(before, ps[n - 1].entry) else before
  }

  function ScopedItems(c: Call): set<int> { set sku | sku in c.items && InScope(c.scope, sku) }

  /** The half-open time window selects whole business days: what it sums for a key is all of that key or nothing. */
  lemma {:induction false} WindowIsDays(ps: seq<Posting>, n: nat, c: Call, k: DayKey)
    requires n <= |ps| && UsualDays(c)
    ensures WindowSum(ps, n, c, ScopedItems(c), k) == if Covers(c, k) then DaySum(ps, n, c.items, c.offset, k) else None
  {
    hide Queried, CountsFor, Covers, KeyOf, Added, ScopedItems;
    if n > 0 {
      WindowIsDays(ps, n - 1, c, k);
      PostingInWindow(ps[n - 1], c, k);
    }
  }

  lemma PostingInWindow(p: Posting, c: Call, k: DayKey)
    requires UsualDays(c)
    ensures Queried(p, c, ScopedItems(c)) && KeyOf(p, c.offset) == k <==>
      CountsFor(p, c.items, c.offset, k) && Covers(c, k)
  {
    hide CivilOf, RangeStart, RangeEnd, LocalDay;
    DayOfCivil(c.from);
    DayOfCivil(c.to);
    DateBounds(CivilOf(c.from));
    DateBounds(CivilOf(c.to));
    DayRange(p.time, c.offset, CivilOf(c.from), CivilOf(c.to));
  }

  class DailySalesSummary {
    var rows: map<DayKey, Row>

    constructor ()
      ensures rows == map[]
    {
      rows := map[];
    }

    method Rebuild(c: Call) returns (processedCount: nat)
      requires UsualDays(c)
      modifies this
      ensures IsRebuild(old(rows), c, rows)
      ensures processedCount == |set k | k in rows && Covers(c, k)|
    {
      hide DaySum, WindowSum, RowOf, LocalDay;
      DeleteCovered(c);
      ghost var kept := rows;
      var ids := ScopedItems(c);
      var entries := Accumulate(c, ids);
      forall k
        ensures Lookup(entries, k) == if Covers(c, k)
          then DaySum(Postings(c.src), |Postings(c.src)|, c.items, c.offset, k) else None
      {
        WindowIsDays(Postings(c.src), |Postings(c.src)|, c, k);
      }
      processedCount := Upsert(entries);
      assert (set k | k in rows && Covers(c, k)) == entries.Keys by {
        forall k
          ensures k in rows && Covers(c, k) <==> k in entries
        {
          assert k in rows <==> k in kept || k in entries;
          assert Lookup(entries, k).Some? <==> k in entries;
        }
      }
    }

    method DeleteCovered(c: Call)
      modifies this
      ensures rows == map k | k in old(rows) && !Covers(c, k) :: old(rows)[k]
    {
      rows := map k | k in rows && !Covers(c, k) :: rows[k];
    }

    method Accumulate(c: Call, ids: set<int>) returns (entries: map<DayKey, Entry>)
      ensures forall k :: Lookup(entries, k) == WindowSum(Postings(c.src), |Postings(c.src)|, c, ids, k)
    {
      entries := AddOrders(map[], c, ids);
      entries := AddSales(entries, c, ids);
      entries := AddReturns(entries, c, ids);
    }

    static method AddOrders(entries0: map<DayKey, Entry>, c: Call, ids: set<int>) returns (entries: map<DayKey, Entry>)
      requires entries0 == map[]
      ensures forall k :: Lookup(entries, k) == WindowSum(Postings(c.src), |c.src.orders|, c, ids, k)
    {
      hide WindowStart, WindowEnd, LocalDay;
      entries := entries0;
      for i := 0 to |c.src.orders|
        invariant forall k :: Lookup(entries, k) == WindowSum(Postings(c.src), i, c, ids, k)
      {
        var o := c.src.orders[i];
        assert Postings(c.src)[i] == OrderPosting(o);
        if o.fulfilled && o.sku in ids && o.fulfilledAt.Some? && WindowStart(c) <= o.fulfilledAt.value < WindowEnd(c) {
          var key, entry := GetOrCreate(entries, o.sku, o.fulfilledAt.value, c.offset);
          entry := entry.(grossSoldQty := entry.grossSoldQty + o.quantity,
            grossRevenue := entry.grossRevenue + o.refundableAmount);
          entry := entry.(cogs := entry.cogs + o.costPrice * o.quantity,
            orders := entry.orders + {FulfilledOrder(o.orderId)});
          entries := entries[key := entry];
        }
      }
    }

    static method AddSales(entries0: map<DayKey, Entry>, c: Call, ids: set<int>) returns (entries: map<DayKey, Entry>)
      requires forall k :: Lookup(entries0, k) == WindowSum(Postings(c.src), |c.src.orders|, c, ids, k)
      ensures forall k :: Lookup(entries, k) == WindowSum(Postings(c.src), |c.src.orders| + |c.src.sales|, c, ids, k)
    {
      hide WindowStart, WindowEnd, LocalDay;
      var n := |c.src.orders|;
      entries := entries0;
      for i := n to n + |c.src.sales|
        invariant forall k :: Lookup(entries, k) == WindowSum(Postings(c.src), i, c, ids, k)
      {
        var h := c.src.sales[i - n];
        assert Postings(c.src)[i] == SalePosting(h);
        if h.sku.Some? && h.sku.value in ids && WindowStart(c) <= h.soldAt < WindowEnd(c) {
          var key, entry := GetOrCreate(entries, h.sku.value, h.soldAt, c.offset);
          ghost var before := entry;
          entry := entry.(grossSoldQty := entry.grossSoldQty + h.quantity,
            grossRevenue := entry.grossRevenue + h.totalAmount);
          if h.costPrice.None? {
            entry := entry.(costMissingQty := entry.costMissingQty + h.quantity);
          } else {
            entry := entry.(cogs := entry.cogs + h.costPrice.value * h.quantity);
          }
          entry := entry.(orders := entry.orders + {SaleRef(h)});
          assert entry == Plus(before, SalePosting(h).entry);
          entries := entries[key := entry];
        }
      }
    }

    static method AddReturns(entries0: map<DayKey, Entry>, c: Call, ids: set<int>) returns (entries: map<DayKey, Entry>)
      requires forall k :: Lookup(entries0, k) == WindowSum(Postings(c.src), |c.src.orders| + |c.src.sales|, c, ids, k)
      ensures forall k :: Lookup(entries, k) == WindowSum(Postings(c.src), |Postings(c.src)|, c, ids, k)
    {
      hide WindowStart, WindowEnd, LocalDay, Plus;
      var n := |c.src.orders| + |c.src.sales|;
      entries := entries0;
      for i := n to n + |c.src.returned|
        invariant forall k :: Lookup(entries, k) == WindowSum(Postings(c.src), i, c, ids, k)
      {
        var r := c.src.returned[i - n];
        assert Postings(c.src)[i] == ReturnPosting(r);
        if r.completed && r.sku in ids && WindowStart(c) <= r.createdAt < WindowEnd(c) {
          var key, entry := GetOrCreate(entries, r.sku, r.createdAt, c.offset);
          entry := WithReturn(entry, r);
          entries := entries[key := entry];
        }
      }
    }

    /** One returned item on the entry of its day. */
    static method WithReturn(before: Entry, r: ReturnItem) returns (entry: Entry)
      ensures entry == Plus(before, ReturnPosting(r).entry)
    {
      entry := before.(returnQty := before.returnQty + r.quantity, refundAmount := before.refundAmount + r.refundPrice);
      if r.restockable {
        var unitCost := if r.costPrice.Some? then r.costPrice.value else 0;
        entry := entry.(cogs := entry.cogs - unitCost * r.quantity);
      }
      assert before.orders + {} == before.orders;
    }

    static method GetOrCreate(entries: map<DayKey, Entry>, sku: int, time: int, offset: int)
        returns (key: DayKey, entry: Entry)
      ensures key == DayKey(sku, LocalDay(time, offset))
      ensures Some(entry) == if key in entries then Some(entries[key]) else Some(EMPTY_ENTRY)
    {
      key := DayKey(sku, LocalDay(time, offset));
      entry := if key in entries then entries[key] else EMPTY_ENTRY;
    }

    /** One upsert an entry, in an order that does not matter to the result. */
    method Upsert(entries: map<DayKey, Entry>) returns (count: nat)
      modifies this
      ensures forall k :: Lookup(rows, k) == if k in entries then Some(RowOf(entries[k])) else Lookup(old(rows), k)
      ensures count == |entries|
    {
      var left := entries.Keys;
      count := 0;
      while left != {}
        invariant left <= entries.Keys && count + |left| == |entries.Keys|
        invariant forall k :: Lookup(rows, k) == if k in entries && k !in left then Some(RowOf(entries[k]))
          else Lookup(old(rows), k)
        decreases |left|
      {
        var k :| k in left;
        rows := rows[k := RowOf(entries[k])];
        left := left - {k};
        count := count + 1;
      }
    }

    /** One row a day for `days` days up to and including `endDay`; days without a row count as zero. */
    method GetDailySeries(sku: int, days: int, endDay: int) returns (series: seq<Row>)
      ensures series == Series(rows, sku, endDay - (days - 1), if days > 0 then days else 0)
    {
      series := [];
      var i := 0;
      while i < days
        invariant 0 <= i && (i <= days || i == 0)
        invariant series == Series(rows, sku, endDay - (days - 1), i)
      {
        var k := DayKey(sku, endDay - (days - 1) + i);
        series := series + [if k in rows then rows[k] else RowOf(EMPTY_ENTRY)];
        i := i + 1;
      }
    }
  }

  function RowOrZero(r: Option<Row>): Row { if r.Some? then r.value else RowOf(EMPTY_ENTRY) }

  function Series(rows: map<DayKey, Row>, sku: int, from: int, n: nat): (s: seq<Row>)
    ensures |s| == n && forall i :: 0 <= i < n ==> s[i] == RowOrZero(Lookup(rows, DayKey(sku, from + i)))
  {
    if n == 0 then [] else Series(rows, sku, from, n - 1) + [RowOrZero(Lookup(rows, DayKey(sku, from + n - 1)))]
  }
}

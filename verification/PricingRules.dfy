/** When a price is corrected, marked down, marked up or left, and to what, on the fields of the input. */
module PricingRules {
  import opened Options
  import opened Pricing

  function Thousands(n: int): real { n as real * 1000.0 }

  /** The least multiple of 1000 not below x, and the multiple of 1000 nearest to x, the upper one of two. */
  ghost predicate UpToThousand(x: real, price: real) {
    x <= price < x + 1000.0 && exists n :: price == Thousands(n)
  }

  ghost predicate NearestThousand(x: real, price: real) {
    price - 500.0 <= x < price + 500.0 && exists n :: price == Thousands(n)
  }

  /** The floor is the least multiple of 1000 that keeps the margin, or the cost if no price does. */
  ghost predicate FloorIs(cost: real, margin: real, floor: real) {
    if margin >= 1.0 then floor == cost else UpToThousand(cost / (1.0 - margin), floor)
  }

  predicate SoldSince(p: Input, days: int) { p.daysSinceLastSale.Some? && p.daysSinceLastSale.value >= days }

  /** A SKU in stock that has not sold for a while, has a high overstock score, or covers half more than its target. */
  predicate Slow(p: Input) {
    && (p.available.None? || p.available.value > 0)
    && (SoldSince(p, p.slowMovingDays) || p.overstockScore >= p.highRisk ||
        (p.daysOfCover.Some? && 2.0 * p.daysOfCover.value > (3 * p.targetCoverageDays) as real))
  }

  /** The discount in hundredths before its bounds: 25 from twice the dead-stock age on, 15 from that age on, else 10;
      5 or 3 more on a falling trend, 5 less on a rising one. */
  function Hundredths(p: Input): int {
    var age := if SoldSince(p, 2 * p.deadStockDays) then 25 else if SoldSince(p, p.deadStockDays) then 15 else 10;
    var trend := match p.trend
      case StrongDown => 5
      case Down => 3
      case Up => -5
      case StrongUp => -5
      case Stable => 0
      case UnknownTrend => 0;
    age + trend
  }

  /** At least 5 hundredths, but no more than the configured markdown. */
  predicate DiscountIs(p: Input, d: real) {
    var wanted := (if Hundredths(p) < 5 then 5 else Hundredths(p)) as real / 100.0;
    d == if wanted > p.maxMarkdown then p.maxMarkdown else wanted
  }

  /** 15 hundredths on a strong upward trend, else 8, but no more than the configured markup. */
  predicate MarkupIs(p: Input, m: real) {
    var wanted := if p.trend == StrongUp then 0.15 else 0.08;
    m == if wanted > p.maxMarkup then p.maxMarkup else wanted
  }

  lemma FloorOf(cost: real, margin: real)
    ensures FloorIs(cost, margin, MinimumPrice(cost, margin))
  {
    if margin < 1.0 { UpOf(cost / (1.0 - margin)); }
  }

  lemma UpOf(x: real)
    ensures UpToThousand(x, CeilK(x))
  {
    CeilKAbove(x);
    assert CeilK(x) == Thousands(-((-(x / 1000.0)).Floor));
  }

  lemma NearOf(x: real)
    ensures NearestThousand(x, RoundK(x))
  {
    var n := (x / 1000.0 + 0.5).Floor;
    assert RoundK(x) == Thousands(n);
    assert n as real <= x / 1000.0 + 0.5 < n as real + 1.0;
  }

  lemma ThousandsApart(a: real, b: real, n: int, m: int)
    requires a == n as real * 1000.0 && b == m as real * 1000.0 && -1000.0 < a - b < 1000.0
    ensures a == b
  {
    assert -1.0 < (n - m) as real < 1.0;
  }

  lemma OneUp(x: real, a: real, b: real)
    requires UpToThousand(x, a) && UpToThousand(x, b)
    ensures a == b
  {
    var n :| a == Thousands(n);
    var m :| b == Thousands(m);
    ThousandsApart(a, b, n, m);
  }

  lemma OneNear(x: real, a: real, b: real)
    requires NearestThousand(x, a) && NearestThousand(x, b)
    ensures a == b
  {
    var n :| a == Thousands(n);
    var m :| b == Thousands(m);
    ThousandsApart(a, b, n, m);
  }

  lemma DiscountOf(p: Input, d: real)
    requires DiscountIs(p, d)
    ensures Discount(p) == d
  {}

  lemma SlowIs(p: Input)
    ensures MarkdownCandidate(p) <==> Slow(p)
  {
    assert p.targetCoverageDays as real * 1.5 * 2.0 == (3 * p.targetCoverageDays) as real;
  }

  /** Evidence enough to move a price for demand. */
  predicate Ready(p: Input, floor: real) {
    && !(p.costPrice > 0.0 && (p.sellingPrice < p.costPrice || p.sellingPrice < floor))
    && p.sufficient && p.confidence >= 40
  }

  /** A price below the cost goes up to cover it with 15 hundredths on top, and one below the floor up to the floor. */
  lemma Corrected(p: Input, floor: real, covered: real)
    requires FloorIs(p.costPrice, p.minimumMargin, floor) && UpToThousand(p.costPrice * 1.15, covered)
    requires p.costPrice > 0.0 && (p.sellingPrice < p.costPrice || p.sellingPrice < floor)
    ensures var r := Evaluate(p);
      && r.action == Increase && r.generated
      && (p.sellingPrice < p.costPrice ==>
            r.price == (if floor > covered then floor else covered) && r.factors == [SellingAtLoss])
      && (p.sellingPrice >= p.costPrice ==> r.price == floor && r.factors == [BelowMinimumMargin])
  {
    FloorOf(p.costPrice, p.minimumMargin);
    UpOf(p.costPrice * 1.15);
    OneUp(p.costPrice * 1.15, covered, CeilK(p.costPrice * 1.15));
    if p.minimumMargin < 1.0 {
      OneUp(p.costPrice / (1.0 - p.minimumMargin), floor, MinimumPrice(p.costPrice, p.minimumMargin));
    }
    hide CeilK, MinimumPrice;
  }

  /** Without evidence the price stays and nothing is recommended. */
  lemma LeftAlone(p: Input, floor: real)
    requires FloorIs(p.costPrice, p.minimumMargin, floor)
    requires !(p.costPrice > 0.0 && (p.sellingPrice < p.costPrice || p.sellingPrice < floor))
    requires !p.sufficient || p.confidence < 40
    ensures Evaluate(p) == Result(action := Maintain, price := p.sellingPrice,
      factors := if p.sufficient then [LowConfidence] else [InsufficientData], generated := false)
  {
    FloorOf(p.costPrice, p.minimumMargin);
    if p.minimumMargin < 1.0 {
      OneUp(p.costPrice / (1.0 - p.minimumMargin), floor, MinimumPrice(p.costPrice, p.minimumMargin));
    }
    hide CeilK, MinimumPrice, MarkdownPrice, MarkupPrice;
  }

  /** With evidence, a price is marked down exactly if the SKU is slow and the rounded discounted price, held above the
      floor, is lower; else marked up exactly if demand rises on a high stock-out score and the rounded markup is
      higher; and else it stays. */
  lemma MovedByDemand(p: Input, floor: real, d: real, m: real, down: real, up: real)
    requires FloorIs(p.costPrice, p.minimumMargin, floor) && Ready(p, floor) && DiscountIs(p, d) && MarkupIs(p, m)
    requires var wanted := p.sellingPrice - p.sellingPrice * d;
      NearestThousand(if wanted < floor then floor else wanted, down)
    requires NearestThousand(p.sellingPrice + p.sellingPrice * m, up)
    ensures var r := Evaluate(p);
      && (r.action == Decrease <==> Slow(p) && down < p.sellingPrice)
      && (r.action == Increase <==>
            !(Slow(p) && down < p.sellingPrice) && p.stockoutScore >= p.highRisk &&
            (p.trend == Up || p.trend == StrongUp) && up > p.sellingPrice)
      && r.price == (match r.action case Decrease => down case Increase => up case Maintain => p.sellingPrice)
      && (r.generated <==> r.action != Maintain)
  {
    FloorOf(p.costPrice, p.minimumMargin);
    if p.minimumMargin < 1.0 {
      OneUp(p.costPrice / (1.0 - p.minimumMargin), floor, MinimumPrice(p.costPrice, p.minimumMargin));
    }
    SlowIs(p);
    DiscountOf(p, d);
    assert Markup(p) == m;
    RoundedIs(p, floor, d, m, down, up);
    hide CeilK, MinimumPrice, MarkdownPrice, MarkupPrice, MarkdownCandidate, Slow, DiscountIs, MarkupIs, Discount,
         Markup, FloorIs, NearestThousand, BaseMarkdown, TrendAdjustment;
  }

  lemma RoundedIs(p: Input, floor: real, d: real, m: real, down: real, up: real)
    requires MinimumPrice(p.costPrice, p.minimumMargin) == floor && Discount(p) == d && Markup(p) == m
    requires var wanted := p.sellingPrice - p.sellingPrice * d;
      NearestThousand(if wanted < floor then floor else wanted, down)
    requires NearestThousand(p.sellingPrice + p.sellingPrice * m, up)
    ensures MarkdownPrice(p) == down && MarkupPrice(p) == up
  {
    hide MinimumPrice, Discount, Markup, NearestThousand, RoundK;
    var wanted := p.sellingPrice - p.sellingPrice * d;
    assert Less(p.sellingPrice, d) == wanted && Less(p.sellingPrice, -m) == p.sellingPrice + p.sellingPrice * m;
    var held := if wanted < floor then floor else wanted;
    NearOf(held);
    OneNear(held, down, RoundK(held));
    NearOf(p.sellingPrice + p.sellingPrice * m);
    OneNear(p.sellingPrice + p.sellingPrice * m, up, RoundK(p.sellingPrice + p.sellingPrice * m));
  }

  /** The reasons given with a recommendation that is not a correction. */
  lemma ReasonsAre(p: Input, floor: real)
    requires FloorIs(p.costPrice, p.minimumMargin, floor) && Ready(p, floor)
    ensures var r := Evaluate(p);
      var age := if SoldSince(p, 2 * p.deadStockDays) then DeadStockCritical
                 else if SoldSince(p, p.deadStockDays) then DeadStockWarning else OverstockRisk;
      var trend := match p.trend
        case StrongDown => [TrendStrongDown]
        case Down => [TrendDown]
        case Up => [TrendUp]
        case StrongUp => [TrendUp]
        case Stable => []
        case UnknownTrend => [];
      var last := match r.action
        case Decrease => PriceFloorGuard
        case Increase => HighDemandLowStock
        case Maintain => BalancedDemandStock;
      r.factors == (if Slow(p) then [age] + trend else []) + [last]
  {
    FloorOf(p.costPrice, p.minimumMargin);
    if p.minimumMargin < 1.0 {
      OneUp(p.costPrice / (1.0 - p.minimumMargin), floor, MinimumPrice(p.costPrice, p.minimumMargin));
    }
    SlowIs(p);
    hide CeilK, MinimumPrice, MarkdownPrice, MarkupPrice, MarkdownCandidate, Slow, FloorIs;
  }
}

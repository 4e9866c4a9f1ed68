/** Price recommendations over exact reals: corrections of the margin, markdowns with a floor, and markups. Labels,
    confidence and reported percentages are left out; a factor is its code. */
module Pricing {
  import opened Options

  datatype Trend = StrongDown | Down | Stable | Up | StrongUp | UnknownTrend
  datatype Action = Increase | Decrease | Maintain
  datatype Factor =
    | SellingAtLoss | BelowMinimumMargin | InsufficientData | LowConfidence | DeadStockCritical | DeadStockWarning
    | OverstockRisk | TrendStrongDown | TrendDown | TrendUp | PriceFloorGuard | HighDemandLowStock | BalancedDemandStock

  datatype Input = Input(sellingPrice: real, costPrice: real, minimumMargin: real, maxMarkdown: real,
      maxMarkup: real, daysSinceLastSale: Option<int>, daysOfCover: Option<real>, overstockScore: int,
      stockoutScore: int, trend: Trend, confidence: int, slowMovingDays: int, deadStockDays: int, highRisk: int,
      targetCoverageDays: int, sufficient: bool, available: Option<int>)

  datatype Result = Result(action: Action, price: real, factors: seq<Factor>, generated: bool)

  function Max(a: real, b: real): real { if a >= b then a else b }
  function Min(a: real, b: real): real { if a <= b then a else b }

  /** The multiple of 1000 nearest to x, halves upwards; and the least one not below x. */
  function RoundK(x: real): real { (x / 1000.0 + 0.5).Floor as real * 1000.0 }
  function CeilK(x: real): real { (-((-(x / 1000.0)).Floor)) as real * 1000.0 }

  function MinimumPrice(cost: real, margin: real): real {
    if margin >= 1.0 then cost else CeilK(cost / (1.0 - margin))
  }

  function BaseMarkdown(p: Input): (real, Factor) {
    if p.daysSinceLastSale.Some? && p.daysSinceLastSale.value >= p.deadStockDays * 2 then (0.25, DeadStockCritical)
    else if p.daysSinceLastSale.Some? && p.daysSinceLastSale.value >= p.deadStockDays then (0.15, DeadStockWarning)
    else (0.10, OverstockRisk)
  }

  function TrendAdjustment(t: Trend): (real, seq<Factor>) {
    match t
    case StrongDown => (0.05, [TrendStrongDown])
    case Down => (0.03, [TrendDown])
    case Up => (-0.05, [TrendUp])
    case StrongUp => (-0.05, [TrendUp])
    case _ => (0.0, [])
  }

  predicate MarkdownCandidate(p: Input) {
    && !(p.available.Some? && p.available.value <= 0)
    && ((p.daysSinceLastSale.Some? && p.daysSinceLastSale.value >= p.slowMovingDays)
        || p.overstockScore >= p.highRisk
        || (p.daysOfCover.Some? && p.daysOfCover.value > p.targetCoverageDays as real * 1.5))
  }

  function Discount(p: Input): real { Min(p.maxMarkdown, Max(0.05, BaseMarkdown(p).0 + TrendAdjustment(p.trend).0)) }

  /** A price less a fraction of it; a markup is a negative discount. */
  function Less(price: real, pct: real): real { price * (1.0 - pct) }

  function Markup(p: Input): real { if p.trend == StrongUp then Min(p.maxMarkup, 0.15) else Min(p.maxMarkup, 0.08) }

  function MarkdownPrice(p: Input): real {
    RoundK(Max(MinimumPrice(p.costPrice, p.minimumMargin), Less(p.sellingPrice, Discount(p))))
  }

  function MarkupPrice(p: Input): real { RoundK(Less(p.sellingPrice, -Markup(p))) }

  predicate AtLoss(p: Input) { p.costPrice > 0.0 && p.sellingPrice < p.costPrice }

  predicate UnderMargin(p: Input) { p.costPrice > 0.0 && p.sellingPrice < MinimumPrice(p.costPrice, p.minimumMargin) }

  function Evaluate(p: Input): Result {
    var floor := MinimumPrice(p.costPrice, p.minimumMargin);
    if AtLoss(p) then Result(Increase, Max(floor, CeilK(p.costPrice * 1.15)), [SellingAtLoss], true)
    else if UnderMargin(p) then Result(Increase, floor, [BelowMinimumMargin], true)
    else if !p.sufficient then Result(Maintain, p.sellingPrice, [InsufficientData], false)
    else if p.confidence < 40 then Result(Maintain, p.sellingPrice, [LowConfidence], false)
    else
      var factors := if MarkdownCandidate(p) then [BaseMarkdown(p).1] + TrendAdjustment(p.trend).1 else [];
      if MarkdownCandidate(p) && MarkdownPrice(p) < p.sellingPrice
      then Result(Decrease, MarkdownPrice(p), factors + [PriceFloorGuard], true)
      else if p.stockoutScore >= p.highRisk && p.trend in {Up, StrongUp} && MarkupPrice(p) > p.sellingPrice
      then Result(Increase, MarkupPrice(p), factors + [HighDemandLowStock], true)
      else Result(Maintain, p.sellingPrice, factors + [BalancedDemandStock], false)
  }

  method EvaluatePricing(p: Input) returns (r: Result)
    ensures r == Evaluate(p)
  {
    hide RoundK, CeilK, MinimumPrice, Less;
    var minimumPrice := MinimumPrice(p.costPrice, p.minimumMargin);
    var factors: seq<Factor> := [];
    if p.costPrice > 0.0 && p.sellingPrice < p.costPrice {
      factors := factors + [SellingAtLoss];
      return Result(Increase, Max(minimumPrice, CeilK(p.costPrice * 1.15)), factors, true);
    }
    if p.costPrice > 0.0 && p.sellingPrice < minimumPrice {
      return Result(Increase, minimumPrice, [BelowMinimumMargin], true);
    }
    if !p.sufficient { return Result(Maintain, p.sellingPrice, [InsufficientData], false); }
    if p.confidence < 40 { return Result(Maintain, p.sellingPrice, [LowConfidence], false); }
    if MarkdownCandidate(p) {
      var baseMarkdown := 0.10;
      if p.daysSinceLastSale.Some? && p.daysSinceLastSale.value >= p.deadStockDays * 2 {
        baseMarkdown := 0.25;
        factors := factors + [DeadStockCritical];
      } else if p.daysSinceLastSale.Some? && p.daysSinceLastSale.value >= p.deadStockDays {
        baseMarkdown := 0.15;
        factors := factors + [DeadStockWarning];
      } else {
        factors := factors + [OverstockRisk];
      }
      var trendAdj := 0.0;
      if p.trend == StrongDown {
        trendAdj := 0.05;
        factors := factors + [TrendStrongDown];
      } else if p.trend == Down {
        trendAdj := 0.03;
        factors := factors + [TrendDown];
      } else if p.trend == Up || p.trend == StrongUp {
        trendAdj := -0.05;
        factors := factors + [TrendUp];
      }
      assert factors == [BaseMarkdown(p).1] + TrendAdjustment(p.trend).1;
      var rawDiscount := Min(p.maxMarkdown, Max(0.05, baseMarkdown + trendAdj));
      var clamped := Max(minimumPrice, Less(p.sellingPrice, rawDiscount));
      var rounded := RoundK(clamped);
      if rounded < p.sellingPrice { return Result(Decrease, rounded, factors + [PriceFloorGuard], true); }
    }
    if p.stockoutScore >= p.highRisk && (p.trend == Up || p.trend == StrongUp) {
      var markup := if p.trend == StrongUp then Min(p.maxMarkup, 0.15) else Min(p.maxMarkup, 0.08);
      var target := RoundK(Less(p.sellingPrice, -markup));
      if target > p.sellingPrice { return Result(Increase, target, factors + [HighDemandLowStock], true); }
    }
    r := Result(Maintain, p.sellingPrice, factors + [BalancedDemandStock], false);
  }

  // ---- Rounding --------------------------------------------------------------------------------------------

  lemma RoundKNear(x: real)
    ensures x - 500.0 < RoundK(x) <= x + 500.0
  {}

  /** Rounding does not cross a multiple of 1000. */
  lemma RoundKAbove(x: real, n: int)
    requires x >= n as real * 1000.0
    ensures RoundK(x) >= n as real * 1000.0
  {
    assert x / 1000.0 >= n as real;
    assert (x / 1000.0 + 0.5).Floor >= n;
  }

  lemma CeilKAbove(x: real)
    ensures x <= CeilK(x) < x + 1000.0
  {}

  lemma MulOrder(a: real, b: real, d: real)
    requires a <= b && d >= 0.0
    ensures a * d <= b * d
  {}

  /** The floor keeps the margin: it is at least cost / (1 - margin) and a multiple of 1000. */
  lemma FloorKeepsMargin(cost: real, margin: real, price: real) returns (n: int)
    requires margin < 1.0
    ensures MinimumPrice(cost, margin) == n as real * 1000.0
    ensures price >= MinimumPrice(cost, margin) ==> price * (1.0 - margin) >= cost
  {
    var raw := cost / (1.0 - margin);
    CeilKAbove(raw);
    n := -((-(raw / 1000.0)).Floor);
    assert raw * (1.0 - margin) == cost;
    if price >= MinimumPrice(cost, margin) { MulOrder(raw, price, 1.0 - margin); }
  }

  /** Gross margin on the selling price, (price - cost) / price >= margin, without the division. */
  predicate KeepsMargin(price: real, cost: real, margin: real) { price > 0.0 && price - cost >= margin * price }

  lemma MarkdownAboveFloor(p: Input)
    requires p.minimumMargin < 1.0
    ensures MarkdownPrice(p) >= MinimumPrice(p.costPrice, p.minimumMargin)
  {
    var n := FloorKeepsMargin(p.costPrice, p.minimumMargin, 0.0);
    hide RoundK, MinimumPrice, Discount, Less;
    RoundKAbove(Max(MinimumPrice(p.costPrice, p.minimumMargin), Less(p.sellingPrice, Discount(p))), n);
  }

  lemma MarginBelowOne(price: real, cost: real, margin: real)
    requires cost > 0.0 && KeepsMargin(price, cost, margin)
    ensures margin < 1.0
  {
    if margin >= 1.0 { MulOrder(1.0, margin, price); }
  }

  lemma MarginFromFloor(price: real, cost: real, margin: real)
    requires cost > 0.0 && margin < 1.0 && price >= MinimumPrice(cost, margin)
    ensures KeepsMargin(price, cost, margin)
  {
    var n := FloorKeepsMargin(cost, margin, price);
    if price <= 0.0 { MulOrder(price, 0.0, 1.0 - margin); }
    assert price * (1.0 - margin) == price - margin * price;
  }

  lemma GeneratedAboveFloor(p: Input)
    requires p.costPrice > 0.0 && Evaluate(p).generated && p.minimumMargin < 1.0
    ensures Evaluate(p).price >= MinimumPrice(p.costPrice, p.minimumMargin)
  {
    hide MinimumPrice, MarkdownPrice, MarkupPrice, CeilK;
    MarkdownAboveFloor(p);
  }

  /** With a positive cost every generated recommendation keeps the minimum gross margin despite the rounding,
      exactly when that minimum is below 1. */
  lemma RecommendationKeepsMarginIff(p: Input)
    requires p.costPrice > 0.0 && Evaluate(p).generated
    ensures KeepsMargin(Evaluate(p).price, p.costPrice, p.minimumMargin) <==> p.minimumMargin < 1.0
  {
    var price := Evaluate(p).price;
    if p.minimumMargin < 1.0 {
      GeneratedAboveFloor(p);
      MarginFromFloor(price, p.costPrice, p.minimumMargin);
    } else if KeepsMargin(price, p.costPrice, p.minimumMargin) {
      MarginBelowOne(price, p.costPrice, p.minimumMargin);
    }
  }

  lemma NoCostNoFloor(margin: real)
    ensures MinimumPrice(0.0, margin) == 0.0
  {
    if margin < 1.0 { assert 0.0 / (1.0 - margin) == 0.0; }
    assert CeilK(0.0) == 0.0;
  }

  /** Below 500 the rounding goes to nothing, from 500 on it does not. */
  lemma RoundKVanishesIff(x: real)
    requires x >= 0.0
    ensures RoundK(x) >= 0.0 && (RoundK(x) == 0.0 <==> x < 500.0)
  {
    if x >= 500.0 { assert (x / 1000.0 + 0.5).Floor >= 1; }
  }

  /** The markdown branch is reached, and the discounted price rounds to nothing. */
  predicate MarkedToNothing(p: Input) {
    p.sufficient && p.confidence >= 40 && MarkdownCandidate(p) && Less(p.sellingPrice, Discount(p)) < 500.0
  }

  /** Without a cost there is no floor: the recommended price of an item is positive exactly if the item is not marked
      down or its discounted price is at least 500. */
  lemma FreeItemPositiveIff(p: Input)
    requires p.costPrice == 0.0 && p.sellingPrice > 0.0
    ensures Evaluate(p).price > 0.0 <==> !MarkedToNothing(p)
  {
    hide RoundK, MinimumPrice, Less, BaseMarkdown, TrendAdjustment, CeilK, Discount, MarkupPrice;
    NoCostNoFloor(p.minimumMargin);
    RoundKVanishesIff(Max(0.0, Less(p.sellingPrice, Discount(p))));
  }

  /** And so is its margin: with a cost of zero the recommendation keeps the minimum gross margin exactly if moreover
      that minimum is not above 1. */
  lemma FreeItemKeepsMarginIff(p: Input)
    requires p.costPrice == 0.0 && p.sellingPrice > 0.0
    ensures KeepsMargin(Evaluate(p).price, 0.0, p.minimumMargin) <==> !MarkedToNothing(p) && p.minimumMargin <= 1.0
  {
    FreeItemPositiveIff(p);
    hide Evaluate, MarkedToNothing;
    var price := Evaluate(p).price;
    if price > 0.0 {
      if p.minimumMargin <= 1.0 { MulOrder(p.minimumMargin, 1.0, price); }
        else { MulStrict(1.0, p.minimumMargin, price); }
    }
  }

  lemma MulStrict(a: real, b: real, d: real)
    requires a < b && d > 0.0
    ensures a * d < b * d
  {}

  /** A cheap item is marked down to nothing. */
  lemma FreeItemMarkedToZero()
    ensures var p := Input(400.0, 0.0, 0.2, 0.3, 0.2, Some(200), None, 0, 0, Stable, 80, 30, 90, 70, 30, true, None);
      Evaluate(p).action == Decrease && Evaluate(p).price == 0.0
  {
    assert CeilK(0.0 / 0.8) == 0.0;
    assert RoundK(300.0) == 0.0 && RoundK(280.0) == 0.0;
    assert 400.0 * (1.0 - 0.25) == 300.0;
  }

  lemma LessOrder(price: real, a: real, b: real)
    requires price >= 0.0 && a <= b
    ensures Less(price, b) <= Less(price, a)
  {
    MulOrder(1.0 - b, 1.0 - a, price);
  }

  /** The action says which way the price moves; a markdown takes no more than maxMarkdownPct and 500 for the rounding,
      a demand-driven markup adds no more than maxMarkupPct and 500; and an out-of-stock SKU, or one without evidence,
      is never marked down. */
  lemma PriceMoves(p: Input)
    requires p.sellingPrice >= 0.0
    ensures var r := Evaluate(p);
      && (r.action == Maintain <==> !r.generated) && (r.action == Maintain ==> r.price == p.sellingPrice)
      && (r.action == Increase ==> r.price > p.sellingPrice)
      && (r.action == Decrease ==> Less(p.sellingPrice, p.maxMarkdown) - 500.0 < r.price < p.sellingPrice)
      && (r.action == Increase && !AtLoss(p) && !UnderMargin(p) ==>
        r.price <= Less(p.sellingPrice, -p.maxMarkup) + 500.0)
      && (r.action == Decrease ==> p.sufficient && p.confidence >= 40 && !(p.available.Some? && p.available.value <= 0))
  {
    hide MinimumPrice, RoundK, CeilK, Less, BaseMarkdown, TrendAdjustment;
    CeilKAbove(p.costPrice * 1.15);
    RoundKNear(Max(MinimumPrice(p.costPrice, p.minimumMargin), Less(p.sellingPrice, Discount(p))));
    LessOrder(p.sellingPrice, Discount(p), p.maxMarkdown);
    RoundKNear(Less(p.sellingPrice, -Markup(p)));
    LessOrder(p.sellingPrice, -p.maxMarkup, -Markup(p));
  }

  // ---- Corrections and chains --------------------------------------------------------------------------------

  predicate IsCorrection(p: Input) { AtLoss(p) || UnderMargin(p) }

  /** A margin correction is done once: after it is accepted, nothing about the margin is left to correct, whatever
      demand says then. */
  lemma CorrectionIsFixedPoint(p: Input, q: Input)
    requires IsCorrection(p)
    requires q.sellingPrice == Evaluate(p).price && q.costPrice == p.costPrice && q.minimumMargin == p.minimumMargin
    ensures !IsCorrection(q)
  {
    hide MinimumPrice, CeilK;
    CeilKAbove(p.costPrice * 1.15);
  }

  /** Consecutive accepted markdowns of one item: each starts at the price the last one set. */
  predicate MarkdownChain(ps: seq<Input>) {
    && (forall i :: 0 <= i < |ps| ==> Evaluate(ps[i]).action == Decrease)
    && forall i, k :: 0 <= i < k < |ps| ==>
         ps[k].costPrice == ps[i].costPrice && ps[k].minimumMargin == ps[i].minimumMargin
           && (k == i + 1 ==> ps[k].sellingPrice == Evaluate(ps[i]).price)
  }

  lemma MarkdownStep(p: Input) returns (n: int)
    requires Evaluate(p).action == Decrease
    ensures Evaluate(p).price == n as real * 1000.0 && Evaluate(p).price < p.sellingPrice
    ensures p.minimumMargin < 1.0 ==> Evaluate(p).price >= MinimumPrice(p.costPrice, p.minimumMargin)
  {
    hide MinimumPrice, Less, BaseMarkdown, TrendAdjustment, CeilK;
    n := (Max(MinimumPrice(p.costPrice, p.minimumMargin), Less(p.sellingPrice, Discount(p))) / 1000.0 + 0.5).Floor;
    if p.minimumMargin < 1.0 { MarkdownAboveFloor(p); }
  }

  /** Every chain of accepted markdowns ends at or above the floor, and each markdown after the first takes at least
      1000: the chain is no longer than the distance to the floor allows. */
  lemma {:induction false} MarkdownsTerminate(ps: seq<Input>)
    requires ps != [] && MarkdownChain(ps) && ps[0].minimumMargin < 1.0
    ensures var last := ps[|ps| - 1]; var floor := MinimumPrice(ps[0].costPrice, ps[0].minimumMargin);
      && Evaluate(last).price >= floor
      && Evaluate(last).price + (|ps| - 1) as real * 1000.0 <= Evaluate(ps[0]).price < ps[0].sellingPrice
  {
    hide Evaluate, MinimumPrice;
    var last := ps[|ps| - 1];
    var n := MarkdownStep(last);
    if |ps| == 1 {
      assert ps[0] == last;
    } else {
      var init := ps[..|ps| - 1];
      assert forall i :: 0 <= i < |init| ==> init[i] == ps[i];
      MarkdownsTerminate(init);
      var m := MarkdownStep(ps[|ps| - 2]);
      assert last.sellingPrice == Evaluate(ps[|ps| - 2]).price;
      assert n as real * 1000.0 < m as real * 1000.0;
      assert n + 1 <= m;
      var z := MarkdownStep(ps[0]);
    }
  }
}

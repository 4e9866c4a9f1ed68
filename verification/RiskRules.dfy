/** What the risk scores are made of, on the fields of their inputs. */
module RiskRules {
  import opened Options
  import opened Risk

  /** Math.round(x) == n. */
  predicate Nearest(x: real, n: int) { n as real - 0.5 <= x < n as real + 0.5 }

  predicate Held(x: real, f: real) {
    0.0 <= f <= 1.0 && (x < 0.0 ==> f == 0.0) && (x > 1.0 ==> f == 1.0) && (0.0 <= x <= 1.0 ==> f == x)
  }

  lemma RoundIs(x: real, n: int)
    requires Nearest(x, n)
    ensures Round(x) == n
  {}

  lemma Quotient(n: real, d: real, q: real)
    requires d > 0.0 && q * d == n
    ensures n / d == q
  {
    QuotientIs(n, d, q);
  }

  lemma SeverityIs(score: int, t: Thresholds)
    ensures SeverityOf(score, t) == Critical <==> score >= t.critical
    ensures SeverityOf(score, t) == High <==> t.high <= score < t.critical
    ensures SeverityOf(score, t) == Medium <==> t.low <= score < t.critical && score < t.high
  {}

  // ---- Stock-out -----------------------------------------------------------------------------------------

  /** The missing part of the reorder point. */
  predicate MissingPart(p: StockoutInput, s: real) {
    if p.available >= p.reorderPoint then s == 0.0
    else s * (if p.reorderPoint > 1 then p.reorderPoint else 1) as real == (p.reorderPoint - p.available) as real
  }

  /** The part of the lead and safety days that cover does not reach; 0.7 if cover is unknown and stock is short. */
  predicate UncoveredPart(p: StockoutInput, c: real) {
    var days := (if p.leadTimeDays + p.safetyDays > 1 then p.leadTimeDays + p.safetyDays else 1) as real;
    if p.daysOfCover.None? then c == if p.available < p.reorderPoint then 0.7 else 0.0
    else if p.daysOfCover.value >= days then c == 0.0
    else c * days == days - p.daysOfCover.value
  }

  /** What stock at or below the reorder point scores at least. */
  function LeastScore(p: StockoutInput): int {
    var missing := p.reorderPoint - p.available;
    if p.reorderPoint <= 0 || missing < 0 then 0
    else if 10 * missing >= 7 * p.reorderPoint then p.thresholds.critical
    else if 10 * missing >= 3 * p.reorderPoint then p.thresholds.high
    else p.thresholds.low
  }

  lemma ShortageIs(p: StockoutInput, s: real)
    requires MissingPart(p, s)
    ensures Shortage(p.available, p.reorderPoint) == s
    ensures s > 0.0 <==> p.available < p.reorderPoint
  {
    var d := (if p.reorderPoint > 1 then p.reorderPoint else 1) as real;
    if p.available >= p.reorderPoint {
      Quotient(0.0, d, 0.0);
    } else {
      Quotient((p.reorderPoint - p.available) as real, d, s);
      if s <= 0.0 { MulAtMost(s, 0.0, d); }
    }
  }

  lemma CoverageIs(p: StockoutInput, s: real, c: real)
    requires MissingPart(p, s) && UncoveredPart(p, c)
    ensures CoverageRisk(p.daysOfCover, MaxI(1, p.leadTimeDays + p.safetyDays), s) == c
  {
    ShortageIs(p, s);
    if p.daysOfCover.Some? {
      var days := (if p.leadTimeDays + p.safetyDays > 1 then p.leadTimeDays + p.safetyDays else 1) as real;
      var cover := p.daysOfCover.value;
      var q := cover / days;
      assert q * days == cover;
      if cover >= days {
        if q < 1.0 { MulOrder(q, 1.0, days); }
      } else {
        Quotient(cover, days, 1.0 - c);
        if c < 0.0 { MulOrder(c, 0.0, days); }
      }
    }
  }

  /** The stock-out score: half the missing part, 35 hundredths of the uncovered part and 15 of a rising trend, to the
      nearest whole number; raised to a threshold where much of the reorder point is missing; all of it when nothing is
      left. */
  lemma StockoutScoreIs(p: StockoutInput, s: real, c: real, t: real, points: int)
    requires MissingPart(p, s) && UncoveredPart(p, c) && Held(p.trendRatio - 1.0, t)
    requires Nearest(50.0 * s + 35.0 * c + 15.0 * t, points)
    ensures p.available <= 0 ==> StockoutScore(p) == 100 && StockoutSeverity(p) == Critical
    ensures p.available > 0 ==>
      var raised := if p.available <= p.reorderPoint && LeastScore(p) > points then LeastScore(p) else points;
      && StockoutScore(p) == (if raised < 0 then 0 else if raised > 100 then 100 else raised)
      && StockoutSeverity(p) == SeverityOf(StockoutScore(p), p.thresholds)
  {
    ShortageIs(p, s);
    CoverageIs(p, s, c);
    assert 100.0 * (0.5 * s + 0.35 * c + 0.15 * t) == 50.0 * s + 35.0 * c + 15.0 * t;
    assert TrendRisk(p.trendRatio) == t;
    RoundIs(50.0 * s + 35.0 * c + 15.0 * t, points);
    assert StockoutPoints(s, c, t) == points;
    if 0 < p.available <= p.reorderPoint {
      ShortageTenths(p.available, p.reorderPoint, 3);
      ShortageTenths(p.available, p.reorderPoint, 7);
      assert StockoutFloor(s, p.thresholds) == LeastScore(p);
    }
    hide Shortage, CoverageRisk, TrendRisk, StockoutPoints, StockoutFloor, MissingPart, UncoveredPart, SeverityOf;
  }

  // ---- Overstock -----------------------------------------------------------------------------------------

  /** The units above the maximum as a multiple of it, and that multiple x as the part x / (x + 1/2). */
  predicate ExcessPart(p: OverstockInput, x: real, a: real) {
    && (if p.maxStockLevel > 0 && p.available > p.maxStockLevel
        then x * p.maxStockLevel as real == (p.available - p.maxStockLevel) as real else x == 0.0)
    && a * (x + 0.5) == x
  }

  /** The demand a day that the stock and its cover imply. */
  predicate ImpliedDemand(p: OverstockInput, d: real) {
    if p.daysOfCover.Some? && p.daysOfCover.value > 0.0
    then d * p.daysOfCover.value == p.available as real else d == 0.0
  }

  function TargetDays(p: OverstockInput): int { if p.targetCoverageDays > 1 then p.targetCoverageDays else 1 }

  /** Cover counts beyond its target, for stock above the replenishment level, if a unit or more lies beyond the target
      days of a demand that is known. */
  predicate BeyondCounts(p: OverstockInput, d: real) {
    && p.daysOfCover.Some? && d > 0.0 && p.daysOfCover.value > TargetDays(p) as real
    && p.available > p.replenishmentLevel && p.available > 0
    && p.available as real - d * TargetDays(p) as real >= 1.0
  }

  /** The cover beyond the target as a multiple y of the target, and that as the part y / (y + 2). */
  predicate CoverPart(p: OverstockInput, d: real, y: real, b: real) {
    if BeyondCounts(p, d)
    then (y + 1.0) * TargetDays(p) as real == p.daysOfCover.value && b * (y + 2.0) == y
    else y == 0.0 && b == 0.0
  }

  lemma DemandIs(p: OverstockInput, d: real)
    requires ImpliedDemand(p, d)
    ensures Demand(p) == d
  {
    if p.daysOfCover.Some? && p.daysOfCover.value > 0.0 { Quotient(p.available as real, p.daysOfCover.value, d); }
  }

  lemma SaturateIs(x: real, half: real, a: real)
    requires half > 0.0 && x >= 0.0 && a * (x + half) == x
    ensures Saturate(x, half) == a
  {
    Quotient(x, x + half, a);
  }

  lemma HalfOf(x: real, max: int, excess: int)
    requires max > 0 && x * max as real == excess as real
    ensures x >= 0.5 <==> max <= 2 * excess
  {
    if x >= 0.5 { MulAtMost(0.5, x, max as real); } else { MulOrder(x, 0.5, max as real); }
    assert 2.0 * (0.5 * max as real) == max as real && 2.0 * excess as real == (2 * excess) as real;
  }

  lemma ExcessIs(p: OverstockInput, x: real, a: real)
    requires ExcessPart(p, x, a)
    ensures QtyExcess(p) == x >= 0.0 && Saturate(QtyExcess(p), 0.5) == a
    ensures UnitsAboveMax(p) > 0 <==> p.maxStockLevel > 0 && p.available > p.maxStockLevel
    ensures UnitsAboveMax(p) > 0 ==> (x >= 0.5 <==> 2 * p.available >= 3 * p.maxStockLevel)
  {
    if p.maxStockLevel > 0 && p.available > p.maxStockLevel {
      var max := p.maxStockLevel as real;
      Quotient((p.available - p.maxStockLevel) as real, max, x);
      if x < 0.0 { MulOrder(x, 0.0, max); }
      HalfOf(x, p.maxStockLevel, p.available - p.maxStockLevel);
    } else if p.maxStockLevel > 0 {
      Quotient(0.0, p.maxStockLevel as real, 0.0);
    }
    SaturateIs(x, 0.5, a);
  }

  lemma CountsIs(p: OverstockInput, d: real)
    requires ImpliedDemand(p, d)
    ensures BeyondCounts(p, d) <==> CoverCounts(p)
  {
    DemandIs(p, d);
    if CoverCounts(p) { BeyondIs(p); }
    assert Target(p) == TargetDays(p) && Beyond(p) == p.available as real - d * TargetDays(p) as real;
    hide Demand, Beyond, ImpliedDemand;
  }

  lemma CoverIs(p: OverstockInput, d: real, y: real, b: real)
    requires ImpliedDemand(p, d) && CoverPart(p, d, y, b)
    ensures CoverExcess(p) == b
  {
    CountsIs(p, d);
    CoverExcessIs(p);
    assert Target(p) == TargetDays(p) && TargetDays(p) >= 1;
    if BeyondCounts(p, d) {
      var cover := p.daysOfCover.value;
      assert cover > TargetDays(p) as real;
      hide Saturate, BeyondCounts, CoverCounts, CoverExcess, ImpliedDemand, Target, TargetDays;
      MultipleIs(cover, TargetDays(p) as real, y);
      SaturateIs(y, 2.0, b);
    }
  }

  lemma MultipleIs(cover: real, target: real, y: real)
    requires cover > target > 0.0 && (y + 1.0) * target == cover
    ensures cover / target - 1.0 == y >= 0.0
  {
    Quotient(cover, target, y + 1.0);
    if y < 0.0 { MulOrder(y + 1.0, 1.0, target); }
  }

  /** The overstock score: both parts combined, raised by up to a quarter where sales fall from a demand of 5 a week, to
      the nearest whole number and at most 100; and at least low above the maximum, high from half above it on. */
  lemma OverstockScoreIs(p: OverstockInput, x: real, a: real, d: real, y: real, b: real, f: real, points: int)
    requires ExcessPart(p, x, a) && ImpliedDemand(p, d) && CoverPart(p, d, y, b)
    requires if a + b - a * b > 0.0 && 7.0 * d >= 5.0 then Held(1.0 - p.trendRatio, f) else f == 0.0
    requires Nearest(100.0 * (a + b - a * b) * (1.0 + f / 4.0), points)
    ensures var capped := if points > 100 then 100 else points;
      var least := if 2 * p.available >= 3 * p.maxStockLevel then p.thresholds.high else p.thresholds.low;
      OverstockScore(p) ==
        if p.maxStockLevel > 0 && p.available > p.maxStockLevel && least > capped then least else capped
  {
    ExcessIs(p, x, a);
    DemandIs(p, d);
    CoverIs(p, d, y, b);
    hide Saturate, QtyExcess, UnitsAboveMax, Demand, CoverExcess, ExcessPart, ImpliedDemand, CoverPart, OverstockPoints,
         DeclineRisk, Nearest, Combined;
    PointsAre(p, a, b, d, f, points);
  }

  lemma PointsAre(p: OverstockInput, a: real, b: real, d: real, f: real, points: int)
    requires if a + b - a * b > 0.0 && 7.0 * d >= 5.0 then Held(1.0 - p.trendRatio, f) else f == 0.0
    requires Nearest(100.0 * (a + b - a * b) * (1.0 + f / 4.0), points)
    ensures var e := Combined(a, b);
      OverstockPoints(e, DeclineRisk(e, d * 7.0, p.trendRatio)) == if points > 100 then 100 else points
  {
    CombinedIs(a, b);
    var e := Combined(a, b);
    hide Combined;
    assert DeclineRisk(e, d * 7.0, p.trendRatio) == f;
    assert 1.0 + 0.25 * f == 1.0 + f / 4.0;
    RoundIs(100.0 * e * (1.0 + f / 4.0), points);
  }

  lemma CombinedIs(a: real, b: real)
    ensures Combined(a, b) == a + b - a * b
  {}
}

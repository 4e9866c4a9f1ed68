/** Stock-out and overstock scores and the reorder quantity, over exact reals. */
module Risk {
  import opened Options

  datatype Severity = Low | Medium | High | Critical
  datatype Thresholds = Thresholds(low: int, high: int, critical: int)

  predicate Rising(t: Thresholds) { 0 <= t.low < t.high < t.critical <= 100 }

  function MaxR(a: real, b: real): real { if a >= b then a else b }
  function MinR(a: real, b: real): real { if a <= b then a else b }
  function MaxI(a: int, b: int): int { if a >= b then a else b }
  function MinI(a: int, b: int): int { if a <= b then a else b }

  /** Math.round and Math.ceil. */
  function Round(x: real): int { (x + 0.5).Floor }
  function Ceil(x: real): int { -((-x).Floor) }

  function SeverityOf(score: int, t: Thresholds): Severity {
    if score >= t.critical then Critical else if score >= t.high then High else if score >= t.low then Medium else Low
  }

  // ---- Stock-out -----------------------------------------------------------------------------------------

  datatype StockoutInput = StockoutInput(available: int, reorderPoint: int, daysOfCover: Option<real>,
      leadTimeDays: int, safetyDays: int, trendRatio: real, thresholds: Thresholds)

  function Shortage(available: int, reorderPoint: int): real {
    MaxI(0, reorderPoint - available) as real / MaxI(reorderPoint, 1) as real
  }

  function CoverageRisk(daysOfCover: Option<real>, required: int, shortage: real): real
    requires required >= 1
  {
    if daysOfCover.Some? then MaxR(0.0, 1.0 - daysOfCover.value / required as real) else if shortage > 0.0 then 0.7
      else 0.0
  }

  function TrendRisk(trendRatio: real): real { MinR(MaxR((trendRatio - 1.0) / 1.0, 0.0), 1.0) }

  function StockoutPoints(shortage: real, coverage: real, trend: real): int {
    Round(100.0 * (0.5 * shortage + 0.35 * coverage + 0.15 * trend))
  }

  function StockoutFloor(shortage: real, t: Thresholds): int {
    if shortage >= 0.7 then t.critical else if shortage >= 0.3 then t.high else t.low
  }

  function StockoutScore(p: StockoutInput): int {
    if p.available <= 0 then 100 else
    var shortage := Shortage(p.available, p.reorderPoint);
    var coverage := CoverageRisk(p.daysOfCover, MaxI(1, p.leadTimeDays + p.safetyDays), shortage);
    var points := StockoutPoints(shortage, coverage, TrendRisk(p.trendRatio));
    var raised :=
      if p.available <= p.reorderPoint && p.reorderPoint > 0 then MaxI(points, StockoutFloor(shortage, p.thresholds))
      else points;
    MinI(100, MaxI(0, raised))
  }

  function StockoutSeverity(p: StockoutInput): Severity {
    if p.available <= 0 then Critical else SeverityOf(StockoutScore(p), p.thresholds)
  }

  lemma DivMonotone(a: real, b: real, d: real)
    requires a <= b && d > 0.0
    ensures a / d <= b / d
  {}

  lemma RoundMonotone(a: real, b: real)
    requires a <= b
    ensures Round(a) <= Round(b)
  {}

  predicate NothingMissing(p: StockoutInput) {
    p.available > p.reorderPoint && p.trendRatio <= 1.0
      && (p.daysOfCover.Some? ==> p.daysOfCover.value >= MaxI(1, p.leadTimeDays + p.safetyDays) as real)
  }

  lemma CoverageRiskIs(p: StockoutInput, required: int, shortage: real)
    requires required >= 1 && (p.daysOfCover.Some? ==> p.daysOfCover.value >= 0.0)
    ensures 0.0 <= CoverageRisk(p.daysOfCover, required, shortage) <= 1.0
    ensures p.daysOfCover.Some? && p.daysOfCover.value >= required as real ==>
      CoverageRisk(p.daysOfCover, required, shortage) == 0.0
  {
    if p.daysOfCover.Some? {
      DivMonotone(0.0, p.daysOfCover.value, required as real);
      if p.daysOfCover.value >= required as real {
        DivMonotone(required as real, p.daysOfCover.value, required as real);
      }
    }
  }

  /** How many tenths of the reorder point are missing. */
  lemma ShortageTenths(available: int, reorderPoint: int, tenths: int)
    requires 0 < available <= reorderPoint && tenths > 0
    ensures Shortage(available, reorderPoint) >= tenths as real / 10.0 <==>
      10 * (reorderPoint - available) >= tenths * reorderPoint
  {
    var s, n, d := Shortage(available, reorderPoint), (reorderPoint - available) as real, reorderPoint as real;
    assert s * d == n;
    var share := tenths as real / 10.0;
    if s >= share { MulAtMost(share, s, d); } else { MulOrder(s, share, d); }
    assert 10.0 * (share * d) == tenths as real * d == (tenths * reorderPoint) as real;
  }

  lemma MulOrder(a: real, b: real, d: real)
    requires a < b && d > 0.0
    ensures a * d < b * d
  {}

  lemma MulAtMost(a: real, b: real, d: real)
    requires a <= b && d >= 0.0
    ensures a * d <= b * d
  {}

  lemma StockoutFloors(p: StockoutInput)
    requires Rising(p.thresholds) && 0 < p.available <= p.reorderPoint
    ensures StockoutScore(p) >= p.thresholds.low
    ensures 10 * (p.reorderPoint - p.available) >= 3 * p.reorderPoint ==> StockoutScore(p) >= p.thresholds.high
    ensures 10 * (p.reorderPoint - p.available) >= 7 * p.reorderPoint ==> StockoutScore(p) >= p.thresholds.critical
  {
    ShortageTenths(p.available, p.reorderPoint, 3);
    ShortageTenths(p.available, p.reorderPoint, 7);
    hide Shortage, CoverageRisk, TrendRisk, StockoutPoints;
  }

  lemma StockoutAboveReorder(p: StockoutInput)
    requires p.available > 0 && p.available > p.reorderPoint && (p.daysOfCover.Some? ==> p.daysOfCover.value >= 0.0)
    ensures StockoutScore(p) <= 50 && (NothingMissing(p) ==> StockoutScore(p) == 0)
  {
    var required := MaxI(1, p.leadTimeDays + p.safetyDays);
    CoverageRiskIs(p, required, 0.0);
    var coverage, trend := CoverageRisk(p.daysOfCover, required, 0.0), TrendRisk(p.trendRatio);
    assert Shortage(p.available, p.reorderPoint) == 0.0;
    RoundMonotone(100.0 * (0.5 * 0.0 + 0.35 * coverage + 0.15 * trend), 50.0);
    RoundMonotone(0.0, 100.0 * (0.5 * 0.0 + 0.35 * coverage + 0.15 * trend));
  }

  /** The score is in [0, 100] and the severity is its place among the thresholds; nothing available is critical; stock
      at or below the reorder point is at least low, high when 3 tenths of it are missing and critical when 7 are; above
      it the score is at most 50, and zero when nothing is missing. */
  method CalculateStockoutRisk(p: StockoutInput) returns (score: int, severity: Severity)
    ensures score == StockoutScore(p) && severity == StockoutSeverity(p)
    ensures 0 <= score <= 100
    ensures p.available <= 0 ==> score == 100 && severity == Critical
    ensures Rising(p.thresholds) ==>
      (severity == Critical <==> score >= p.thresholds.critical) && (severity == Low <==> score < p.thresholds.low)
      && (severity in {High, Critical} <==> score >= p.thresholds.high)
    ensures Rising(p.thresholds) && 0 < p.available <= p.reorderPoint ==>
      && score >= p.thresholds.low
      && (10 * (p.reorderPoint - p.available) >= 3 * p.reorderPoint ==> score >= p.thresholds.high)
      && (10 * (p.reorderPoint - p.available) >= 7 * p.reorderPoint ==> score >= p.thresholds.critical)
    ensures p.available > 0 && p.available > p.reorderPoint && (p.daysOfCover.Some? ==> p.daysOfCover.value >= 0.0) ==>
      score <= 50 && (NothingMissing(p) ==> score == 0)
  {
    if Rising(p.thresholds) && 0 < p.available <= p.reorderPoint { StockoutFloors(p); }
    if p.available > 0 && p.available > p.reorderPoint && (p.daysOfCover.Some? ==> p.daysOfCover.value >= 0.0) {
      StockoutAboveReorder(p);
    }
    hide NothingMissing, CoverageRisk, TrendRisk, StockoutPoints;
    if p.available <= 0 { return 100, Critical; }
    var shortage := MaxI(0, p.reorderPoint - p.available) as real / MaxI(p.reorderPoint, 1) as real;
    var coverage := CoverageRisk(p.daysOfCover, MaxI(1, p.leadTimeDays + p.safetyDays), shortage);
    var weighted := StockoutPoints(shortage, coverage, TrendRisk(p.trendRatio));
    if p.available <= p.reorderPoint && p.reorderPoint > 0 {
      weighted := MaxI(weighted, StockoutFloor(shortage, p.thresholds));
    }
    score := MinI(100, MaxI(0, weighted));
    severity := Low;
    if score >= p.thresholds.critical { severity := Critical; }
    else if score >= p.thresholds.high { severity := High; }
    else if score >= p.thresholds.low { severity := Medium; }
  }

  lemma ShortageAntitone(a: int, b: int, reorderPoint: int)
    requires a <= b
    ensures 0.0 <= Shortage(b, reorderPoint) <= Shortage(a, reorderPoint)
    ensures a > reorderPoint ==> Shortage(a, reorderPoint) == 0.0
  {
    DivMonotone(MaxI(0, reorderPoint - b) as real, MaxI(0, reorderPoint - a) as real, MaxI(reorderPoint, 1) as real);
    DivMonotone(0.0, MaxI(0, reorderPoint - b) as real, MaxI(reorderPoint, 1) as real);
  }

  lemma CoverageAntitone(a: Option<real>, b: Option<real>, required: int, shortageA: real, shortageB: real)
    requires required >= 1 && a.Some? == b.Some? && (a.Some? ==> a.value <= b.value) && shortageB <= shortageA
    ensures 0.0 <= CoverageRisk(b, required, shortageB) <= CoverageRisk(a, required, shortageA)
  {
    if a.Some? { DivMonotone(a.value, b.value, required as real); }
  }

  /** More stock, and cover that does not fall with it, never raises the stock-out score, which stays in [0, 100]. */
  lemma StockoutAntitone(p: StockoutInput, q: StockoutInput)
    requires Rising(p.thresholds) && p.available <= q.available
      && q == p.(available := q.available, daysOfCover := q.daysOfCover)
    requires p.daysOfCover.Some? == q.daysOfCover.Some?
      && (p.daysOfCover.Some? ==> p.daysOfCover.value <= q.daysOfCover.value)
    ensures 0 <= StockoutScore(q) <= StockoutScore(p) <= 100
  {
    hide Shortage, CoverageRisk, Round, TrendRisk;
    var a, b := Shortage(p.available, p.reorderPoint), Shortage(q.available, p.reorderPoint);
    var required := MaxI(1, p.leadTimeDays + p.safetyDays);
    ShortageAntitone(p.available, q.available, p.reorderPoint);
    CoverageAntitone(p.daysOfCover, q.daysOfCover, required, a, b);
    var trend := TrendRisk(p.trendRatio);
    RoundMonotone(100.0 * (0.5 * b + 0.35 * CoverageRisk(q.daysOfCover, required, b) + 0.15 * trend),
                  100.0 * (0.5 * a + 0.35 * CoverageRisk(p.daysOfCover, required, a) + 0.15 * trend));
  }

  // ---- Overstock -------------------------------------------------------------------------------------------

  datatype OverstockInput = OverstockInput(available: int, maxStockLevel: int, daysOfCover: Option<real>,
      targetCoverageDays: int, trendRatio: real, thresholds: Thresholds, replenishmentLevel: int)

  /** x / (x + k) for an excess, nothing otherwise. */
  function Saturate(x: real, half: real): real
    requires half > 0.0
  {
    if x > 0.0 then x / (x + half) else 0.0
  }

  function UnitsAboveMax(p: OverstockInput): int {
    if p.maxStockLevel > 0 then MaxI(0, p.available - p.maxStockLevel) else 0
  }

  function QtyExcess(p: OverstockInput): real {
    if p.maxStockLevel > 0 then UnitsAboveMax(p) as real / p.maxStockLevel as real else 0.0
  }

  function Demand(p: OverstockInput): real {
    if p.daysOfCover.Some? && p.daysOfCover.value > 0.0 then p.available as real / p.daysOfCover.value else 0.0
  }

  function Target(p: OverstockInput): int { MaxI(p.targetCoverageDays, 1) }

  /** The coverage part, when cover beyond the target counts. */
  function CoverExcess(p: OverstockInput): real {
    if p.daysOfCover.None? || Demand(p) <= 0.0 then 0.0 else
    var multiple := p.daysOfCover.value / Target(p) as real;
    var beyond := MaxI(0, (p.available as real - Demand(p) * Target(p) as real).Floor);
    if multiple > 1.0 && p.available > MaxI(0, p.replenishmentLevel) && beyond >= 1 then Saturate(multiple - 1.0, 2.0)
      else 0.0
  }

  function Combined(a: real, b: real): real { 1.0 - (1.0 - a) * (1.0 - b) }

  function DeclineRisk(excess: real, weekly: real, trendRatio: real): real {
    if excess > 0.0 && weekly >= 5.0 then MinR(MaxR(1.0 - trendRatio, 0.0), 1.0) else 0.0
  }

  function OverstockPoints(excess: real, decline: real): int {
    MinI(100, Round(100.0 * excess * (1.0 + 0.25 * decline)))
  }

  function OverstockScore(p: OverstockInput): int {
    var excess := Combined(Saturate(QtyExcess(p), 0.5), CoverExcess(p));
    var points := OverstockPoints(excess, DeclineRisk(excess, Demand(p) * 7.0, p.trendRatio));
    if UnitsAboveMax(p) > 0 then MaxI(points, if QtyExcess(p) >= 0.5 then p.thresholds.high else p.thresholds.low)
      else points
  }

  lemma MulPositive(a: real, b: real)
    requires a >= 0.0 && b >= 0.0
    ensures a * b >= 0.0
  {}

  lemma SaturateMonotone(x: real, y: real, half: real)
    requires x <= y && half > 0.0
    ensures 0.0 <= Saturate(x, half) <= Saturate(y, half) < 1.0
  {
    if y > 0.0 {
      Fraction(y, half);
      if x > 0.0 { FractionMonotone(x, y, half); }
    }
  }

  lemma AtMostQuotient(q: real, n: real, d: real)
    requires d > 0.0 && q * d <= n
    ensures q <= n / d
  {
    var r := n / d;
    assert r * d == n;
    if r < q { MulOrder(r, q, d); }
  }

  lemma AtLeastQuotient(q: real, n: real, d: real)
    requires d > 0.0 && 0.0 < n <= q * d
    ensures 0.0 < n / d <= q
  {
    var r := n / d;
    assert r * d == n;
    if r > q { MulOrder(q, r, d); }
    if r <= 0.0 { MulPositive(-r, d); }
  }

  lemma LargerDivisor(n: real, a: real, b: real)
    requires n >= 0.0 && 0.0 < a <= b
    ensures 0.0 <= n / b <= n / a
  {
    DivMonotone(0.0, n, b);
    var h := n / b;
    assert h * b == n;
    MulPositive(h, b - a);
    assert h * b == h * a + h * (b - a);
    AtMostQuotient(h, n, a);
  }

  lemma Fraction(x: real, half: real)
    requires x > 0.0 && half > 0.0
    ensures x / (x + half) == 1.0 - half / (x + half)
    ensures 0.0 <= x / (x + half) < 1.0
  {
    var d := x + half;
    var g := half / d;
    assert g * d == half;
    assert d * (1.0 - g) == d - g * d;
    QuotientIs(x, d, 1.0 - g);
    DivMonotone(0.0, x, d);
    if g <= 0.0 { MulPositive(-g, d); }
  }

  lemma FractionMonotone(x: real, y: real, half: real)
    requires 0.0 < x <= y && half > 0.0
    ensures x / (x + half) <= y / (y + half)
  {
    Fraction(x, half);
    Fraction(y, half);
    LargerDivisor(half, x + half, y + half);
  }

  lemma CombinedMonotone(a: real, b: real, a': real, b': real)
    requires 0.0 <= a <= a' < 1.0 && 0.0 <= b <= b' < 1.0
    ensures 0.0 <= Combined(a, b) <= Combined(a', b') <= 1.0
  {
    MulPositive(a' - a, 1.0 - b);
    MulPositive(1.0 - a', b' - b);
    MulPositive(1.0 - a', 1.0 - b');
    MulPositive(a, 1.0 - b);
    assert (1.0 - a) * (1.0 - b) == (1.0 - a') * (1.0 - b) + (a' - a) * (1.0 - b);
    assert (1.0 - a') * (1.0 - b) == (1.0 - a') * (1.0 - b') + (1.0 - a') * (b' - b);
    assert (1.0 - a) * (1.0 - b) == (1.0 - b) - a * (1.0 - b);
  }

  lemma QuotientIs(n: real, d: real, q: real)
    requires d > 0.0 && d * q == n
    ensures n / d == q
  {
    var r := n / d;
    assert r * d == n;
    assert (r - q) * d == 0.0;
  }

  /** More stock of the same SKU, and cover that does not fall with it. */
  predicate MoreStock(p: OverstockInput, q: OverstockInput) {
    && p.available <= q.available && q == p.(available := q.available, daysOfCover := q.daysOfCover)
    && p.daysOfCover.Some? == q.daysOfCover.Some?
      && (p.daysOfCover.Some? ==> p.daysOfCover.value <= q.daysOfCover.value)
  }

  function Beyond(p: OverstockInput): real { p.available as real - Demand(p) * Target(p) as real }

  /** Where cover exceeds the target, the units beyond it are a share of the stock that grows with cover. */
  lemma BeyondIs(p: OverstockInput)
    requires p.available > 0 && p.daysOfCover.Some? && p.daysOfCover.value > Target(p) as real
    ensures Demand(p) > 0.0 && Beyond(p) == p.available as real * (1.0 - Target(p) as real / p.daysOfCover.value)
    ensures 0.0 < Target(p) as real / p.daysOfCover.value < 1.0
  {
    var a, c, target := p.available as real, p.daysOfCover.value, Target(p) as real;
    var d, share := a / c, target / c;
    assert d * c == a && share * c == target;
    if d <= 0.0 { MulPositive(-d, c); }
    if share >= 1.0 { MulAtMost(1.0, share, c); }
    if share <= 0.0 { MulPositive(-share, c); }
    assert d * target == d * (share * c) == (d * c) * share;
  }

  lemma CoverMultiple(p: OverstockInput)
    requires p.daysOfCover.Some?
    ensures p.daysOfCover.value / Target(p) as real > 1.0 <==> p.daysOfCover.value > Target(p) as real
  {
    var c, target := p.daysOfCover.value, Target(p) as real;
    var m := c / target;
    assert m * target == c;
    if m > 1.0 { MulOrder(1.0, m, target); } else { MulAtMost(m, 1.0, target); }
  }

  predicate CoverCounts(p: OverstockInput) {
    p.daysOfCover.Some? && p.daysOfCover.value > Target(p) as real && p.available > MaxI(0, p.replenishmentLevel)
      && Beyond(p) >= 1.0
  }

  lemma CoverExcessIs(p: OverstockInput)
    ensures CoverExcess(p) == if CoverCounts(p) then Saturate(p.daysOfCover.value / Target(p) as real - 1.0, 2.0)
      else 0.0
  {
    hide Saturate, Demand;
    if p.daysOfCover.Some? {
      CoverMultiple(p);
      if CoverCounts(p) { BeyondIs(p); }
    }
  }

  lemma ProductGrows(a: real, b: real, x: real, y: real)
    requires 0.0 <= a <= b && 0.0 <= x <= y
    ensures a * x <= b * y
  {
    MulAtMost(a, b, x);
    MulAtMost(x, y, b);
  }

  lemma CoverCountsStays(p: OverstockInput, q: OverstockInput)
    requires MoreStock(p, q) && CoverCounts(p)
    ensures CoverCounts(q)
  {
    BeyondIs(p);
    BeyondIs(q);
    hide Beyond;
    var target, c, d := Target(p) as real, p.daysOfCover.value, q.daysOfCover.value;
    LargerDivisor(target, c, d);
    ProductGrows(p.available as real, q.available as real, 1.0 - target / c, 1.0 - target / d);
  }

  lemma CountedCover(p: OverstockInput)
    requires CoverCounts(p)
    ensures p.daysOfCover.Some?
  {}

  lemma CoverExcessMonotone(p: OverstockInput, q: OverstockInput)
    requires MoreStock(p, q)
    ensures 0.0 <= CoverExcess(p) <= CoverExcess(q) < 1.0
  {
    hide Saturate, CoverExcess, CoverCounts;
    CoverExcessIs(p);
    CoverExcessIs(q);
    if CoverCounts(p) { CoverCountsStays(p, q); }
    if CoverCounts(q) {
      CountedCover(q);
      var target := Target(p) as real;
      DivMonotone(p.daysOfCover.value, q.daysOfCover.value, target);
      SaturateMonotone(p.daysOfCover.value / target - 1.0, q.daysOfCover.value / target - 1.0, 2.0);
    }
  }

  lemma QtyExcessMonotone(p: OverstockInput, q: OverstockInput)
    requires p.available <= q.available && q == p.(available := q.available, daysOfCover := q.daysOfCover)
    ensures UnitsAboveMax(p) <= UnitsAboveMax(q) && 0.0 <= QtyExcess(p) <= QtyExcess(q)
  {
    if p.maxStockLevel > 0 {
      DivMonotone(UnitsAboveMax(p) as real, UnitsAboveMax(q) as real, p.maxStockLevel as real);
      DivMonotone(0.0, UnitsAboveMax(p) as real, p.maxStockLevel as real);
    }
  }

  lemma PointsMonotone(x: real, y: real, d: real, e: real)
    requires 0.0 <= x <= y && 0.0 <= d <= e
    ensures 0 <= OverstockPoints(x, d) <= OverstockPoints(y, e) <= 100
  {
    MulPositive(y - x, 1.0 + 0.25 * e);
    MulPositive(x, 0.25 * (e - d));
    MulPositive(x, 1.0 + 0.25 * d);
    assert 100.0 * y * (1.0 + 0.25 * e) - 100.0 * x * (1.0 + 0.25 * d)
      == 100.0 * ((y - x) * (1.0 + 0.25 * e)) + 100.0 * (x * (0.25 * (e - d)));
    RoundMonotone(100.0 * x * (1.0 + 0.25 * d), 100.0 * y * (1.0 + 0.25 * e));
    RoundMonotone(0.0, 100.0 * x * (1.0 + 0.25 * d));
  }

  function Excess(p: OverstockInput): real { Combined(Saturate(QtyExcess(p), 0.5), CoverExcess(p)) }

  lemma ExcessMonotone(p: OverstockInput, q: OverstockInput)
    requires MoreStock(p, q)
    ensures 0.0 <= Excess(p) <= Excess(q) <= 1.0
  {
    hide Saturate, CoverExcess, Combined, QtyExcess;
    QtyExcessMonotone(p, q);
    CoverExcessMonotone(p, q);
    SaturateMonotone(QtyExcess(p), QtyExcess(q), 0.5);
    CombinedMonotone(Saturate(QtyExcess(p), 0.5), CoverExcess(p), Saturate(QtyExcess(q), 0.5), CoverExcess(q));
  }

  /** The recent window expects enough units for a falling trend to count. */
  predicate Expecting(p: OverstockInput) { Demand(p) * 7.0 >= 5.0 }

  /** More stock of a SKU, with cover that does not fall, never lowers the overstock score, which stays in [0, 100],
      unless sales fall and the implied demand drops below the number of units from which a fall counts. */
  lemma OverstockMonotone(p: OverstockInput, q: OverstockInput)
    requires Rising(p.thresholds) && MoreStock(p, q)
    requires p.trendRatio >= 1.0 || Excess(p) == 0.0 || (Expecting(p) ==> Expecting(q))
    ensures 0 <= OverstockScore(p) <= OverstockScore(q) <= 100
  {
    hide Saturate, CoverExcess, Combined, OverstockPoints, QtyExcess, Demand, UnitsAboveMax;
    QtyExcessMonotone(p, q);
    ExcessMonotone(p, q);
    var x, y := Excess(p), Excess(q);
    PointsMonotone(x, y, DeclineRisk(x, Demand(p) * 7.0, p.trendRatio), DeclineRisk(y, Demand(q) * 7.0, q.trendRatio));
  }

  predicate NothingInExcess(p: OverstockInput) {
    && (p.maxStockLevel <= 0 || p.available <= p.maxStockLevel)
    && (p.daysOfCover.None? || p.daysOfCover.value <= Target(p) as real || p.available <= MaxI(0, p.replenishmentLevel))
  }

  lemma NoExcess(p: OverstockInput)
    requires NothingInExcess(p)
    ensures Excess(p) == 0.0 && OverstockScore(p) == 0
  {
    CoverExcessIs(p);
    hide CoverExcess;
    assert QtyExcess(p) == 0.0;
  }

  lemma HalfAgain(p: OverstockInput)
    requires p.maxStockLevel > 0 && 2 * p.available >= 3 * p.maxStockLevel
    ensures QtyExcess(p) >= 0.5
  {
    AtMostQuotient(0.5, UnitsAboveMax(p) as real, p.maxStockLevel as real);
  }

  lemma OverstockFloors(p: OverstockInput)
    requires Rising(p.thresholds)
    ensures p.maxStockLevel > 0 && p.available > p.maxStockLevel ==> OverstockScore(p) >= p.thresholds.low
    ensures p.maxStockLevel > 0 && 2 * p.available >= 3 * p.maxStockLevel ==> OverstockScore(p) >= p.thresholds.high
  {
    if p.maxStockLevel > 0 && 2 * p.available >= 3 * p.maxStockLevel { HalfAgain(p); }
    hide QtyExcess, CoverExcess, Combined, OverstockPoints, Saturate;
  }

  /** The score is in [0, 100] and the severity is its place among the thresholds; stock above the maximum is at least
      low and half again over it at least high; without stock above the maximum, or cover above the target for more than
      the replenishment level, the score is zero. */
  method CalculateOverstockRisk(p: OverstockInput) returns (score: int, severity: Severity)
    ensures score == OverstockScore(p) && severity == SeverityOf(OverstockScore(p), p.thresholds)
    ensures Rising(p.thresholds) ==>
      && 0 <= score <= 100 && (severity == Critical <==> score >= p.thresholds.critical)
        && (severity == Low <==> score < p.thresholds.low)
      && (severity in {High, Critical} <==> score >= p.thresholds.high)
    ensures Rising(p.thresholds) && p.maxStockLevel > 0 ==>
      (p.available > p.maxStockLevel ==> score >= p.thresholds.low)
        && (2 * p.available >= 3 * p.maxStockLevel ==> score >= p.thresholds.high)
    ensures NothingInExcess(p) ==> score == 0
  {
    if Rising(p.thresholds) {
      OverstockMonotone(p, p);
      OverstockFloors(p);
    }
    if NothingInExcess(p) { NoExcess(p); }
    hide Saturate, CoverExcess, Combined, OverstockPoints, Demand;
    var unitsAboveMax := UnitsAboveMax(p);
    var excess := Combined(Saturate(QtyExcess(p), 0.5), CoverExcess(p));
    score := OverstockPoints(excess, DeclineRisk(excess, Demand(p) * 7.0, p.trendRatio));
    if unitsAboveMax > 0 {
      score := MaxI(score, if QtyExcess(p) >= 0.5 then p.thresholds.high else p.thresholds.low);
    }
    severity := Low;
    if score >= p.thresholds.critical { severity := Critical; }
    else if score >= p.thresholds.high { severity := High; }
    else if score >= p.thresholds.low { severity := Medium; }
  }

  // ---- Overstock with the cover the engine computes ---------------------------------------------------------

  /** Cover is exact: stock divided by a fixed daily demand; none when there is no demand. */
  predicate ExactCover(p: OverstockInput, demand: real) {
    if demand > 0.0 then p.daysOfCover == Some(p.available as real / demand) else p.daysOfCover.None?
  }

  lemma DemandIs(p: OverstockInput, demand: real)
    requires ExactCover(p, demand)
    ensures demand > 0.0 && p.available > 0 ==> p.daysOfCover.value > 0.0 && Demand(p) == demand
    ensures demand <= 0.0 || p.available <= 0 ==> Demand(p) == 0.0
  {
    if demand > 0.0 {
      var cover := p.daysOfCover.value;
      assert cover * demand == p.available as real;
      if p.available > 0 {
        if cover <= 0.0 { MulPositive(-cover, demand); }
        QuotientIs(p.available as real, cover, demand);
      } else {
        DivMonotone(p.available as real, 0.0, demand);
      }
    }
  }

  /** With cover that is not rounded, the implied demand does not change and the score never falls. */
  lemma ExactCoverMonotone(p: OverstockInput, q: OverstockInput, demand: real)
    requires Rising(p.thresholds) && p.available <= q.available
      && q == p.(available := q.available, daysOfCover := q.daysOfCover)
    requires ExactCover(p, demand) && ExactCover(q, demand)
    ensures 0 <= OverstockScore(p) <= OverstockScore(q) <= 100
  {
    hide OverstockScore, Demand, Excess;
    DemandIs(p, demand);
    DemandIs(q, demand);
    if demand > 0.0 { DivMonotone(p.available as real, q.available as real, demand); }
    OverstockMonotone(p, q);
  }

  /** toFixed(1). */
  function Tenth(x: real): real {
    if x >= 0.0 then (x * 10.0 + 0.5).Floor as real / 10.0 else -((-x * 10.0 + 0.5).Floor as real / 10.0)
  }

  /** The nearest tenth, halves away from zero. */
  lemma TenthIs(x: real, n: int)
    requires if x >= 0.0 then n as real - 0.5 <= 10.0 * x < n as real + 0.5
             else n as real - 0.5 < 10.0 * x <= n as real + 0.5
    ensures Tenth(x) == n as real / 10.0
  {
    if x >= 0.0 {
      assert (x * 10.0 + 0.5).Floor == n;
    } else {
      assert (-x * 10.0 + 0.5).Floor == -n;
    }
  }

  lemma TenthMonotone(x: real, y: real)
    requires x <= y
    ensures Tenth(x) <= Tenth(y)
  {
    var u, v := if x >= 0.0 then x else -x, if y >= 0.0 then y else -y;
    if u <= v { FloorMonotone(u * 10.0 + 0.5, v * 10.0 + 0.5); } else { FloorMonotone(v * 10.0 + 0.5, u * 10.0 + 0.5); }
    assert (u * 10.0 + 0.5).Floor >= 0 && (v * 10.0 + 0.5).Floor >= 0;
  }

  lemma FloorMonotone(x: real, y: real)
    requires x <= y
    ensures x.Floor <= y.Floor && x.Floor as real / 10.0 <= y.Floor as real / 10.0
  {}

  function CoverAt(stock: int, rate: real): Option<real> {
    if rate <= 0.0 then None else Some(Tenth(stock as real / rate))
  }

  /** The input the engine passes for a stock, everything else being as in `base`. */
  function At(base: OverstockInput, stock: int, rate: real): OverstockInput {
    base.(available := stock, daysOfCover := CoverAt(stock, rate))
  }

  function DemandAt(stock: int, rate: real): real {
    var cover := CoverAt(stock, rate);
    if cover.Some? && cover.value > 0.0 then stock as real / cover.value else 0.0
  }

  /** Cover is known exactly at a positive rate of sales: stock over rate to the nearest tenth; and the demand it
      implies is the stock over that cover. */
  lemma CoverAtIs(stock: int, rate: real, n: int)
    requires rate > 0.0 ==>
      var tenths := 10.0 * (stock as real / rate);
      if stock >= 0 then n as real - 0.5 <= tenths < n as real + 0.5 else n as real - 0.5 < tenths <= n as real + 0.5
    ensures CoverAt(stock, rate) == if rate > 0.0 then Some(n as real / 10.0) else None
    ensures DemandAt(stock, rate) == if rate > 0.0 && n > 0 then 10.0 * stock as real / n as real else 0.0
  {
    if rate > 0.0 {
      var days := stock as real / rate;
      assert days * rate == stock as real;
      if stock >= 0 { DivMonotone(0.0, stock as real, rate); } else { DivMonotone(stock as real, 0.0, rate); }
      if stock < 0 && days == 0.0 { assert false; }
      TenthIs(days, n);
      if n > 0 { TenTimes(stock as real, n as real); }
    }
  }

  lemma TenTimes(a: real, n: real)
    requires n > 0.0
    ensures a / (n / 10.0) == 10.0 * a / n
  {
    var q := 10.0 * a / n;
    assert q * n == 10.0 * a;
    assert n / 10.0 * q == a;
    QuotientIs(a, n / 10.0, q);
  }

  lemma MoreAt(base: OverstockInput, a: int, b: int, rate: real)
    requires a <= b
    ensures MoreStock(At(base, a, rate), At(base, b, rate))
    ensures Demand(At(base, a, rate)) == DemandAt(a, rate)
  {
    if rate > 0.0 {
      DivMonotone(a as real, b as real, rate);
      TenthMonotone(a as real / rate, b as real / rate);
    }
  }

  /** A single unit, or none, is never in excess. */
  lemma OneUnitFits(p: OverstockInput)
    requires p.available <= 1
    ensures Excess(p) == 0.0
  {
    CoverExcessIs(p);
    if CoverCounts(p) {
      BeyondIs(p);
    }
    hide CoverExcess, Beyond;
    assert QtyExcess(p) == 0.0;
  }

  /** Between the two stocks the rounding of the cover takes the implied weekly demand below 5 units. */
  predicate SwitchesOff(a: int, b: int, rate: real) {
    2 <= a <= b && DemandAt(a, rate) * 7.0 >= 5.0 > DemandAt(b, rate) * 7.0
  }

  lemma {:induction false} SwitchesOffNextTo(a: int, b: int, rate: real) returns (k: int)
    requires SwitchesOff(a, b, rate)
    ensures a <= k < b && SwitchesOff(k, k + 1, rate)
    decreases b - a
  {
    hide DemandAt;
    if DemandAt(a + 1, rate) * 7.0 < 5.0 { k := a; } else { k := SwitchesOffNextTo(a + 1, b, rate); }
  }

  /** A SKU with falling sales and a maximum of half its stock, which is also its replenishment level. */
  function Falling(stock: int): OverstockInput {
    OverstockInput(0, stock / 2, None, 30, 0.0, Thresholds(0, 1, 2), stock + 1)
  }

  lemma QtyShare(n: int, max: int)
    requires n > 0 && max > 0
    ensures Saturate(n as real / max as real, 0.5) == 2.0 * n as real / (2.0 * n as real + max as real)
  {
    var x, d := n as real / max as real, max as real;
    assert x * d == n as real;
    if x <= 0.0 { MulPositive(-x, d); }
    var r := x / (x + 0.5);
    assert r * (x + 0.5) == x;
    assert r * (x * d + 0.5 * d) == x * d;
    QuotientIs(2.0 * n as real, 2.0 * n as real + d, r);
  }

  /** Amplified, the excess of a stock at least twice the maximum scores 83 or more. */
  lemma ExcessAmplified(a: int)
    requires a >= 2
    ensures var x := 2.0 * (a - a / 2) as real / (2.0 * (a - a / 2) as real + (a / 2) as real);
      x > 0.0 && OverstockPoints(x, 1.0) >= (if a == 3 then 100 else 83)
  {
    var n, m := (a - a / 2) as real, (a / 2) as real;
    assert n >= m >= 1.0 && (a == 3 ==> n == 2.0 && m == 1.0);
    if a == 3 { AtMostQuotient(0.8, 4.0, 5.0); } else { AtMostQuotient(2.0 / 3.0, 2.0 * n, 2.0 * n + m); }
    var x := 2.0 * n / (2.0 * n + m);
    RoundMonotone(if a == 3 then 100.0 else 83.0, 100.0 * x * 1.25);
  }

  /** Not amplified, that of one unit more scores 86 at most, and 80 apart from three units. */
  lemma ExcessPlain(a: int)
    requires a >= 2
    ensures var y := 2.0 * (a + 1 - a / 2) as real / (2.0 * (a + 1 - a / 2) as real + (a / 2) as real);
      0.0 < y && OverstockPoints(y, 0.0) <= (if a == 3 then 86 else 80)
  {
    var n, m := (a + 1 - a / 2) as real, (a / 2) as real;
    assert n <= 2.0 * m || (n == 3.0 && m == 1.0);
    if a == 3 { AtLeastQuotient(6.0 / 7.0, 6.0, 7.0); } else { AtLeastQuotient(0.8, 2.0 * n, 2.0 * n + m); }
    RoundMonotone(100.0 * (2.0 * n / (2.0 * n + m)), if a == 3 then 600.0 / 7.0 else 80.0);
  }

  lemma FallingScores(a: int, rate: real)
    requires SwitchesOff(a, a + 1, rate)
    ensures OverstockScore(At(Falling(a), a + 1, rate)) < OverstockScore(At(Falling(a), a, rate))
  {
    var p, q := At(Falling(a), a, rate), At(Falling(a), a + 1, rate);
    MoreAt(Falling(a), a, a + 1, rate);
    MoreAt(Falling(a), a + 1, a + 1, rate);
    CoverExcessIs(p);
    CoverExcessIs(q);
    QtyShare(a - a / 2, a / 2);
    QtyShare(a + 1 - a / 2, a / 2);
    ExcessAmplified(a);
    ExcessPlain(a);
    hide Demand, CoverExcess, Saturate, OverstockPoints, DemandAt, CoverAt;
    assert Excess(p) == Saturate(QtyExcess(p), 0.5) && Excess(q) == Saturate(QtyExcess(q), 0.5);
  }

  /** Exactly then: at a rate of sales, with cover rounded to a tenth of a day, more stock never lowers the overstock
      score of any SKU if and only if the rounding never takes the implied weekly demand from 5 units or more to
      less. */
  lemma RoundedCoverMonotoneIff(rate: real)
    ensures (forall base: OverstockInput, a, b :: Rising(base.thresholds) && a <= b ==>
               OverstockScore(At(base, a, rate)) <= OverstockScore(At(base, b, rate)))
      <==> forall a, b :: !SwitchesOff(a, b, rate)
  {
    hide OverstockScore, SwitchesOff, Excess;
    if forall a, b :: !SwitchesOff(a, b, rate) {
      forall base: OverstockInput, a, b | Rising(base.thresholds) && a <= b
        ensures OverstockScore(At(base, a, rate)) <= OverstockScore(At(base, b, rate))
      {
        RoundedCoverMonotone(base, a, b, rate);
      }
    } else {
      var a, b :| SwitchesOff(a, b, rate);
      var k := SwitchesOffNextTo(a, b, rate);
      FallingScores(k, rate);
      assert Rising(Falling(k).thresholds);
    }
  }

  lemma RoundedCoverMonotone(base: OverstockInput, a: int, b: int, rate: real)
    requires Rising(base.thresholds) && a <= b && !SwitchesOff(a, b, rate)
    ensures OverstockScore(At(base, a, rate)) <= OverstockScore(At(base, b, rate))
  {
    hide OverstockScore, Demand, DemandAt, Excess;
    MoreAt(base, a, b, rate);
    MoreAt(base, b, b, rate);
    if a <= 1 { OneUnitFits(At(base, a, rate)); }
    OverstockMonotone(At(base, a, rate), At(base, b, rate));
  }

  /** It happens at 0.71 units a day and a target of 2 days: the sixth unit lowers the score from 69 to 62. */
  lemma SixthUnitLowersScore()
    ensures var base := OverstockInput(0, 0, None, 2, 0.0, Thresholds(30, 60, 80), 0);
      && CoverAt(5, 0.71) == Some(7.0) && CoverAt(6, 0.71) == Some(8.5)
      && OverstockScore(At(base, 5, 0.71)) == 69 && OverstockScore(At(base, 6, 0.71)) == 62 && SwitchesOff(5, 6, 0.71)
  {
    QuotientIs(5.0, 0.71, 500.0 / 71.0);
    QuotientIs(6.0, 0.71, 600.0 / 71.0);
    assert (5000.0 / 71.0 + 0.5).Floor == 70 && (6000.0 / 71.0 + 0.5).Floor == 85;
    SevenDays();
    EightAndAHalfDays();
  }

  lemma SevenDays()
    ensures OverstockScore(OverstockInput(5, 0, Some(7.0), 2, 0.0, Thresholds(30, 60, 80), 0)) == 69
  {
    var p := OverstockInput(5, 0, Some(7.0), 2, 0.0, Thresholds(30, 60, 80), 0);
    assert Demand(p) == 5.0 / 7.0 && Beyond(p) >= 1.0;
    CoverExcessIs(p);
    QuotientIs(2.5, 4.5, 5.0 / 9.0);
    hide CoverExcess, Demand, Beyond;
    assert CoverExcess(p) == 5.0 / 9.0 && Excess(p) == 5.0 / 9.0;
  }

  lemma EightAndAHalfDays()
    ensures OverstockScore(OverstockInput(6, 0, Some(8.5), 2, 0.0, Thresholds(30, 60, 80), 0)) == 62
  {
    var p := OverstockInput(6, 0, Some(8.5), 2, 0.0, Thresholds(30, 60, 80), 0);
    QuotientIs(6.0, 8.5, 12.0 / 17.0);
    assert Demand(p) == 12.0 / 17.0 && Beyond(p) >= 1.0;
    CoverExcessIs(p);
    QuotientIs(3.25, 5.25, 13.0 / 21.0);
    hide CoverExcess, Demand, Beyond;
    assert CoverExcess(p) == 13.0 / 21.0 && Excess(p) == 13.0 / 21.0;
  }

  // ---- Reorder ---------------------------------------------------------------------------------------------

  datatype ReorderInput = ReorderInput(available: int, reorderPoint: int, demand: real, leadTimeDays: int,
      targetCoverageDays: int, safetyStock: int, minStockLevel: int, maxStockLevel: int, sufficient: bool)

  function ReorderPoint(demand: real, leadTimeDays: int, safetyStock: int): int {
    Ceil(demand * MaxI(1, leadTimeDays) as real + safetyStock as real)
  }

  function TargetLevel(p: ReorderInput): real {
    p.demand * (MaxI(1, p.leadTimeDays) + p.targetCoverageDays) as real + p.safetyStock as real
  }

  function ReorderQuantity(p: ReorderInput): int {
    if p.available > p.reorderPoint then 0
    else if !p.sufficient then MaxI(0, (if p.maxStockLevel > 0 then p.maxStockLevel else p.minStockLevel) - p.available)
    else
      var wanted := MaxI(0, Ceil(TargetLevel(p) - p.available as real));
      if p.maxStockLevel > 0 then MinI(MaxI(0, p.maxStockLevel - p.available), wanted) else wanted
  }

  lemma CeilIs(x: real, n: int)
    ensures Ceil(x) as real >= x && Ceil(x) as real < x + 1.0
    ensures n as real >= x ==> n >= Ceil(x)
  {}

  /** When something is ordered, and how much: nothing above the reorder point; without sufficient history up to the
      configured maximum, or the minimum where there is none; else up to the target level, rounded up to whole units,
      but not past the maximum. */
  lemma ReorderQuantityIs(p: ReorderInput)
    ensures var q := ReorderQuantity(p);
      && q >= 0 && (p.available > p.reorderPoint ==> q == 0)
      && (p.available <= p.reorderPoint && !p.sufficient ==>
            var upTo := if p.maxStockLevel > 0 then p.maxStockLevel else p.minStockLevel;
            if upTo > p.available then p.available + q == upTo else q == 0)
      && (p.available <= p.reorderPoint && p.sufficient ==>
            var days := (if p.leadTimeDays > 1 then p.leadTimeDays else 1) + p.targetCoverageDays;
            var level := p.demand * days as real + p.safetyStock as real;
            if level <= p.available as real || (0 < p.maxStockLevel <= p.available) then q == 0
            else if p.maxStockLevel > 0 && level > p.maxStockLevel as real then p.available + q == p.maxStockLevel
            else level <= (p.available + q) as real < level + 1.0)
  {
    CeilIs(TargetLevel(p) - p.available as real, 0);
    CeilIs(TargetLevel(p) - p.available as real, p.maxStockLevel - p.available);
  }

  /** What an order lifts stock to: never above a configured maximum that stock is below; and when history is
      sufficient and the maximum does not bind, at least to the statistical reorder point and to within a unit of the
      target level. */
  lemma ReorderLifts(p: ReorderInput)
    requires p.demand >= 0.0 && p.targetCoverageDays >= 0
    ensures var q := ReorderQuantity(p);
      && q >= 0
      && (p.maxStockLevel > 0 && p.available <= p.maxStockLevel ==> p.available + q <= p.maxStockLevel)
      && (q > 0 && p.sufficient && (p.maxStockLevel <= 0 || q < p.maxStockLevel - p.available) ==>
            && p.available + q >= ReorderPoint(p.demand, p.leadTimeDays, p.safetyStock)
            && TargetLevel(p) <= (p.available + q) as real < TargetLevel(p) + 1.0)
  {
    var q := ReorderQuantity(p);
    var level := TargetLevel(p);
    CeilIs(level - p.available as real, 0);
    MulPositive(p.demand, p.targetCoverageDays as real);
    assert p.demand * (MaxI(1, p.leadTimeDays) + p.targetCoverageDays) as real
      == p.demand * MaxI(1, p.leadTimeDays) as real + p.demand * p.targetCoverageDays as real;
    CeilIs(p.demand * MaxI(1, p.leadTimeDays) as real + p.safetyStock as real, p.available + q);
  }
}

/** The assistant's ranking of next best actions. Scores are computed over exact reals; titles, reasons and the
    priority label are left out. */
module SuggestionRanking {
  import opened Options
  import Alerts

  datatype Kind = Reorder | AckAlert | ApprovePrice | RejectPrice
  datatype Severity = Critical | Warning | Info | OtherSeverity

  /** A suggestion with the SKU it is about, and for an alert its type; `targetId` is an alert, recommendation or stock
      item by kind. */
  datatype Scored = Scored(kind: Kind, targetId: int, stockItemId: int, score: int, alertType: Option<Alerts.AlertType>)

  datatype AlertCandidate = AlertCandidate(id: int, stockItemId: int, alertType: Alerts.AlertType,
      severity: Severity, riskScore: Option<real>, confidence: Option<real>, openedAt: int)
  datatype PricingCandidate = PricingCandidate(id: int, stockItemId: int, currentPrice: real,
      recommendedPrice: real, riskScore: Option<real>, confidence: Option<real>, createdAt: int)
  datatype ReorderCandidate = ReorderCandidate(stockItemId: int, available: int, daysOfCover: Option<real>,
      leadTimeDays: int, riskScore: Option<real>, confidence: Option<real>, openedAt: int)
  datatype Candidates = Candidates(alerts: seq<AlertCandidate>, pricing: seq<PricingCandidate>,
      reorder: seq<ReorderCandidate>)

  const MAX_SUGGESTIONS := 6
  const MAX_PER_KIND := 3
  const MAX_AGING_POINTS := 8
  const DAY_MS := 86_400_000

  // ---- Scores --------------------------------------------------------------------------------------

  function Clamp01(x: real): real { if x < 0.0 then 0.0 else if x > 1.0 then 1.0 else x }

  function Pct(value: Option<real>, fallback: real): real {
    match value case None => fallback case Some(v) => Clamp01(v / 100.0)
  }

  function Aging(since: int, now: int): int {
    var days := (now - since) / DAY_MS;
    if days < 0 then 0 else if days > MAX_AGING_POINTS then MAX_AGING_POINTS else days
  }

  /** Math.round: to the nearest integer, halves upwards. */
  function Round(x: real): int { (x + 0.5).Floor }

  function Score(urgency: real, impact: real, confidence: real, agingPoints: int): int {
    var points := 100.0 * (0.45 * Clamp01(urgency) + 0.35 * Clamp01(impact) + 0.2 * Clamp01(confidence));
    var total := Round(points + agingPoints as real);
    if total > 100 then 100 else total
  }

  function ReorderUrgency(r: ReorderCandidate): real {
    var lead := if r.leadTimeDays < 1 then 1 else r.leadTimeDays;
    if r.available <= 0 then 1.0
    else if r.daysOfCover.None? then 0.7
    else 1.0 - r.daysOfCover.value / (2.0 * lead as real)
  }

  function ScoreReorder(r: ReorderCandidate, now: int): Scored {
    Scored(Reorder, r.stockItemId, r.stockItemId,
           Score(ReorderUrgency(r), Pct(r.riskScore, 0.7), Pct(r.confidence, 0.9), Aging(r.openedAt, now)), None)
  }

  function SeverityUrgency(s: Severity): real {
    match s case Critical => 1.0 case Warning => 0.6 case Info => 0.25 case OtherSeverity => 0.4
  }

  function ScoreAlert(a: AlertCandidate, now: int): Scored {
    var urgency := SeverityUrgency(a.severity);
    Scored(AckAlert, a.id, a.stockItemId,
           Score(urgency, Pct(a.riskScore, urgency), Pct(a.confidence, 1.0), Aging(a.openedAt, now)), Some(a.alertType))
  }

  function PriceChange(p: PricingCandidate): real {
    var change := p.recommendedPrice - p.currentPrice;
    if p.currentPrice > 0.0 then (if change < 0.0 then -change else change) / p.currentPrice else 0.0
  }

  function ScorePricing(p: PricingCandidate, now: int): Scored {
    Scored(ApprovePrice, p.id, p.stockItemId,
           Score(Pct(p.riskScore, 0.3), PriceChange(p) / 0.2, Pct(p.confidence, 0.8), Aging(p.createdAt, now)), None)
  }

  function AllScored(c: Candidates, now: int): seq<Scored> {
    seq(|c.reorder|, i requires 0 <= i < |c.reorder| => ScoreReorder(c.reorder[i], now))
    + seq(|c.alerts|, i requires 0 <= i < |c.alerts| => ScoreAlert(c.alerts[i], now))
    + seq(|c.pricing|, i requires 0 <= i < |c.pricing| => ScorePricing(c.pricing[i], now))
  }

  // ---- Order ---------------------------------------------------------------------------------------

  function KindOrder(k: Kind): int {
    match k case Reorder => 0 case AckAlert => 1 case ApprovePrice => 2 case RejectPrice => 3
  }

  /** Negative when `a` goes first: higher score, then kind, then target. */
  function ByScore(a: Scored, b: Scored): int {
    if b.score != a.score then b.score - a.score
    else if a.kind != b.kind then KindOrder(a.kind) - KindOrder(b.kind)
    else a.targetId - b.targetId
  }

  /** Put x, which came before the elements of s, in its place: before any equal one. */
  function Insert(x: Scored, s: seq<Scored>): seq<Scored> {
    if s == [] then [x] else if ByScore(x, s[0]) <= 0 then [x] + s else [s[0]] + Insert(x, s[1..])
  }

  /** The stable sort by `ByScore`. */
  function Sort(s: seq<Scored>): seq<Scored> {
    if s == [] then [] else Insert(s[0], Sort(s[1..]))
  }

  // ---- Selection -----------------------------------------------------------------------------------

  predicate HasSku(s: seq<Scored>, sku: int) { exists i :: 0 <= i < |s| && s[i].stockItemId == sku }

  predicate Superseded(s: Scored, reorderSkus: set<int>) { s.kind == AckAlert && s.stockItemId in reorderSkus }

  /** The first admissible suggestion of each SKU among the first n. */
  function Winners(scored: seq<Scored>, n: nat, reorderSkus: set<int>): seq<Scored>
    requires n <= |scored|
  {
    if n == 0 then [] else
    var before := Winners(scored, n - 1, reorderSkus);
    var s := scored[n - 1];
    if Superseded(s, reorderSkus) || HasSku(before, s.stockItemId) then before else before + [s]
  }

  function CountKind(s: seq<Scored>, kind: Kind): nat {
    if s == [] then 0 else CountKind(s[..|s| - 1], kind) + (if s[|s| - 1].kind == kind then 1 else 0)
  }

  datatype Picking = Picking(picked: seq<Scored>, skipped: seq<Scored>)

  /** The capped pass over the first n winners; once the list is full it changes no more. */
  function FirstPass(unique: seq<Scored>, n: nat, limit: int): Picking
    requires n <= |unique|
  {
    if n == 0 then Picking([], []) else
    var p := FirstPass(unique, n - 1, limit);
    var s := unique[n - 1];
    if |p.picked| >= limit then p
    else if CountKind(p.picked, s.kind) >= MAX_PER_KIND then p.(skipped := p.skipped + [s])
    else p.(picked := p.picked + [s])
  }

  function TopUp(picked: seq<Scored>, skipped: seq<Scored>, limit: int): seq<Scored> {
    var room := limit - |picked|;
    if room <= 0 then picked else if room >= |skipped| then picked + skipped else picked + skipped[..room]
  }

  function Ranked(scored: seq<Scored>, reorderSkus: set<int>, limit: int): seq<Scored> {
    var sorted := Sort(scored);
    var unique := Sort(Winners(sorted, |sorted|, reorderSkus));
    var p := FirstPass(unique, |unique|, limit);
    Sort(TopUp(p.picked, p.skipped, limit))
  }

  function ReorderSkus(c: Candidates): set<int> {
    set i | 0 <= i < |c.reorder| :: c.reorder[i].stockItemId
  }

  function CountOf(perKind: map<Kind, nat>, kind: Kind): nat { if kind in perKind then perKind[kind] else 0 }

  lemma CountSnoc(s: seq<Scored>, x: Scored, kind: Kind)
    ensures CountKind(s + [x], kind) == CountKind(s, kind) + (if x.kind == kind then 1 else 0)
  {
    assert (s + [x])[..|s|] == s;
  }

  method RankSuggestions(candidates: Candidates, now: int, limit: int := MAX_SUGGESTIONS) returns (r: seq<Scored>)
    ensures r == Ranked(AllScored(candidates, now), ReorderSkus(candidates), limit)
  {
    var scored := Sort(AllScored(candidates, now));
    var unique := OnePerSku(scored, ReorderSkus(candidates));
    var picked := PickVaried(Sort(unique), limit);
    r := Sort(picked);
  }

  lemma HasSkuSnoc(s: seq<Scored>, x: Scored, sku: int)
    ensures HasSku(s + [x], sku) <==> HasSku(s, sku) || sku == x.stockItemId
  {
    if HasSku(s, sku) {
      var j :| 0 <= j < |s| && s[j].stockItemId == sku;
      assert (s + [x])[j].stockItemId == sku;
    }
    assert (s + [x])[|s|] == x;
  }

  method OnePerSku(scored: seq<Scored>, reorderSkus: set<int>) returns (unique: seq<Scored>)
    ensures unique == Winners(scored, |scored|, reorderSkus)
  {
    unique := [];
    var perSku: map<int, Scored> := map[];
    for i := 0 to |scored|
      invariant unique == Winners(scored, i, reorderSkus)
      invariant forall sku :: sku in perSku <==> HasSku(unique, sku)
    {
      var s := scored[i];
      if s.kind == AckAlert && s.stockItemId in reorderSkus { continue; }
      if s.stockItemId !in perSku {
        forall sku { HasSkuSnoc(unique, s, sku); }
        perSku, unique := perSku[s.stockItemId := s], unique + [s];
      }
    }
  }

  method PickVaried(unique: seq<Scored>, limit: int) returns (picked: seq<Scored>)
    ensures var p := FirstPass(unique, |unique|, limit); picked == TopUp(p.picked, p.skipped, limit)
  {
    picked := [];
    var skipped: seq<Scored>, perKind: map<Kind, nat> := [], map[];
    var i := 0;
    while i < |unique| && |picked| < limit
      invariant 0 <= i <= |unique|
      invariant Picking(picked, skipped) == FirstPass(unique, i, limit)
      invariant forall kind :: CountOf(perKind, kind) == CountKind(picked, kind)
    {
      var s := unique[i];
      var count := CountOf(perKind, s.kind);
      if count >= MAX_PER_KIND {
        skipped := skipped + [s];
      } else {
        forall kind { CountSnoc(picked, s, kind); }
        perKind := perKind[s.kind := count + 1];
        picked := picked + [s];
      }
      i := i + 1;
    }
    FullStaysFull(unique, i, limit);
    picked := FillUp(picked, skipped, limit);
  }

  method FillUp(picked: seq<Scored>, skipped: seq<Scored>, limit: int) returns (r: seq<Scored>)
    ensures r == TopUp(picked, skipped, limit)
  {
    r := picked;
    var j := 0;
    while j < |skipped| && |r| < limit
      invariant 0 <= j <= |skipped|
      invariant r == picked + skipped[..j]
      invariant j == 0 || |r| <= limit
    {
      r := r + [skipped[j]];
      j := j + 1;
    }
    assert skipped[..|skipped|] == skipped;
  }

  lemma {:induction false} FullStaysFull(unique: seq<Scored>, n: nat, limit: int)
    requires n <= |unique|
    requires n == |unique| || |FirstPass(unique, n, limit).picked| >= limit
    ensures FirstPass(unique, |unique|, limit) == FirstPass(unique, n, limit)
    decreases |unique| - n
  {
    if n < |unique| { FullStaysFull(unique, n + 1, limit); }
  }
}

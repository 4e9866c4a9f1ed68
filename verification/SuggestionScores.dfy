/** What the score of a suggestion is made of, how ties break, and which suggestions fill up the list. */
module SuggestionScores {
  import opened Options
  import Alerts
  import opened SuggestionRanking
  import opened SuggestionProofs

  /** f is x, held between 0 and 1. */
  predicate Held(x: real, f: real) {
    0.0 <= f <= 1.0 && (x < 0.0 ==> f == 0.0) && (x > 1.0 ==> f == 1.0) && (0.0 <= x <= 1.0 ==> f == x)
  }

  /** f is a stored score out of 100 as a fraction, or the fallback where none is stored. */
  predicate PartOf(value: Option<real>, fallback: real, f: real) {
    if value.None? then f == fallback else Held(value.value / 100.0, f)
  }

  /** Points are whole days, from 0 to 8. */
  predicate AgeIs(since: int, now: int, points: int) {
    && 0 <= points <= 8
    && (points > 0 ==> now - since >= points * 86_400_000)
    && (points < 8 ==> now - since < (points + 1) * 86_400_000)
  }

  /** The score: 45 parts urgency, 35 impact and 20 confidence out of 100, and the age, to the nearest whole number, but
      no more than 100. */
  predicate ScoreIs(score: int, urgency: real, impact: real, confidence: real, age: int) {
    var points := 45.0 * urgency + 35.0 * impact + 20.0 * confidence + age as real;
    if points >= 99.5 then score == 100 else points - 0.5 < score as real <= points + 0.5
  }

  lemma HeldIs(x: real)
    ensures Held(x, Clamp01(x))
  {}

  lemma AgeOf(since: int, now: int, points: int)
    requires AgeIs(since, now, points)
    ensures Aging(since, now) == points
  {
    var days := (now - since) / DAY_MS;
    assert days * DAY_MS <= now - since < (days + 1) * DAY_MS;
    if 0 < points { assert days >= points; }
    if points < 8 { assert days <= points; }
  }

  lemma ScoreOf(urgency: real, impact: real, confidence: real, u: real, i: real, c: real, age: int)
    requires Held(urgency, u) && Held(impact, i) && Held(confidence, c)
    ensures ScoreIs(Score(urgency, impact, confidence, age), u, i, c, age)
  {
    HeldIs(urgency);
    HeldIs(impact);
    HeldIs(confidence);
    var points := 45.0 * u + 35.0 * i + 20.0 * c + age as real;
    assert 100.0 * (0.45 * u + 0.35 * i + 0.2 * c) + age as real == points;
  }

  lemma HeldPart(value: Option<real>, fallback: real, f: real)
    requires PartOf(value, fallback, f) && 0.0 <= fallback <= 1.0
    ensures Held(Pct(value, fallback), f)
  {}

  /** A stock-out is fully urgent, an unknown cover 0.7, and a known cover less urgent the more of twice the lead time
      it is. */
  predicate ReorderUrgent(r: ReorderCandidate, u: real) {
    if r.available <= 0 then u == 1.0
    else if r.daysOfCover.None? then u == 0.7
    else Held(1.0 - r.daysOfCover.value / (2 * (if r.leadTimeDays > 1 then r.leadTimeDays else 1)) as real, u)
  }

  lemma ReorderScored(r: ReorderCandidate, now: int, u: real, i: real, c: real, age: int)
    requires ReorderUrgent(r, u) && PartOf(r.riskScore, 0.7, i) && PartOf(r.confidence, 0.9, c)
    requires AgeIs(r.openedAt, now, age)
    ensures var s := ScoreReorder(r, now);
      && s.kind == Reorder && s.targetId == r.stockItemId && s.stockItemId == r.stockItemId && s.alertType.None?
      && ScoreIs(s.score, u, i, c, age)
  {
    var lead := if r.leadTimeDays < 1 then 1 else r.leadTimeDays;
    assert 2.0 * lead as real == (2 * lead) as real;
    HeldPart(r.riskScore, 0.7, i);
    HeldPart(r.confidence, 0.9, c);
    AgeOf(r.openedAt, now, age);
    hide Pct, Aging, Score;
    ScoreOf(ReorderUrgency(r), Pct(r.riskScore, 0.7), Pct(r.confidence, 0.9), u, i, c, age);
  }

  /** The urgency of an alert goes by its severity, and its impact as well if it has no risk score. */
  lemma AlertScored(a: AlertCandidate, now: int, i: real, c: real, age: int)
    requires var u := match a.severity
               case Critical => 1.0 case Warning => 0.6 case Info => 0.25 case OtherSeverity => 0.4;
             PartOf(a.riskScore, u, i)
    requires PartOf(a.confidence, 1.0, c) && AgeIs(a.openedAt, now, age)
    ensures var s := ScoreAlert(a, now);
      && s.kind == AckAlert && s.targetId == a.id && s.stockItemId == a.stockItemId && s.alertType == Some(a.alertType)
      && (a.severity == Critical ==> ScoreIs(s.score, 1.0, i, c, age))
      && (a.severity == Warning ==> ScoreIs(s.score, 0.6, i, c, age))
      && (a.severity == Info ==> ScoreIs(s.score, 0.25, i, c, age))
      && (a.severity == OtherSeverity ==> ScoreIs(s.score, 0.4, i, c, age))
  {
    var u := SeverityUrgency(a.severity);
    HeldPart(a.riskScore, u, i);
    HeldPart(a.confidence, 1.0, c);
    AgeOf(a.openedAt, now, age);
    HeldIs(u);
    hide Pct, Aging, Score, ScoreIs;
    ScoreOf(u, Pct(a.riskScore, u), Pct(a.confidence, 1.0), u, i, c, age);
  }

  /** A price change of a fifth or more of the current price has full impact. */
  predicate ChangeImpact(p: PricingCandidate, i: real) {
    var change := if p.recommendedPrice > p.currentPrice then p.recommendedPrice - p.currentPrice
                  else p.currentPrice - p.recommendedPrice;
    if p.currentPrice <= 0.0 then i == 0.0 else Held(change / p.currentPrice * 5.0, i)
  }

  lemma PricingScored(p: PricingCandidate, now: int, u: real, i: real, c: real, age: int)
    requires PartOf(p.riskScore, 0.3, u) && ChangeImpact(p, i) && PartOf(p.confidence, 0.8, c)
    requires AgeIs(p.createdAt, now, age)
    ensures var s := ScorePricing(p, now);
      && s.kind == ApprovePrice && s.targetId == p.id && s.stockItemId == p.stockItemId && s.alertType.None?
      && ScoreIs(s.score, u, i, c, age)
  {
    HeldPart(p.riskScore, 0.3, u);
    HeldPart(p.confidence, 0.8, c);
    AgeOf(p.createdAt, now, age);
    Fifth(PriceChange(p));
    assert Held(PriceChange(p) / 0.2, i);
    hide Pct, Aging, Score, PriceChange;
    ScoreOf(Pct(p.riskScore, 0.3), PriceChange(p) / 0.2, Pct(p.confidence, 0.8), u, i, c, age);
  }

  lemma Fifth(x: real)
    ensures x / 0.2 == x * 5.0
  {}

  /** Every candidate is scored once: the reorders, then the alerts, then the price recommendations. */
  lemma AllScoredIs(c: Candidates, now: int, i: nat)
    requires i < |c.reorder| + |c.alerts| + |c.pricing|
    ensures var all := AllScored(c, now); var a, b := |c.reorder|, |c.reorder| + |c.alerts|;
      && |all| == b + |c.pricing|
      && all[i] == if i < a then ScoreReorder(c.reorder[i], now)
                   else if i < b then ScoreAlert(c.alerts[i - a], now) else ScorePricing(c.pricing[i - b], now)
  {
    hide ScoreReorder, ScoreAlert, ScorePricing;
  }

  /** Ties of the score go to reorders, then alerts, then approvals, then rejections, and then to the smaller id. */
  lemma FirstIff(a: Scored, b: Scored)
    ensures ByScore(a, b) < 0 <==>
      || a.score > b.score
      || (a.score == b.score && a.kind != b.kind &&
          (a.kind == Reorder || b.kind == RejectPrice || (a.kind == AckAlert && b.kind == ApprovePrice)))
      || (a.score == b.score && a.kind == b.kind && a.targetId < b.targetId)
    ensures ByScore(a, b) == 0 <==> a.score == b.score && a.kind == b.kind && a.targetId == b.targetId
  {}

  // ---- Filling up --------------------------------------------------------------------------------------------

  /** What the pass skips stays in order, and as long as the list is not full, every winner is picked or skipped. */
  lemma {:induction false} SkippedInOrder(unique: seq<Scored>, n: nat, limit: int)
    requires n <= |unique| && Sorted(unique)
    ensures var p := FirstPass(unique, n, limit);
      && Sorted(p.skipped)
      && (forall i, k :: 0 <= i < |p.skipped| && n <= k < |unique| ==> ByScore(p.skipped[i], unique[k]) <= 0)
      && (|p.picked| < limit ==> forall k :: 0 <= k < n ==> unique[k] in p.picked || unique[k] in p.skipped)
      && (forall x :: x in p.picked || x in p.skipped ==> x in unique)
  {
    hide ByScore, CountKind;
    if n > 0 {
      SkippedInOrder(unique, n - 1, limit);
      assert unique[n - 1] in unique;
    }
  }

  lemma ToppedUp(picked: seq<Scored>, skipped: seq<Scored>, limit: int, j: nat)
    requires j < |skipped|
    ensures j < limit - |picked| ==> skipped[j] in TopUp(picked, skipped, limit)
  {
    if j < limit - |picked| { assert TopUp(picked, skipped, limit)[|picked| + j] == skipped[j]; }
  }

  /** Room left by the capped pass goes to the best of what it skipped: a winner is left out only of a full list, and
      what was topped up does not go after it. */
  lemma FilledWithBest(unique: seq<Scored>, limit: int, a: Scored, b: Scored)
    requires Sorted(unique) && limit >= 0
    requires var p := FirstPass(unique, |unique|, limit); var list := TopUp(p.picked, p.skipped, limit);
      a in list && b in unique && b !in list
    ensures var p := FirstPass(unique, |unique|, limit); var list := TopUp(p.picked, p.skipped, limit);
      |list| >= limit && (a in p.picked || ByScore(a, b) <= 0)
  {
    SkippedInOrder(unique, |unique|, limit);
    hide ByScore, FirstPass;
    var p := FirstPass(unique, |unique|, limit);
    var room := limit - |p.picked|;
    var k :| 0 <= k < |unique| && unique[k] == b;
    if room > 0 {
      assert b in p.skipped;
      var j :| 0 <= j < |p.skipped| && p.skipped[j] == b;
      ToppedUp(p.picked, p.skipped, limit, j);
      if a !in p.picked {
        var i :| 0 <= i < room && p.skipped[i] == a;
      }
    }
  }
}

/** What the ranked list is worth: the capped pass is the best feasible choice, and the list is a function of the
    set of candidates. */
module SuggestionProofs {
  import opened Options
  import opened SuggestionRanking
  import Alerts

  // ---- Scores --------------------------------------------------------------------------------------

  predicate InRange(s: Scored) { 0 <= s.score <= 100 }

  lemma ScoreRange(urgency: real, impact: real, confidence: real, agingPoints: int)
    requires 0 <= agingPoints <= MAX_AGING_POINTS
    ensures 0 <= Score(urgency, impact, confidence, agingPoints) <= 100
  {}

  /** Every candidate is scored in [0, 100]. */
  lemma AllInRange(c: Candidates, now: int, i: nat)
    requires i < |AllScored(c, now)|
    ensures InRange(AllScored(c, now)[i])
  {
    hide Score;
    var s := AllScored(c, now)[i];
    if i < |c.reorder| {
      var r := c.reorder[i];
      ScoreRange(ReorderUrgency(r), Pct(r.riskScore, 0.7), Pct(r.confidence, 0.9), Aging(r.openedAt, now));
    } else if i < |c.reorder| + |c.alerts| {
      var a := c.alerts[i - |c.reorder|];
      var urgency := SeverityUrgency(a.severity);
      ScoreRange(urgency, Pct(a.riskScore, urgency), Pct(a.confidence, 1.0), Aging(a.openedAt, now));
    } else {
      var p := c.pricing[i - |c.reorder| - |c.alerts|];
      ScoreRange(Pct(p.riskScore, 0.3), PriceChange(p) / 0.2, Pct(p.confidence, 0.8), Aging(p.createdAt, now));
    }
  }

  lemma RoundOrder(x: real, y: real)
    requires x <= y
    ensures Round(x) <= Round(y)
  {}

  lemma ClampOrder(x: real, y: real)
    requires x <= y
    ensures 0.0 <= Clamp01(x) <= Clamp01(y) <= 1.0
  {}

  /** A score never falls when urgency, impact, confidence or age rises; full marks in all three make 100, and each
      counts with its own weight. */
  lemma ScoreMonotone(u: real, i: real, c: real, a: int, u': real, i': real, c': real, a': int)
    requires u <= u' && i <= i' && c <= c' && a <= a'
    ensures Score(u, i, c, a) <= Score(u', i', c', a')
    ensures a >= 0 ==> Score(1.0, 1.0, 1.0, a) == 100
    ensures Score(1.0, 0.0, 0.0, 0) == 45 && Score(0.0, 1.0, 0.0, 0) == 35 && Score(0.0, 0.0, 1.0, 0) == 20
  {
    hide Clamp01, Round;
    ClampOrder(u, u');
    ClampOrder(i, i');
    ClampOrder(c, c');
    RoundOrder(100.0 * (0.45 * Clamp01(u) + 0.35 * Clamp01(i) + 0.2 * Clamp01(c)) + a as real,
               100.0 * (0.45 * Clamp01(u') + 0.35 * Clamp01(i') + 0.2 * Clamp01(c')) + a' as real);
    Weights(a);
  }

  lemma Weights(a: int)
    ensures a >= 0 ==> Score(1.0, 1.0, 1.0, a) == 100
    ensures Score(1.0, 0.0, 0.0, 0) == 45 && Score(0.0, 1.0, 0.0, 0) == 35 && Score(0.0, 0.0, 1.0, 0) == 20
  {}

  lemma DivideOrder(x: real, y: real, d: real)
    requires x <= y && d > 0.0
    ensures x / d <= y / d
  {}

  /** Of two reorders that differ in cover, stock and age only, one that is out of stock, or covers no more days, and
      is no younger does not score lower. */
  lemma ReorderOutranks(r: ReorderCandidate, r': ReorderCandidate, now: int)
    requires r' == r.(available := r'.available, daysOfCover := r'.daysOfCover, openedAt := r'.openedAt)
    requires r.openedAt <= r'.openedAt
    requires r.available <= 0
      || (r'.available > 0 && r.daysOfCover.Some? && r'.daysOfCover.Some?
      && r.daysOfCover.value <= r'.daysOfCover.value)
    requires r'.daysOfCover.Some? ==> r'.daysOfCover.value >= 0.0
    ensures ScoreReorder(r', now).score <= ScoreReorder(r, now).score
  {
    hide Score;
    var lead := if r.leadTimeDays < 1 then 1 else r.leadTimeDays;
    if r'.available > 0 && r'.daysOfCover.Some? {
      DivideOrder(0.0, r'.daysOfCover.value, 2.0 * lead as real);
      if r.available > 0 { DivideOrder(r.daysOfCover.value, r'.daysOfCover.value, 2.0 * lead as real); }
    }
    ScoreMonotone(ReorderUrgency(r'), Pct(r.riskScore, 0.7), Pct(r.confidence, 0.9), Aging(r'.openedAt, now),
                  ReorderUrgency(r), Pct(r.riskScore, 0.7), Pct(r.confidence, 0.9), Aging(r.openedAt, now));
  }

  // ---- The sort ------------------------------------------------------------------------------------

  predicate Sorted(s: seq<Scored>) { forall i, k :: 0 <= i < k < |s| ==> ByScore(s[i], s[k]) <= 0 }

  /** What to count: one suggestion, or all of a SKU, or all with a (kind, target). */
  datatype Key = Whole(x: Scored) | OfSku(sku: int) | OfTarget(kind: Kind, id: int)

  predicate Hit(s: Scored, key: Key) {
    match key
    case Whole(x) => s == x
    case OfSku(sku) => s.stockItemId == sku
    case OfTarget(kind, id) => s.kind == kind && s.targetId == id
  }

  function Count(s: seq<Scored>, key: Key): nat {
    if s == [] then 0 else (if Hit(s[0], key) then 1 else 0) + Count(s[1..], key)
  }

  lemma {:induction false} InsertSorted(x: Scored, s: seq<Scored>)
    requires Sorted(s)
    ensures Sorted(Insert(x, s)) && |Insert(x, s)| == |s| + 1
    ensures Insert(x, s)[0] == x || (s != [] && Insert(x, s)[0] == s[0])
  {
    if s != [] && ByScore(x, s[0]) > 0 {
      InsertSorted(x, s[1..]);
      var t := Insert(x, s[1..]);
      assert ByScore(s[0], t[0]) <= 0;
      forall k | 0 < k < |t|
        ensures ByScore(s[0], t[k]) <= 0
      {
        assert ByScore(t[0], t[k]) <= 0;
      }
    }
  }

  lemma {:induction false} InsertCount(x: Scored, s: seq<Scored>, key: Key)
    ensures Count(Insert(x, s), key) == Count(s, key) + (if Hit(x, key) then 1 else 0)
  {
    if s != [] && ByScore(x, s[0]) > 0 {
      InsertCount(x, s[1..], key);
      assert Insert(x, s)[1..] == Insert(x, s[1..]);
    } else {
      assert ([x] + s)[1..] == s;
    }
  }

  /** The sort orders its input and keeps its elements. */
  lemma {:induction false} SortSorts(s: seq<Scored>)
    ensures Sorted(Sort(s)) && |Sort(s)| == |s|
  {
    if s != [] {
      SortSorts(s[1..]);
      InsertSorted(s[0], Sort(s[1..]));
    }
  }

  lemma {:induction false} SortCount(s: seq<Scored>, key: Key)
    ensures Count(Sort(s), key) == Count(s, key)
  {
    if s != [] {
      SortCount(s[1..], key);
      InsertCount(s[0], Sort(s[1..]), key);
    }
  }

  /** Sorting what is sorted changes nothing, not even among equals. */
  lemma {:induction false} SortFixes(s: seq<Scored>)
    requires Sorted(s)
    ensures Sort(s) == s
  {
    if s != [] {
      SortFixes(s[1..]);
      if |s| > 1 { assert ByScore(s[0], s[1]) <= 0; }
    }
  }

  // ---- Winners: one suggestion per SKU, the best admissible one -------------------------------------

  predicate OnePer(s: seq<Scored>) { forall i, k :: 0 <= i < k < |s| ==> s[i].stockItemId != s[k].stockItemId }

  lemma {:induction false} WinnersShape(scored: seq<Scored>, n: nat, skus: set<int>)
    requires n <= |scored| && Sorted(scored)
    ensures var w := Winners(scored, n, skus);
      && OnePer(w) && Sorted(w)
      && forall i :: 0 <= i < |w| ==> !Superseded(w[i], skus) && w[i] in scored[..n]
  {
    if n > 0 {
      WinnersShape(scored, n - 1, skus);
      var before := Winners(scored, n - 1, skus);
      assert scored[..n] == scored[..n - 1] + [scored[n - 1]];
      forall i | 0 <= i < |before|
        ensures ByScore(before[i], scored[n - 1]) <= 0
      {
        var k :| 0 <= k < n - 1 && scored[..n - 1][k] == before[i];
        assert ByScore(scored[k], scored[n - 1]) <= 0;
      }
    }
  }

  /** Every admissible candidate is represented by a winner of its SKU that goes no later. */
  lemma {:induction false} WinnersBest(scored: seq<Scored>, n: nat, skus: set<int>, i: nat) returns (k: nat)
    requires i < n <= |scored| && Sorted(scored) && !Superseded(scored[i], skus)
    ensures var w := Winners(scored, n, skus);
      k < |w| && w[k].stockItemId == scored[i].stockItemId && ByScore(w[k], scored[i]) <= 0
  {
    var before := Winners(scored, n - 1, skus);
    if i < n - 1 {
      k := WinnersBest(scored, n - 1, skus, i);
    } else if HasSku(before, scored[i].stockItemId) {
      k :| 0 <= k < |before| && before[k].stockItemId == scored[i].stockItemId;
      WinnersShape(scored, n - 1, skus);
      assert before[k] in scored[..n - 1];
      var m :| 0 <= m < n - 1 && scored[..n - 1][m] == before[k];
      assert ByScore(scored[m], scored[i]) <= 0;
    } else {
      k := |before|;
    }
  }

  // ---- Which alerts a reorder drops ------------------------------------------------------------------

  /** What the comment on the ranking says: a reorder supersedes the stock-out and low-stock alerts of its SKU. */
  predicate SupersededAsDocumented(s: Scored, skus: set<int>) {
    Superseded(s, skus) && (s.alertType == Some(Alerts.Stockout) || s.alertType == Some(Alerts.LowStock))
  }

  function DocumentedWinners(scored: seq<Scored>, n: nat, skus: set<int>): seq<Scored>
    requires n <= |scored|
  {
    if n == 0 then [] else
    var before := DocumentedWinners(scored, n - 1, skus);
    var s := scored[n - 1];
    if SupersededAsDocumented(s, skus) || HasSku(before, s.stockItemId) then before else before + [s]
  }

  /** An alert of another type on a SKU to reorder, ahead of every candidate of that SKU that the comment keeps. */
  ghost predicate OtherAlertFirst(scored: seq<Scored>, i: nat, skus: set<int>)
    requires i < |scored|
  {
    && Superseded(scored[i], skus) && !SupersededAsDocumented(scored[i], skus)
    && forall k :: 0 <= k < i && scored[k].stockItemId == scored[i].stockItemId ==>
      SupersededAsDocumented(scored[k], skus)
  }

  lemma {:induction false} DocumentedHasSku(scored: seq<Scored>, n: nat, skus: set<int>, sku: int)
    requires n <= |scored|
    ensures HasSku(DocumentedWinners(scored, n, skus), sku)
      <==> exists k :: 0 <= k < n && scored[k].stockItemId == sku && !SupersededAsDocumented(scored[k], skus)
  {
    if n > 0 {
      DocumentedHasSku(scored, n - 1, skus, sku);
      HasSkuSnoc(DocumentedWinners(scored, n - 1, skus), scored[n - 1], sku);
    }
  }

  lemma {:induction false} DocumentedKeeps(scored: seq<Scored>, i: nat, n: nat, skus: set<int>)
    requires i < n <= |scored| && OtherAlertFirst(scored, i, skus)
    ensures scored[i] in DocumentedWinners(scored, n, skus)
  {
    if i == n - 1 { DocumentedHasSku(scored, i, skus, scored[i].stockItemId); }
      else { DocumentedKeeps(scored, i, n - 1, skus); }
  }

  lemma {:induction false} NoneSuperseded(scored: seq<Scored>, n: nat, skus: set<int>)
    requires n <= |scored|
    ensures forall w :: w in Winners(scored, n, skus) ==> !Superseded(w, skus)
  {
    if n > 0 { NoneSuperseded(scored, n - 1, skus); }
  }

  /** The code drops every alert of a SKU to reorder. The suggestion that stands for each SKU is the one the comment
      calls for exactly if no alert of another type comes first for its SKU. */
  lemma {:induction false} DocumentedIff(scored: seq<Scored>, n: nat, skus: set<int>)
    requires n <= |scored|
    ensures Winners(scored, n, skus) == DocumentedWinners(scored, n, skus) <==>
      forall i :: 0 <= i < n ==> !OtherAlertFirst(scored, i, skus)
  {
    if i :| 0 <= i < n && OtherAlertFirst(scored, i, skus) {
      DocumentedKeeps(scored, i, n, skus);
      NoneSuperseded(scored, n, skus);
    } else if n > 0 {
      DocumentedIff(scored, n - 1, skus);
      DocumentedHasSku(scored, n - 1, skus, scored[n - 1].stockItemId);
      assert !OtherAlertFirst(scored, n - 1, skus);
    }
  }

  /** A critical alert of unusual demand on a SKU to reorder, with the higher score: the list holds the reorder alone,
      and by the comment it would hold the alert. */
  lemma UnusualDemandDropped()
    ensures var alert := AlertCandidate(1, 7, Alerts.UnusualDemand, Critical, Some(100.0), Some(100.0), 0);
      var reorder := ReorderCandidate(7, 10, Some(14.0), 7, Some(50.0), Some(50.0), 0);
      var a, r := ScoreAlert(alert, 0), ScoreReorder(reorder, 0);
      var sorted := Sort(AllScored(Candidates([alert], [], [reorder]), 0));
      a.score == 100 && r.score == 28 && Winners(sorted, |sorted|, {7}) == [r]
        && DocumentedWinners(sorted, |sorted|, {7}) == [a]
  {
    var alert := AlertCandidate(1, 7, Alerts.UnusualDemand, Critical, Some(100.0), Some(100.0), 0);
    var reorder := ReorderCandidate(7, 10, Some(14.0), 7, Some(50.0), Some(50.0), 0);
    var a, r := ScoreAlert(alert, 0), ScoreReorder(reorder, 0);
    assert AllScored(Candidates([alert], [], [reorder]), 0) == [r, a];
    TwoSorted(r, a);
    var sorted := [a, r];
    assert Winners(sorted, 1, {7}) == [];
    assert DocumentedWinners(sorted, 1, {7}) == [a];
    assert [a][0].stockItemId == 7 && HasSku([a], 7) && !HasSku([], 7);
  }

  lemma TwoSorted(x: Scored, y: Scored)
    requires y.score > x.score
    ensures Sort([x, y]) == [y, x]
  {
    assert [x, y][1..] == [y] && [y][1..] == [] && Sort([]) == [];
    assert Sort([y]) == Insert(y, Sort([])) == [y];
    assert [y] + Insert(x, []) == [y, x] && [y][0] == y;
    assert Insert(x, [y]) == [y, x];
  }

  // ---- The capped pass is optimal ------------------------------------------------------------------

  function Total(s: seq<Scored>): int { if s == [] then 0 else Total(s[..|s| - 1]) + s[|s| - 1].score }

  /** The elements of the first n that a mask selects. */
  function Chosen(unique: seq<Scored>, n: nat, mask: seq<bool>): seq<Scored>
    requires n <= |unique| == |mask|
  {
    if n == 0 then []
    else if mask[n - 1] then Chosen(unique, n - 1, mask) + [unique[n - 1]] else Chosen(unique, n - 1, mask)
  }

  predicate Feasible(s: seq<Scored>, limit: int) {
    |s| <= limit && forall kind :: CountKind(s, kind) <= MAX_PER_KIND
  }

  function Cap(n: nat): nat { if n < MAX_PER_KIND then n else MAX_PER_KIND }

  lemma {:induction false} KindsAddUp(s: seq<Scored>)
    ensures |s| == CountKind(s, Reorder) + CountKind(s, AckAlert) + CountKind(s, ApprovePrice)
      + CountKind(s, RejectPrice)
  {
    if s != [] { KindsAddUp(s[..|s| - 1]); }
  }

  lemma CountNone(kind: Kind)
    ensures CountKind([], kind) == 0
  {}

  /** The pass takes, of every kind, the first MAX_PER_KIND as long as there is room. */
  lemma {:induction false} PassCounts(unique: seq<Scored>, n: nat, limit: int, kind: Kind)
    requires n <= |unique|
    ensures var p := FirstPass(unique, n, limit).picked;
      && CountKind(p, kind) <= MAX_PER_KIND && (|p| <= limit || |p| == 0)
      && (|p| < limit ==> CountKind(p, kind) == Cap(CountKind(unique[..n], kind)))
  {
    CountNone(kind);
    hide CountKind;
    if n > 0 {
      PassCounts(unique, n - 1, limit, kind);
      assert unique[..n] == unique[..n - 1] + [unique[n - 1]];
      CountSnoc(unique[..n - 1], unique[n - 1], kind);
      CountSnoc(FirstPass(unique, n - 1, limit).picked, unique[n - 1], kind);
    }
  }

  lemma {:induction false} ChosenGrows(unique: seq<Scored>, n: nat, m: nat, mask: seq<bool>, kind: Kind)
    requires n <= m <= |unique| == |mask|
    ensures |Chosen(unique, n, mask)| <= |Chosen(unique, m, mask)|
    ensures CountKind(Chosen(unique, n, mask), kind) <= CountKind(Chosen(unique, m, mask), kind)
    ensures CountKind(Chosen(unique, m, mask), kind) <= CountKind(unique[..m], kind)
    decreases m
  {
    if m > 0 {
      assert unique[..m] == unique[..m - 1] + [unique[m - 1]];
      CountSnoc(unique[..m - 1], unique[m - 1], kind);
      CountSnoc(Chosen(unique, m - 1, mask), unique[m - 1], kind);
      ChosenGrows(unique, if n < m then n else m - 1, m - 1, mask, kind);
    }
  }

  /** How far the pass is ahead of a choice after n winners, in number and in score. */
  function Ahead(unique: seq<Scored>, n: nat, limit: int, mask: seq<bool>): int
    requires n <= |unique| == |mask|
  {
    |FirstPass(unique, n, limit).picked| - |Chosen(unique, n, mask)|
  }

  function Lead(unique: seq<Scored>, n: nat, limit: int, mask: seq<bool>): int
    requires n <= |unique| == |mask|
  {
    Total(FirstPass(unique, n, limit).picked) - Total(Chosen(unique, n, mask))
  }

  /** On every prefix the pass has picked at least as many as any feasible choice. */
  lemma PassAhead(unique: seq<Scored>, n: nat, limit: int, mask: seq<bool>)
    requires n <= |unique| == |mask| && Feasible(Chosen(unique, |unique|, mask), limit)
    ensures Ahead(unique, n, limit, mask) >= 0
  {
    var p := FirstPass(unique, n, limit).picked;
    var c := Chosen(unique, n, mask);
    KindsAddUp(p);
    KindsAddUp(c);
    forall kind
      ensures |p| < limit ==> CountKind(c, kind) <= CountKind(p, kind)
    {
      PassCounts(unique, n, limit, kind);
      ChosenGrows(unique, n, n, mask, kind);
      ChosenGrows(unique, n, |unique|, mask, kind);
    }
    ChosenGrows(unique, n, |unique|, mask, Reorder);
  }

  lemma TotalSnoc(s: seq<Scored>, x: Scored)
    ensures Total(s + [x]) == Total(s) + x.score
  {
    assert (s + [x])[..|s|] == s;
  }

  lemma LeadStep(unique: seq<Scored>, n: nat, limit: int, mask: seq<bool>)
    requires 0 < n <= |unique| == |mask|
    ensures n == 1 ==> Ahead(unique, 0, limit, mask) == Lead(unique, 0, limit, mask) == 0
    ensures var e := Ahead(unique, n, limit, mask) - Ahead(unique, n - 1, limit, mask);
      && e in {-1, 0, 1}
      && Lead(unique, n, limit, mask) - Lead(unique, n - 1, limit, mask)
         == if e == 0 then 0 else if e == 1 then unique[n - 1].score else -unique[n - 1].score
  {
    TotalSnoc(FirstPass(unique, n - 1, limit).picked, unique[n - 1]);
    TotalSnoc(Chosen(unique, n - 1, mask), unique[n - 1]);
  }

  /** Summation by parts: being ahead in number on every prefix, among falling scores, is being ahead in score. */
  lemma {:induction false} PassLead(unique: seq<Scored>, n: nat, limit: int, mask: seq<bool>)
    requires 0 < n <= |unique| == |mask| && Sorted(unique) && Feasible(Chosen(unique, |unique|, mask), limit)
    ensures Lead(unique, n, limit, mask) >= Ahead(unique, n, limit, mask) * unique[n - 1].score
  {
    hide Lead, Ahead, Chosen, FirstPass, Feasible;
    var s := unique[n - 1].score;
    var d, lead := Ahead(unique, n - 1, limit, mask), Lead(unique, n - 1, limit, mask);
    LeadStep(unique, n, limit, mask);
    if n > 1 {
      PassLead(unique, n - 1, limit, mask);
      PassAhead(unique, n - 1, limit, mask);
      assert ByScore(unique[n - 2], unique[n - 1]) <= 0;
      LeadArithmetic(d, lead, unique[n - 2].score, s, Ahead(unique, n, limit, mask), Lead(unique, n, limit, mask));
    } else {
      LeadArithmetic(d, lead, s, s, Ahead(unique, n, limit, mask), Lead(unique, n, limit, mask));
    }
  }

  lemma LeadArithmetic(d: int, lead: int, high: int, low: int, d': int, lead': int)
    requires 0 <= d && low <= high && d * high <= lead && d' - d in {-1, 0, 1}
    requires lead' - lead == if d' == d then 0 else if d' == d + 1 then low else -low
    ensures d' * low <= lead'
  {
    Scaled(d, high, low);
    Stepped(d, d' - d, low);
  }

  lemma Scaled(d: int, high: int, low: int)
    requires d >= 0 && high >= low
    ensures d * high >= d * low
  {}

  lemma Stepped(d: int, e: int, s: int)
    ensures (d + e) * s == d * s + e * s
  {}

  /** The pass is itself such a choice. */
  lemma {:induction false} FirstPassIsAChoice(unique: seq<Scored>, n: nat, limit: int) returns (mask: seq<bool>)
    requires n <= |unique|
    ensures |mask| == |unique| && Chosen(unique, n, mask) == FirstPass(unique, n, limit).picked
  {
    if n == 0 {
      mask := seq(|unique|, i => false);
    } else {
      var before := FirstPassIsAChoice(unique, n - 1, limit);
      mask := before[n - 1 := FirstPass(unique, n, limit).picked != FirstPass(unique, n - 1, limit).picked];
      SameChoice(unique, n - 1, before, mask);
    }
  }

  lemma {:induction false} SameChoice(unique: seq<Scored>, n: nat, mask: seq<bool>, mask': seq<bool>)
    requires n <= |unique| == |mask| == |mask'| && mask[..n] == mask'[..n]
    ensures Chosen(unique, n, mask) == Chosen(unique, n, mask')
  {
    if n > 0 {
      assert mask[..n][n - 1] == mask'[..n][n - 1];
      assert mask[..n - 1] == mask[..n][..n - 1] == mask'[..n - 1];
      SameChoice(unique, n - 1, mask, mask');
    }
  }

  /** The first pass has the greatest total score of all choices of at most `limit` winners with at most
      MAX_PER_KIND of one kind. */
  lemma FirstPassIsOptimal(unique: seq<Scored>, limit: int, mask: seq<bool>)
    requires |unique| == |mask| && Sorted(unique) && (forall i :: 0 <= i < |unique| ==> InRange(unique[i]))
    requires Feasible(Chosen(unique, |unique|, mask), limit)
    ensures Feasible(FirstPass(unique, |unique|, limit).picked, limit)
    ensures Total(FirstPass(unique, |unique|, limit).picked) >= Total(Chosen(unique, |unique|, mask))
  {
    forall kind
      ensures CountKind(FirstPass(unique, |unique|, limit).picked, kind) <= MAX_PER_KIND
    {
      PassCounts(unique, |unique|, limit, kind);
    }
    PassCounts(unique, |unique|, limit, Reorder);
    if unique != [] {
      PassLead(unique, |unique|, limit, mask);
      PassAhead(unique, |unique|, limit, mask);
      Scaled(Ahead(unique, |unique|, limit, mask), unique[|unique| - 1].score, 0);
    }
  }

  // ---- The final list ------------------------------------------------------------------------------

  lemma {:induction false} CountAppend(a: seq<Scored>, b: seq<Scored>, key: Key)
    ensures Count(a + b, key) == Count(a, key) + Count(b, key)
  {
    if a == [] {
      assert a + b == b;
    } else {
      CountAppend(a[1..], b, key);
      assert (a + b)[1..] == a[1..] + b;
    }
  }

  lemma {:induction false} CountFinds(s: seq<Scored>, key: Key) returns (i: nat)
    requires Count(s, key) > 0
    ensures i < |s| && Hit(s[i], key)
  {
    if Hit(s[0], key) { i := 0; } else { var k := CountFinds(s[1..], key); i := k + 1; }
  }

  lemma {:induction false} CountHit(s: seq<Scored>, i: nat, key: Key)
    requires i < |s| && Hit(s[i], key)
    ensures Count(s, key) >= 1
  {
    if i > 0 { CountHit(s[1..], i - 1, key); }
  }

  lemma {:induction false} CountTwice(s: seq<Scored>, i: nat, k: nat, key: Key)
    requires i < k < |s| && Hit(s[i], key) && Hit(s[k], key)
    ensures Count(s, key) >= 2
  {
    if i > 0 { CountTwice(s[1..], i - 1, k - 1, key); } else { CountHit(s[1..], k - 1, key); }
  }

  lemma {:induction false} NoneOfSku(s: seq<Scored>, sku: int)
    requires forall i :: 0 <= i < |s| ==> s[i].stockItemId != sku
    ensures Count(s, OfSku(sku)) == 0
  {
    if s != [] { NoneOfSku(s[1..], sku); }
  }

  lemma {:induction false} OnePerCount(s: seq<Scored>, sku: int)
    requires OnePer(s)
    ensures Count(s, OfSku(sku)) <= 1
  {
    if s != [] {
      if s[0].stockItemId == sku { NoneOfSku(s[1..], sku); } else { OnePerCount(s[1..], sku); }
    }
  }

  lemma {:induction false} PassSplits(unique: seq<Scored>, n: nat, limit: int, key: Key)
    requires n <= |unique|
    ensures var p := FirstPass(unique, n, limit);
      && Count(p.picked, key) + Count(p.skipped, key) <= Count(unique[..n], key)
      && (|p.picked| < limit ==> |p.picked| + |p.skipped| == n)
      && |p.picked| + |p.skipped| <= n
  {
    if n > 0 {
      PassSplits(unique, n - 1, limit, key);
      var p, s := FirstPass(unique, n - 1, limit), unique[n - 1];
      assert unique[..n] == unique[..n - 1] + [s];
      CountAppend(unique[..n - 1], [s], key);
      CountAppend(p.picked, [s], key);
      CountAppend(p.skipped, [s], key);
    }
  }

  lemma TopUpCount(picked: seq<Scored>, skipped: seq<Scored>, limit: int, key: Key)
    ensures Count(TopUp(picked, skipped, limit), key) <= Count(picked, key) + Count(skipped, key)
  {
    var room := limit - |picked|;
    CountAppend(picked, skipped, key);
    if 0 < room < |skipped| {
      CountAppend(picked, skipped[..room], key);
      CountAppend(skipped[..room], skipped[room..], key);
      assert skipped[..room] + skipped[room..] == skipped;
    }
  }

  function WinnersOf(scored: seq<Scored>, skus: set<int>): seq<Scored> {
    Winners(Sort(scored), |Sort(scored)|, skus)
  }

  /** The winners come out sorted, so the second sort changes nothing. */
  lemma UniqueIsWinners(scored: seq<Scored>, skus: set<int>)
    ensures var w := WinnersOf(scored, skus); Sorted(w) && OnePer(w) && Sort(w) == w
  {
    SortSorts(scored);
    WinnersShape(Sort(scored), |Sort(scored)|, skus);
    SortFixes(WinnersOf(scored, skus));
  }

  /** Nothing is in the final list more often than among the winners. */
  lemma RankedCount(scored: seq<Scored>, skus: set<int>, limit: int, key: Key)
    ensures Count(Ranked(scored, skus, limit), key) <= Count(WinnersOf(scored, skus), key)
  {
    UniqueIsWinners(scored, skus);
    var w := WinnersOf(scored, skus);
    var p := FirstPass(w, |w|, limit);
    PassSplits(w, |w|, limit, key);
    assert w[..|w|] == w;
    TopUpCount(p.picked, p.skipped, limit, key);
    SortCount(TopUp(p.picked, p.skipped, limit), key);
  }

  /** The final list: as long as the limit and the winners allow, sorted, one per SKU, taken from the winners. */
  lemma RankedShape(scored: seq<Scored>, skus: set<int>, limit: int)
    ensures var r, w := Ranked(scored, skus, limit), WinnersOf(scored, skus);
      && |r| == (if limit <= 0 then 0 else if limit < |w| then limit else |w|)
      && Sorted(r) && OnePer(r)
      && forall i :: 0 <= i < |r| ==> r[i] in w
  {
    hide Winners;
    var r, w := Ranked(scored, skus, limit), WinnersOf(scored, skus);
    UniqueIsWinners(scored, skus);
    var p := FirstPass(w, |w|, limit);
    PassSplits(w, |w|, limit, OfSku(0));
    PassCounts(w, |w|, limit, Reorder);
    SortSorts(TopUp(p.picked, p.skipped, limit));
    forall i, k | 0 <= i < k < |r|
      ensures r[i].stockItemId != r[k].stockItemId
    {
      RankedCount(scored, skus, limit, OfSku(r[i].stockItemId));
      OnePerCount(w, r[i].stockItemId);
      if r[i].stockItemId == r[k].stockItemId { CountTwice(r, i, k, OfSku(r[i].stockItemId)); }
    }
    forall i | 0 <= i < |r|
      ensures r[i] in w
    {
      CountHit(r, i, Whole(r[i]));
      RankedCount(scored, skus, limit, Whole(r[i]));
      var k := CountFinds(w, Whole(r[i]));
    }
  }

  // ---- Independence of input order -----------------------------------------------------------------

  ghost predicate Rearranged(a: seq<Scored>, b: seq<Scored>) { forall x :: Count(a, Whole(x)) == Count(b, Whole(x)) }

  ghost predicate DistinctTargets(s: seq<Scored>) { forall kind, id :: Count(s, OfTarget(kind, id)) <= 1 }

  lemma HeadCounts(s: seq<Scored>)
    ensures s != [] ==> Count(s, Whole(s[0])) >= 1
  {}

  /** Two sorted lists of the same suggestions are the same list. */
  lemma {:induction false} SortedUnique(a: seq<Scored>, b: seq<Scored>)
    requires Sorted(a) && Sorted(b) && Rearranged(a, b) && DistinctTargets(a)
    ensures a == b
  {
    if a == [] {
      HeadCounts(b);
    } else {
      CountHit(a, 0, Whole(a[0]));
      assert Count(a, Whole(a[0])) == Count(b, Whole(a[0]));
      var k := CountFinds(b, Whole(a[0]));
      CountHit(b, 0, Whole(b[0]));
      assert Count(a, Whole(b[0])) == Count(b, Whole(b[0]));
      var i := CountFinds(a, Whole(b[0]));
      SameHead(a, b, i, k);
      forall x
        ensures Count(a[1..], Whole(x)) == Count(b[1..], Whole(x))
      {
        assert Count(a, Whole(x)) == Count(b, Whole(x));
      }
      forall kind, id
        ensures Count(a[1..], OfTarget(kind, id)) <= 1
      {
        assert Count(a, OfTarget(kind, id)) <= 1;
      }
      SortedUnique(a[1..], b[1..]);
      assert a == [a[0]] + a[1..] && b == [b[0]] + b[1..];
    }
  }

  lemma SameHead(a: seq<Scored>, b: seq<Scored>, i: nat, k: nat)
    requires Sorted(a) && Sorted(b) && DistinctTargets(a)
    requires i < |a| && k < |b| && a[i] == b[0] && b[k] == a[0]
    ensures a[0] == b[0]
  {
    if i > 0 && k > 0 {
      assert ByScore(a[0], a[i]) <= 0 && ByScore(b[0], b[k]) <= 0;
      var key := OfTarget(a[0].kind, a[0].targetId);
      assert Count(a, key) <= 1;
      if Hit(a[i], key) { CountTwice(a, 0, i, key); }
    }
  }

  lemma ReorderSkusFromScored(c: Candidates, now: int, sku: int)
    ensures sku in ReorderSkus(c) <==> exists i ::
      0 <= i < |AllScored(c, now)| && AllScored(c, now)[i].kind == Reorder && AllScored(c, now)[i].stockItemId == sku
  {
    if sku in ReorderSkus(c) {
      var i :| 0 <= i < |c.reorder| && c.reorder[i].stockItemId == sku;
      assert AllScored(c, now)[i] == ScoreReorder(c.reorder[i], now);
    }
  }

  lemma SkusRearranged(c: Candidates, c': Candidates, now: int, sku: int)
    requires Rearranged(AllScored(c, now), AllScored(c', now)) && sku in ReorderSkus(c)
    ensures sku in ReorderSkus(c')
  {
    hide AllScored, ReorderSkus;
    var a, b := AllScored(c, now), AllScored(c', now);
    ReorderSkusFromScored(c, now, sku);
    ReorderSkusFromScored(c', now, sku);
    var i :| 0 <= i < |a| && a[i].kind == Reorder && a[i].stockItemId == sku;
    CountHit(a, i, Whole(a[i]));
    assert Count(b, Whole(a[i])) == Count(a, Whole(a[i]));
    var k := CountFinds(b, Whole(a[i]));
  }

  /** When (kind, target) keys are distinct the list does not depend on the order of the candidates. */
  lemma OrderIrrelevant(c: Candidates, c': Candidates, now: int, limit: int)
    requires Rearranged(AllScored(c, now), AllScored(c', now)) && DistinctTargets(AllScored(c, now))
    ensures Ranked(AllScored(c, now), ReorderSkus(c), limit) == Ranked(AllScored(c', now), ReorderSkus(c'), limit)
  {
    hide AllScored, ReorderSkus;
    var a, b := AllScored(c, now), AllScored(c', now);
    SortSorts(a);
    SortSorts(b);
    forall key
      ensures Count(Sort(a), key) == Count(a, key) && Count(Sort(b), key) == Count(b, key)
    {
      SortCount(a, key);
      SortCount(b, key);
    }
    SortedUnique(Sort(a), Sort(b));
    forall sku
      ensures sku in ReorderSkus(c) <==> sku in ReorderSkus(c')
    {
      if sku in ReorderSkus(c) { SkusRearranged(c, c', now, sku); }
      if sku in ReorderSkus(c') { SkusRearranged(c', c, now, sku); }
    }
    assert ReorderSkus(c) == ReorderSkus(c');
  }
}

/** Cosine similarity of two vectors over exact reals. Math.sqrt is a parameter of which only its meaning is known. */
module Cosine {
  function Dot(a: seq<real>, b: seq<real>, n: nat): real
    requires n <= |a| && n <= |b|
  {
    if n == 0 then 0.0 else Dot(a, b, n - 1) + a[n - 1] * b[n - 1]
  }

  ghost predicate IsSquareRoot(sqrt: real -> real) { forall x :: x >= 0.0 ==> sqrt(x) >= 0.0 && sqrt(x) * sqrt(x) == x }

  lemma SquareNonNegative(x: real)
    ensures x * x >= 0.0
  {}

  lemma ProductNonNegative(x: real, y: real)
    requires x >= 0.0 && y >= 0.0
    ensures x * y >= 0.0
  {}

  lemma SquareOrder(x: real, y: real)
    requires y >= 0.0 && x * x <= y * y
    ensures x <= y
  {
    if x > y { assert x * x == y * y + (x - y) * (x + y); Positive(x - y, x + y); }
  }

  lemma Positive(x: real, y: real)
    requires x > 0.0 && y > 0.0
    ensures x * y > 0.0
  {}

  /** One more coordinate keeps dot^2 <= normA * normB. */
  lemma OneMore(d: real, p: real, q: real, x: real, y: real)
    requires p >= 0.0 && q >= 0.0 && d * d <= p * q
    ensures (d + x * y) * (d + x * y) <= (p + x * x) * (q + y * y)
  {
    var u, v, w := p * (y * y), q * (x * x), x * y;
    SquareNonNegative(x);
    SquareNonNegative(y);
    ProductNonNegative(p, y * y);
    ProductNonNegative(q, x * x);
    SquareNonNegative(u - v);
    SquareNonNegative(w);
    ProductNonNegative(p * q - d * d, w * w);
    assert u * v == (p * q) * (w * w) by {
      assert w * w == (x * x) * (y * y);
      Exchange(p, y * y, q, x * x);
    }
    assert (u + v) * (u + v) == (u - v) * (u - v) + 4.0 * (u * v);
    assert (p * q) * (w * w) == (d * d) * (w * w) + (p * q - d * d) * (w * w);
    assert (2.0 * (d * w)) * (2.0 * (d * w)) == 4.0 * ((d * d) * (w * w)) by { Exchange(d, w, d, w); }
    SquareOrder(2.0 * (d * w), u + v);
    assert (d + w) * (d + w) == d * d + 2.0 * (d * w) + w * w;
    assert (p + x * x) * (q + y * y) == p * q + u + v + (x * x) * (y * y);
    assert w * w == (x * x) * (y * y);
  }

  lemma Exchange(a: real, b: real, c: real, d: real)
    ensures (a * b) * (c * d) == (a * c) * (b * d)
    ensures (a * b) * (c * d) == (a * c) * (d * b)
  {}

  /** The documented bound: the square of the dot product never exceeds the product of the squared norms, so the
      similarity lies in [-1, 1], for vectors of any length. */
  lemma {:induction false} CauchySchwarz(a: seq<real>, b: seq<real>, n: nat)
    requires n <= |a| && n <= |b|
    ensures Dot(a, a, n) >= 0.0 && Dot(b, b, n) >= 0.0
    ensures Dot(a, b, n) * Dot(a, b, n) <= Dot(a, a, n) * Dot(b, b, n)
  {
    if n > 0 {
      CauchySchwarz(a, b, n - 1);
      SquareNonNegative(a[n - 1]);
      SquareNonNegative(b[n - 1]);
      OneMore(Dot(a, b, n - 1), Dot(a, a, n - 1), Dot(b, b, n - 1), a[n - 1], b[n - 1]);
    }
  }

  lemma RootPositive(sqrt: real -> real, x: real)
    requires IsSquareRoot(sqrt) && x > 0.0
    ensures sqrt(x) > 0.0
  {
    assert sqrt(x) == 0.0 ==> sqrt(x) * sqrt(x) == 0.0;
  }

  function Quotient(x: real, d: real): real
    requires d != 0.0
  {
    x / d
  }

  /** The product of the two lengths, from the squared ones. */
  function Lengths(normA: real, normB: real, sqrt: real -> real): real { sqrt(normA) * sqrt(normB) }

  lemma LengthsAre(normA: real, normB: real, sqrt: real -> real)
    requires IsSquareRoot(sqrt) && normA > 0.0 && normB > 0.0
    ensures var d := Lengths(normA, normB, sqrt);
      d > 0.0 && d * d == normA * normB && (normA == normB ==> d == normA)
  {
    RootPositive(sqrt, normA);
    RootPositive(sqrt, normB);
    Positive(sqrt(normA), sqrt(normB));
    Exchange(sqrt(normA), sqrt(normA), sqrt(normB), sqrt(normB));
  }

  lemma QuotientBounds(dot: real, d: real)
    requires d > 0.0 && dot * dot <= d * d
    ensures -1.0 <= Quotient(dot, d) <= 1.0 && Quotient(dot, d) * d == dot
  {
    assert (-dot) * (-dot) <= d * d;
    SquareOrder(dot, d);
    SquareOrder(-dot, d);
    var r := dot / d;
    assert r * d == dot;
    if r > 1.0 { Positive(r - 1.0, d); }
    if r < -1.0 { Positive(-1.0 - r, d); }
  }

  lemma SimilarityIs(a: seq<real>, b: seq<real>, sqrt: real -> real)
    requires IsSquareRoot(sqrt) && |a| == |b| && Dot(a, a, |a|) != 0.0 && Dot(b, b, |b|) != 0.0
    ensures var dot, d := Dot(a, b, |a|), Lengths(Dot(a, a, |a|), Dot(b, b, |b|), sqrt);
      d > 0.0 && -1.0 <= Quotient(dot, d) <= 1.0 && Quotient(dot, d) * d == dot && (a == b ==> Quotient(dot, d) == 1.0)
  {
    var dot, normA, normB := Dot(a, b, |a|), Dot(a, a, |a|), Dot(b, b, |b|);
    CauchySchwarz(a, b, |a|);
    hide Dot, IsSquareRoot, Lengths;
    LengthsAre(normA, normB, sqrt);
    QuotientBounds(dot, Lengths(normA, normB, sqrt));
  }

  /** The similarity lies in [-1, 1] and is the dot product over both lengths; it is zero when the lengths differ or a
      vector is zero, and one for a vector and itself. */
  method CosineSimilarity(a: seq<real>, b: seq<real>, sqrt: real -> real) returns (r: real)
    requires IsSquareRoot(sqrt)
    ensures -1.0 <= r <= 1.0
    ensures |a| != |b| ==> r == 0.0
    ensures |a| == |b| ==>
      var normA, normB := Dot(a, a, |a|), Dot(b, b, |b|);
      if normA == 0.0 || normB == 0.0 then r == 0.0 else r * Lengths(normA, normB, sqrt) == Dot(a, b, |a|)
    ensures a == b && Dot(a, a, |a|) != 0.0 ==> r == 1.0
  {
    hide IsSquareRoot, Lengths, Quotient;
    if |a| == 0 || |a| != |b| { return 0.0; }
    var dotProduct, normA, normB := 0.0, 0.0, 0.0;
    for i := 0 to |a|
      invariant dotProduct == Dot(a, b, i) && normA == Dot(a, a, i) && normB == Dot(b, b, i)
    {
      var x, y := a[i], b[i];
      dotProduct := dotProduct + x * y;
      normA := normA + x * x;
      normB := normB + y * y;
    }
    if normA == 0.0 || normB == 0.0 { return 0.0; }
    SimilarityIs(a, b, sqrt);
    r := Quotient(dotProduct, Lengths(normA, normB, sqrt));
  }
}

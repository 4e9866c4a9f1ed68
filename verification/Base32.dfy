/** Base32 of section 6 of RFC 4648, unpadded, as the TOTP service encodes and decodes it: an accumulator of 32 bits
    that is shifted and never masked. Bytes and symbol values are numbers. */
module Base32 {
  import opened Options

  const ALPHABET := "ABCDEFGHIJKLMNOPQRSTUVWXYZ234567"
  const WORD := 0x1_0000_0000

  // ---- Division and powers -------------------------------------------------------------------------------

  /** Division with the remainder, by name, so that proofs can do without their definitions. */
  function Quot(v: nat, d: nat): nat
    requires d >= 1
  {
    v / d
  }

  function Rem(v: nat, d: nat): (r: nat)
    requires d >= 1
  {
    v % d
  }

  lemma Divided(v: nat, d: nat)
    requires d >= 1
    ensures Quot(v, d) * d + Rem(v, d) == v && Rem(v, d) < d
  {}

  lemma Distribute(a: int, b: int, d: int)
    ensures (a - b) * d == a * d - b * d
  {}

  lemma AddUp(a: nat, b: nat, d: nat)
    ensures (a + b) * d == a * d + b * d
  {}

  lemma AtLeast(x: int, d: int)
    requires x >= 1 && d >= 1
    ensures x * d >= d
  {}

  lemma MulLe(a: nat, b: nat, c: nat)
    requires a <= b
    ensures a * c <= b * c
  {}

  lemma Regroup(a: nat, b: nat, c: nat)
    ensures a * b * c == a * (b * c) == a * c * b
  {}

  /** The only way to split a number by a divisor. */
  lemma Split(v: nat, d: nat, q: nat, r: nat)
    requires v == q * d + r && r < d
    ensures Quot(v, d) == q && Rem(v, d) == r
  {
    Divided(v, d);
    var q', r' := Quot(v, d), Rem(v, d);
    Distribute(q, q', d);
    Distribute(q', q, d);
    if q' < q { AtLeast(q - q', d); }
    if q' > q { AtLeast(q' - q, d); }
  }

  lemma Smaller(v: nat, d: nat, bound: nat)
    requires d >= 1 && v < bound * d
    ensures Quot(v, d) < bound
  {
    hide Quot, Rem;
    Divided(v, d);
    if Quot(v, d) >= bound { MulLe(bound, Quot(v, d), d); }
  }

  /** Dividing twice is dividing by the product. */
  lemma QuotQuot(v: nat, a: nat, b: nat)
    requires a >= 1 && b >= 1
    ensures a * b >= 1 && Quot(Quot(v, a), b) == Quot(v, a * b)
  {
    hide Quot, Rem;
    AtLeast(a, b);
    Divided(v, a);
    var x := Quot(v, a);
    Divided(x, b);
    var q, r := Quot(x, b), Rem(x, b);
    calc {
      v;
      (q * b + r) * a + Rem(v, a);
      == { AddUp(q * b, r, a); }
      q * b * a + r * a + Rem(v, a);
      == { Regroup(q, b, a); Regroup(q, a, b); }
      q * (a * b) + (r * a + Rem(v, a));
    }
    MulLe(r + 1, b, a);
    AddUp(r, 1, a);
    Split(v, a * b, q, r * a + Rem(v, a));
  }

  /** A digit below b, shifted in, does not reach what lies above. */
  lemma ShiftInBy(v: nat, a: nat, b: nat, digit: nat)
    requires a >= 1 && b >= 1 && digit < b
    ensures a * b >= 1 && Quot(v * b + digit, a * b) == Quot(v, a)
  {
    hide Quot, Rem;
    AtLeast(a, b);
    Divided(v, a);
    var q, r := Quot(v, a), Rem(v, a);
    calc {
      v * b + digit;
      (q * a + r) * b + digit;
      == { AddUp(q * a, r, b); }
      q * a * b + r * b + digit;
      == { Regroup(q, a, b); }
      q * (a * b) + (r * b + digit);
    }
    MulLe(r + 1, a, b);
    AddUp(r, 1, b);
    Split(v * b + digit, a * b, q, r * b + digit);
  }

  function Pow2(k: nat): (p: nat)
    ensures p >= 1
  {
    if k == 0 then 1 else 2 * Pow2(k - 1)
  }

  lemma {:induction false} Pow2Split(a: nat, b: nat)
    ensures Pow2(a + b) == Pow2(a) * Pow2(b)
  {
    if b > 0 { Pow2Split(a, b - 1); }
  }

  lemma SmallPowers()
    ensures Pow2(0) == 1 && Pow2(1) == 2 && Pow2(2) == 4 && Pow2(3) == 8 && Pow2(4) == 16 && Pow2(5) == 32
    ensures Pow2(6) == 64 && Pow2(7) == 128 && Pow2(8) == 256
  {
    assert Pow2(4) == 2 * Pow2(3) && Pow2(2) == 2 * Pow2(1) && Pow2(6) == 2 * Pow2(5) && Pow2(8) == 2 * Pow2(7);
  }

  lemma Pow2Word()
    ensures Pow2(32) == WORD
  {
    SmallPowers();
    hide Pow2;
    Pow2Split(8, 8);
    Pow2Split(16, 16);
  }

  function Power(radix: nat, len: nat): nat { if len == 0 then 1 else Power(radix, len - 1) * radix }

  lemma {:induction false} PowerIs(k: nat, len: nat)
    ensures Power(Pow2(k), len) == Pow2(k * len)
  {
    if len == 0 {
      assert k * len == 0;
    } else {
      PowerIs(k, len - 1);
      assert k * (len - 1) + k == k * len;
      Pow2Split(k * (len - 1), k);
    }
  }

  // ---- Positional notation -------------------------------------------------------------------------------

  predicate Below(ds: seq<nat>, radix: nat) { forall i :: 0 <= i < |ds| ==> ds[i] < radix }

  function Value(ds: seq<nat>, radix: nat): nat {
    if ds == [] then 0 else Value(ds[..|ds| - 1], radix) * radix + ds[|ds| - 1]
  }

  lemma ValueSnoc(ds: seq<nat>, d: nat, radix: nat)
    ensures Value(ds + [d], radix) == Value(ds, radix) * radix + d
  {
    assert (ds + [d])[..|ds|] == ds;
  }

  /** The lowest `len` digits of a number, highest first. */
  function Digits(v: nat, radix: nat, len: nat): (ds: seq<nat>)
    requires radix >= 1
    ensures |ds| == len && forall i :: 0 <= i < len ==> ds[i] < radix
  {
    if len == 0 then [] else Digits(Quot(v, radix), radix, len - 1) + [Rem(v, radix)]
  }

  lemma {:induction false} DigitsOfValue(ds: seq<nat>, radix: nat)
    requires radix >= 1 && Below(ds, radix)
    ensures Digits(Value(ds, radix), radix, |ds|) == ds
  {
    if ds != [] {
      hide Quot, Rem;
      var init, last := ds[..|ds| - 1], ds[|ds| - 1];
      DigitsOfValue(init, radix);
      Split(Value(init, radix) * radix + last, radix, Value(init, radix), last);
      assert ds == init + [last];
    }
  }

  lemma {:induction false} ValueOfDigits(v: nat, radix: nat, len: nat)
    requires radix >= 1 && v < Power(radix, len)
    ensures Value(Digits(v, radix, len), radix) == v
    decreases len
  {
    hide Quot, Rem;
    if len > 0 {
      Smaller(v, radix, Power(radix, len - 1));
      ValueOfDigits(Quot(v, radix), radix, len - 1);
      ValueSnoc(Digits(Quot(v, radix), radix, len - 1), Rem(v, radix), radix);
      Divided(v, radix);
    }
  }

  lemma {:induction false} ValueBound(ds: seq<nat>, radix: nat)
    requires Below(ds, radix)
    ensures Value(ds, radix) < Power(radix, |ds|)
  {
    if ds != [] {
      var init := ds[..|ds| - 1];
      ValueBound(init, radix);
      MulLe(Value(init, radix) + 1, Power(radix, |init|), radix);
      Distribute(Value(init, radix), -1, radix);
    }
  }

  /** A digit more: the number one place further down. */
  lemma NextDigit(w: nat, x: nat, radix: nat, ds: seq<nat>)
    requires radix >= 1 && Quot(w, radix) == x && ds == Digits(x, radix, |ds|)
    ensures ds + [Rem(w, radix)] == Digits(w, radix, |ds| + 1)
  {
    hide Quot, Rem;
  }

  // ---- The encoding as arithmetic ------------------------------------------------------------------------

  function SymbolCount(n: nat): nat { (8 * n + 4) / 5 }

  /** Zero bits that fill the last symbol. */
  function Pad(n: nat): (p: nat)
    ensures p < 5
  {
    5 * SymbolCount(n) - 8 * n
  }

  /** The bytes with zero bits behind them, as one number. */
  function Padded(bytes: seq<nat>): nat { Value(bytes, 256) * Pow2(Pad(|bytes|)) }

  function EncodedSymbols(bytes: seq<nat>): (ds: seq<nat>)
    ensures |ds| == SymbolCount(|bytes|) && Below(ds, 32)
  {
    Digits(Padded(bytes), 32, SymbolCount(|bytes|))
  }

  function DecodedBytes(symbols: seq<nat>): (ds: seq<nat>)
    ensures |ds| == 5 * |symbols| / 8 && Below(ds, 256)
  {
    Digits(Quot(Value(symbols, 32), Pow2(5 * |symbols| % 8)), 256, 5 * |symbols| / 8)
  }

  lemma MulLess(a: nat, b: nat, c: nat)
    requires a < b && c >= 1
    ensures a * c < b * c
  {}

  lemma Lengths(m: nat)
    ensures var n, p := 5 * m / 8, 5 * m % 8;
      5 * m == 8 * n + p && (p < 5 ==> SymbolCount(n) == m && Pad(n) == p) && (p >= 5 ==> SymbolCount(n) < m)
  {}

  lemma CountsFit(n: nat)
    ensures var m, p := SymbolCount(n), Pad(n); 8 * n + p == 5 * m && 5 * m / 8 == n && 5 * m % 8 == p
  {}

  /** Decoding undoes encoding, for every sequence of bytes. */
  lemma DecodeEncode(bytes: seq<nat>)
    requires Below(bytes, 256)
    ensures DecodedBytes(EncodedSymbols(bytes)) == bytes
  {
    var n, m, p := |bytes|, SymbolCount(|bytes|), Pad(|bytes|);
    CountsFit(n);
    SmallPowers();
    hide Pow2, Power, Value, Digits, Quot, Rem, SymbolCount, Pad, Padded;
    PaddedFits(bytes);
    ValueOfDigits(Padded(bytes), 32, m);
    PaddedBack(bytes);
    DigitsOfValue(bytes, 256);
  }

  lemma PaddedBack(bytes: seq<nat>)
    ensures Quot(Padded(bytes), Pow2(Pad(|bytes|))) == Value(bytes, 256)
  {
    hide Pow2, Value, Pad, Quot, Rem;
    Split(Padded(bytes), Pow2(Pad(|bytes|)), Value(bytes, 256), 0);
  }

  lemma ScaledLess(v: nat, a: nat, p: nat)
    requires v < Pow2(a)
    ensures v * Pow2(p) < Pow2(a + p)
  {
    hide Pow2;
    Pow2Split(a, p);
    MulLess(v, Pow2(a), Pow2(p));
  }

  /** The bytes and their padding as a number of as many symbols. */
  lemma PaddedFits(bytes: seq<nat>)
    requires Below(bytes, 256)
    ensures Padded(bytes) < Power(32, SymbolCount(|bytes|))
  {
    var n, m, p := |bytes|, SymbolCount(|bytes|), Pad(|bytes|);
    CountsFit(n);
    SmallPowers();
    hide Pow2, Power, Value, SymbolCount, Pad;
    ValueBound(bytes, 256);
    PowerIs(8, n);
    PowerIs(5, m);
    ScaledLess(Value(bytes, 256), 8 * n, p);
  }

  /** The strings that an encoder produces: their bits beyond the last whole byte are fewer than a symbol and zero. */
  predicate Canonical(symbols: seq<nat>) {
    5 * |symbols| % 8 < 5 && Rem(Value(symbols, 32), Pow2(5 * |symbols| % 8)) == 0
  }

  lemma Truncated(v: nat, m: nat, n: nat, p: nat)
    requires v < Pow2(5 * m) && 5 * m == 8 * n + p
    ensures Quot(v, Pow2(p)) < Pow2(8 * n) && Quot(v, Pow2(p)) * Pow2(p) + Rem(v, Pow2(p)) == v
  {
    hide Pow2, Quot, Rem;
    Pow2Split(8 * n, p);
    Smaller(v, Pow2(p), Pow2(8 * n));
    Divided(v, Pow2(p));
  }

  /** Encoding what was decoded gives the number without its last bits. */
  lemma Reencoded(symbols: seq<nat>, n: nat, p: nat)
    requires Below(symbols, 32) && n == 5 * |symbols| / 8 && p == 5 * |symbols| % 8 && p < 5
    ensures var v := Value(symbols, 32);
      && EncodedSymbols(DecodedBytes(symbols)) == Digits(Quot(v, Pow2(p)) * Pow2(p), 32, |symbols|)
      && Quot(v, Pow2(p)) * Pow2(p) + Rem(v, Pow2(p)) == v < Pow2(5 * |symbols|)
  {
    SmallPowers();
    hide Pow2, Digits, Value, SymbolCount, Pad, Quot, Rem, Power;
    var m := |symbols|;
    var v := Value(symbols, 32);
    Lengths(m);
    ValueBound(symbols, 32);
    PowerIs(5, m);
    PowerIs(8, n);
    Truncated(v, m, n, p);
    ValueOfDigits(Quot(v, Pow2(p)), 256, n);
    assert Value(DecodedBytes(symbols), 256) == Quot(v, Pow2(p));
  }

  /** Encoding undoes decoding exactly on the canonical strings. */
  lemma EncodeDecodeIff(symbols: seq<nat>)
    requires Below(symbols, 32)
    ensures EncodedSymbols(DecodedBytes(symbols)) == symbols <==> Canonical(symbols)
  {
    var m, n, p := |symbols|, 5 * |symbols| / 8, 5 * |symbols| % 8;
    var v := Value(symbols, 32);
    assert |EncodedSymbols(DecodedBytes(symbols))| == SymbolCount(n);
    SmallPowers();
    Lengths(m);
    hide Pow2, Digits, Value, EncodedSymbols, DecodedBytes, SymbolCount, Pad, Quot, Rem, Power;
    if p < 5 {
      Reencoded(symbols, n, p);
      DigitsOfValue(symbols, 32);
      PowerIs(5, m);
      ValueOfDigits(Quot(v, Pow2(p)) * Pow2(p), 32, m);
      ValueOfDigits(v, 32, m);
    }
  }

  // ---- The 32-bit word -------------------------------------------------------------------------------------

  function SymbolText(symbols: seq<nat>): (s: string)
    requires Below(symbols, 32)
    ensures |s| == |symbols| && forall i :: 0 <= i < |s| ==> s[i] == ALPHABET[symbols[i]]
  {
    if symbols == [] then [] else SymbolText(symbols[..|symbols| - 1]) + [ALPHABET[symbols[|symbols| - 1]]]
  }

  lemma TextSnoc(symbols: seq<nat>, d: nat)
    requires Below(symbols, 32) && d < 32
    ensures Below(symbols + [d], 32) && SymbolText(symbols + [d]) == SymbolText(symbols) + [ALPHABET[d]]
  {
    assert (symbols + [d])[..|symbols|] == symbols;
  }

  lemma Factor(q: nat, x: nat, r: nat, a: nat, bc: nat)
    ensures q * (a * bc) + (x * a + r) == (q * bc + x) * a + r
  {
    Regroup(q, a, bc);
    Regroup(q, bc, a);
    AddUp(q * bc, x, a);
  }

  /** Numbers that agree below a * b * c agree on the digit to base b above a. */
  lemma ShiftedAgrees(value: nat, v: nat, q: nat, a: nat, b: nat, c: nat)
    requires a >= 1 && b >= 1 && v == q * (a * (b * c)) + value
    ensures Rem(Quot(value, a), b) == Rem(Quot(v, a), b)
  {
    hide Quot, Rem;
    var x := Quot(value, a);
    Divided(value, a);
    Factor(q, x, Rem(value, a), a, b * c);
    Split(v, a, q * (b * c) + x, Rem(value, a));
    var y := Quot(x, b);
    Divided(x, b);
    Factor(q, y, Rem(x, b), b, c);
    Split(q * (b * c) + x, b, q * c + y, Rem(x, b));
  }

  /** One digit out of the word, shifted by k bits: the next digit of the unbounded number. */
  lemma DigitOut(v: nat, value: nat, k: nat, d: nat, radix: nat, ds: seq<nat>)
    requires k <= 7 && d <= 8 && radix == Pow2(d)
    requires value == Rem(v, WORD) && ds == Digits(Quot(v, Pow2(k + d)), radix, |ds|)
    ensures Rem(Quot(value, Pow2(k)), radix) == Rem(Quot(v, Pow2(k)), radix)
    ensures ds + [Rem(Quot(v, Pow2(k)), radix)] == Digits(Quot(v, Pow2(k)), radix, |ds| + 1)
  {
    hide Pow2, Digits, Quot, Rem;
    var a, rest := Pow2(k), Pow2(32 - k - d);
    Pow2Split(k, d);
    Pow2Split(k + d, 32 - k - d);
    Pow2Word();
    Regroup(a, radix, rest);
    Divided(v, WORD);
    ShiftedAgrees(value, v, Quot(v, WORD), a, radix, rest);
    QuotQuot(v, a, radix);
    NextDigit(Quot(v, a), Quot(v, Pow2(k + d)), radix, ds);
  }

  lemma WordIn(before: nat, value: nat, b: nat, digit: nat)
    requires value == Rem(before, WORD)
    ensures Rem(value * b + digit, WORD) == Rem(before * b + digit, WORD)
  {
    hide Quot, Rem;
    var q := Quot(before, WORD);
    Divided(before, WORD);
    var x := value * b + digit;
    Divided(x, WORD);
    AddUp(q * WORD, value, b);
    Regroup(q, WORD, b);
    AddUp(q * b, Quot(x, WORD), WORD);
    Split(before * b + digit, WORD, q * b + Quot(x, WORD), Rem(x, WORD));
  }

  /** A digit into the word and into the unbounded number. */
  lemma DigitIn(before: nat, value: nat, k: nat, radix: nat, bits: nat, digit: nat)
    requires value == Rem(before, WORD) && radix == Pow2(k) && digit < radix
    ensures Rem(value * radix + digit, WORD) == Rem(before * radix + digit, WORD)
    ensures Quot(before * radix + digit, Pow2(bits + k)) == Quot(before, Pow2(bits))
  {
    hide Pow2, Quot, Rem;
    Pow2Split(bits, k);
    ShiftInBy(before, Pow2(bits), radix, digit);
    WordIn(before, value, radix, digit);
  }

  lemma Multiple32(w: nat)
    ensures Rem(Rem(w, WORD), 32) == Rem(w, 32)
  {
    hide Quot, Rem;
    Divided(w, WORD);
    var r := Rem(w, WORD);
    Divided(r, 32);
    Split(w, 32, Quot(w, WORD) * 0x800_0000 + Quot(r, 32), Rem(r, 32));
  }

  /** The filled-up last symbol: the rest of the number shifted left. */
  lemma LastSymbol(value: nat, v: nat, bits: nat, shift: nat)
    requires value == Rem(v, WORD) && 0 < bits < 5 && shift == Pow2(5 - bits)
    ensures Rem(Rem(value * shift, WORD), 32) == Rem(v * shift, 32)
    ensures Quot(v * shift, 32) == Quot(v, Pow2(bits))
  {
    SmallPowers();
    hide Pow2, Quot, Rem;
    WordIn(v, value, shift, 0);
    Multiple32(value * shift);
    Multiple32(v * shift);
    Pow2Split(bits, 5 - bits);
    ShiftInBy(v, Pow2(bits), shift, 0);
  }

  // ---- The loops --------------------------------------------------------------------------------------------

  method Base32Encode(buffer: seq<nat>) returns (output: string)
    requires Below(buffer, 256)
    ensures output == SymbolText(EncodedSymbols(buffer))
  {
    SmallPowers();
    NoDigits();
    hide Pow2, Digits, SymbolText, EncodedSymbols, Quot, Rem;
    var bits, value := 0, 0;
    output := "";
    ghost var symbols: seq<nat> := [];
    for i := 0 to |buffer|
      invariant 0 <= bits < 5 && 8 * i == 5 * |symbols| + bits
      invariant value == Rem(Value(buffer[..i], 256), WORD)
      invariant Below(symbols, 32) && output == SymbolText(symbols)
      invariant symbols == Digits(Quot(Value(buffer[..i], 256), Pow2(bits)), 32, |symbols|)
    {
      assert buffer[..i + 1][..i] == buffer[..i];
      DigitIn(Value(buffer[..i], 256), value, 8, 256, bits, buffer[i]);
      value := Rem(value * 256 + buffer[i], WORD);
      bits := bits + 8;
      bits, output, symbols := EmitSymbols(value, bits, output, Value(buffer[..i + 1], 256), symbols);
    }
    assert buffer[..|buffer|] == buffer;
    if bits > 0 {
      ghost var v := Value(buffer, 256);
      var shift := Pow2(5 - bits);
      LastSymbol(value, v, bits, shift);
      NextDigit(v * shift, Quot(v, Pow2(bits)), 32, symbols);
      LowDigit(v * shift);
      TextSnoc(symbols, Rem(v * shift, 32));
      output := output + [ALPHABET[Rem(Rem(value * shift, WORD), 32)]];
      EncodedIs(buffer, 5 - bits, |symbols| + 1);
    } else {
      EncodedIs(buffer, 0, |symbols|);
    }
  }

  lemma LowDigit(w: nat)
    ensures Rem(w, 32) < 32
  {}

  lemma NoDigits()
    ensures SymbolText([]) == "" && Value([], 256) == Value([], 32) == 0 && Rem(0, WORD) == 0
    ensures Digits(Quot(0, Pow2(0)), 32, 0) == Digits(Quot(0, Pow2(0)), 256, 0) == []
  {}

  lemma EncodedIs(buffer: seq<nat>, pad: nat, count: nat)
    requires 5 * count == 8 * |buffer| + pad && pad < 5
    ensures EncodedSymbols(buffer) == Digits(Value(buffer, 256) * Pow2(pad), 32, count)
    ensures pad == 0 ==> EncodedSymbols(buffer) == Digits(Quot(Value(buffer, 256), Pow2(0)), 32, count)
  {
    SmallPowers();
    hide Digits, Value;
    assert SymbolCount(|buffer|) == count && Pad(|buffer|) == pad;
  }

  /** The inner loop: symbols out of the word while it holds five bits or more. */
  method EmitSymbols(value: nat, bits0: nat, output0: string, ghost v: nat, ghost symbols0: seq<nat>)
    returns (bits: nat, output: string, ghost symbols: seq<nat>)
    requires bits0 <= 12 && value == Rem(v, WORD) && Below(symbols0, 32) && output0 == SymbolText(symbols0)
    requires symbols0 == Digits(Quot(v, Pow2(bits0)), 32, |symbols0|)
    ensures bits < 5 && 5 * |symbols| + bits == 5 * |symbols0| + bits0
    ensures Below(symbols, 32) && output == SymbolText(symbols) && symbols == Digits(Quot(v, Pow2(bits)), 32, |symbols|)
  {
    SmallPowers();
    hide Pow2, Digits, SymbolText, Quot, Rem;
    bits, output, symbols := bits0, output0, symbols0;
    while bits >= 5
      invariant bits <= 12 && 5 * |symbols| + bits == 5 * |symbols0| + bits0
      invariant Below(symbols, 32) && output == SymbolText(symbols)
      invariant symbols == Digits(Quot(v, Pow2(bits)), 32, |symbols|)
    {
      DigitOut(v, value, bits - 5, 5, 32, symbols);
      LowDigit(Quot(v, Pow2(bits - 5)));
      TextSnoc(symbols, Rem(Quot(v, Pow2(bits - 5)), 32));
      output := output + [ALPHABET[Rem(Quot(value, Pow2(bits - 5)), 32)]];
      symbols := symbols + [Rem(Quot(v, Pow2(bits - 5)), 32)];
      bits := bits - 5;
    }
  }

  // ---- Decoding text --------------------------------------------------------------------------------------

  function IndexOf(c: char): (r: Option<nat>)
    ensures r.Some? ==> r.value < 32
  {
    if 'A' <= c <= 'Z' then Some(c as nat - 'A' as nat)
      else if '2' <= c <= '7' then Some(26 + (c as nat - '2' as nat)) else None
  }

  function ToUpper(c: char): char { if 'a' <= c <= 'z' then ((c as int - 'a' as int) + 'A' as int) as char else c }

  predicate IsSpace(c: char) { c == ' ' || '\t' <= c <= '\r' }

  /** Upper case, without '=' at the end and then without white space. */
  function Upper(s: string): (r: string)
    ensures |r| == |s|
  {
    if s == [] then [] else Upper(s[..|s| - 1]) + [ToUpper(s[|s| - 1])]
  }

  function StripPadding(s: string): string { if s != [] && s[|s| - 1] == '=' then StripPadding(s[..|s| - 1]) else s }

  function WithoutSpace(s: string): string {
    if s == [] then [] else WithoutSpace(s[..|s| - 1]) + (if IsSpace(s[|s| - 1]) then [] else [s[|s| - 1]])
  }

  function Clean(s: string): string { WithoutSpace(StripPadding(Upper(s))) }

  function SymbolsOf(clean: string): (r: Option<seq<nat>>)
    ensures r.Some? ==> |r.value| == |clean| && Below(r.value, 32)
  {
    if clean == [] then Some([]) else
    match SymbolsOf(clean[..|clean| - 1])
    case None => None
    case Some(before) =>
      match IndexOf(clean[|clean| - 1])
      case None => None
      case Some(index) => Some(before + [index])
  }

  function Decoded(input: string): Option<seq<nat>> {
    match SymbolsOf(Clean(input)) case None => None case Some(symbols) => Some(DecodedBytes(symbols))
  }

  lemma {:induction false} BadPrefix(clean: string, n: nat)
    requires n <= |clean| && SymbolsOf(clean[..n]).None?
    ensures SymbolsOf(clean).None?
    decreases |clean|
  {
    if n < |clean| {
      assert clean[..|clean| - 1][..n] == clean[..n];
      BadPrefix(clean[..|clean| - 1], n);
    } else {
      assert clean[..n] == clean;
    }
  }

  method EmitByte(value: nat, bits0: nat, bytes0: seq<nat>, ghost v: nat) returns (bits: nat, bytes: seq<nat>)
    requires bits0 <= 12 && value == Rem(v, WORD) && bytes0 == Digits(Quot(v, Pow2(bits0)), 256, |bytes0|)
    ensures bits < 8 && 8 * |bytes| + bits == 8 * |bytes0| + bits0
    ensures bytes == Digits(Quot(v, Pow2(bits)), 256, |bytes|)
  {
    SmallPowers();
    hide Pow2, Digits, Quot, Rem;
    bits, bytes := bits0, bytes0;
    if bits >= 8 {
      DigitOut(v, value, bits - 8, 8, 256, bytes);
      bytes := bytes + [Rem(Quot(value, Pow2(bits - 8)), 256)];
      bits := bits - 8;
    }
  }

  method Base32Decode(input: string) returns (r: Option<seq<nat>>)
    ensures r == Decoded(input)
  {
    SmallPowers();
    NoDigits();
    hide Pow2, Digits, Value, Clean, Quot, Rem;
    var clean := Clean(input);
    var bits, value := 0, 0;
    var bytes: seq<nat> := [];
    ghost var symbols: seq<nat> := [];
    for i := 0 to |clean|
      invariant SymbolsOf(clean[..i]) == Some(symbols) && |symbols| == i
      invariant 0 <= bits < 8 && 5 * i == 8 * |bytes| + bits
      invariant value == Rem(Value(symbols, 32), WORD)
      invariant bytes == Digits(Quot(Value(symbols, 32), Pow2(bits)), 256, |bytes|)
    {
      assert clean[..i + 1][..i] == clean[..i];
      var index := IndexOf(clean[i]);
      if index.None? {
        BadPrefix(clean, i + 1);
        return None;
      }
      ValueSnoc(symbols, index.value, 32);
      DigitIn(Value(symbols, 32), value, 5, 32, bits, index.value);
      symbols := symbols + [index.value];
      value := Rem(value * 32 + index.value, WORD);
      bits := bits + 5;
      bits, bytes := EmitByte(value, bits, bytes, Value(symbols, 32));
    }
    assert clean[..|clean|] == clean;
    r := Some(bytes);
    assert |bytes| == 5 * |symbols| / 8 && bits == 5 * |symbols| % 8;
  }

  // ---- Text round trip --------------------------------------------------------------------------------------

  lemma SymbolsSnoc(s: string, c: char)
    ensures SymbolsOf(s + [c])
      == if SymbolsOf(s).Some? && IndexOf(c).Some? then Some(SymbolsOf(s).value + [IndexOf(c).value]) else None
  {
    hide IndexOf;
    assert (s + [c])[..|s|] == s;
  }

  lemma {:induction false} SymbolsOfText(symbols: seq<nat>)
    requires Below(symbols, 32)
    ensures SymbolsOf(SymbolText(symbols)) == Some(symbols)
  {
    if symbols != [] {
      hide SymbolsOf, SymbolText, IndexOf;
      var init, last := symbols[..|symbols| - 1], symbols[|symbols| - 1];
      assert init + [last] == symbols;
      SymbolsOfText(init);
      TextSnoc(init, last);
      AlphabetIndex(last);
      SymbolsSnoc(SymbolText(init), ALPHABET[last]);
    }
  }

  lemma LetterAt(d: nat)
    requires d < 32
    ensures d < 26 ==> ALPHABET[d] == ('A' as int + d) as char
    ensures d >= 26 ==> ALPHABET[d] == ('2' as int + (d - 26)) as char
  {}

  lemma AlphabetIndex(d: nat)
    requires d < 32
    ensures IndexOf(ALPHABET[d]) == Some(d) && ToUpper(ALPHABET[d]) == ALPHABET[d] && ALPHABET[d] != '='
      && !IsSpace(ALPHABET[d])
  {
    LetterAt(d);
  }

  /** Encoder output needs no cleaning. */
  lemma {:induction false} PlainText(symbols: seq<nat>)
    requires Below(symbols, 32)
    ensures Upper(SymbolText(symbols)) == SymbolText(symbols) == StripPadding(SymbolText(symbols))
      == WithoutSpace(SymbolText(symbols))
  {
    if symbols != [] {
      var init := symbols[..|symbols| - 1];
      PlainText(init);
      AlphabetIndex(symbols[|symbols| - 1]);
      assert SymbolText(symbols)[..|symbols| - 1] == SymbolText(init);
    }
  }

  /** base32Decode(base32Encode(b)) is b, and the text has ceil(8n/5) symbols of the alphabet. */
  lemma TextRoundTrip(buffer: seq<nat>)
    requires Below(buffer, 256)
    ensures Decoded(SymbolText(EncodedSymbols(buffer))) == Some(buffer)
    ensures var text := SymbolText(EncodedSymbols(buffer));
      5 * |text| >= 8 * |buffer| > 5 * (|text| - 1) && forall i :: 0 <= i < |text| ==> text[i] in ALPHABET
  {
    var symbols := EncodedSymbols(buffer);
    SymbolsOfText(symbols);
    PlainText(symbols);
    DecodeEncode(buffer);
    assert |SymbolText(symbols)| == |symbols| == SymbolCount(|buffer|) && Below(symbols, 32);
    forall i | 0 <= i < |symbols|
      ensures SymbolText(symbols)[i] in ALPHABET
    {
      assert SymbolText(symbols)[i] == ALPHABET[symbols[i]];
      Member(ALPHABET, symbols[i]);
    }
  }

  lemma Member(s: string, i: nat)
    requires i < |s|
    ensures s[i] in s
  {}
}

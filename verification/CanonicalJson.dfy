/** canonicalJsonStringify: JSON printed with the keys of every object sorted.

  Strings are sequences of UTF-16 code units, as in JavaScript. A number is kept as the lexeme
  JSON.stringify prints for it; two numbers are the same value here iff their lexemes are the same.
  `undefined` is not a JSON value and does not occur.
 */
module CanonicalJson {
  import opened Options

  type Unit = n: nat | n < 0x10000
  type Text = seq<Unit>

  datatype Pair<T> = Pair(key: Text, value: T)

  datatype Json =
    | Null
    | Bool(b: bool)
    | Num(lexeme: Text)
    | Str(chars: Text)
    | Arr(items: seq<Json>)
    | Obj(fields: seq<Pair<Json>>)

  const QUOTE: Unit := 34
  const BACKSLASH: Unit := 92
  const COMMA: Unit := 44
  const COLON: Unit := 58
  const OPEN_BRACKET: Unit := 91
  const CLOSE_BRACKET: Unit := 93
  const OPEN_BRACE: Unit := 123
  const CLOSE_BRACE: Unit := 125
  const LOWER_U: Unit := 117

  const NULL_TEXT: Text := [110, 117, 108, 108]
  const TRUE_TEXT: Text := [116, 114, 117, 101]
  const FALSE_TEXT: Text := [102, 97, 108, 115, 101]

  /** Digits, sign, point and exponent marks. */
  predicate NumberUnit(c: Unit) {
    (48 <= c <= 57) || c == 43 || c == 45 || c == 46 || c == 69 || c == 101
  }

  // ---- Quoting, by QuoteJSONString of ECMA-262 section 25.5.2.2 ------------------------------------

  function HexDigit(d: nat): Unit
    requires d < 16
  {
    if d < 10 then 48 + d else 87 + d
  }

  /** The six units of a \u escape. */
  function Hex4(c: Unit): Text {
    [BACKSLASH, LOWER_U, HexDigit(c / 4096), HexDigit(c / 256 % 16), HexDigit(c / 16 % 16), HexDigit(c % 16)]
  }

  predicate HighSurrogate(c: Unit) { 0xD800 <= c <= 0xDBFF }
  predicate LowSurrogate(c: Unit) { 0xDC00 <= c <= 0xDFFF }

  /** Surrogates are the units whose top six bits are 110110 and 110111; a number is written in the characters of
      JSON numbers. */
  lemma UnitsAre(c: Unit)
    ensures HighSurrogate(c) <==> c / 1024 == 0x36
    ensures LowSurrogate(c) <==> c / 1024 == 0x37
    ensures NumberUnit(c) <==> exists i :: 0 <= i < 15 && "0123456789+-.eE"[i] as nat == c
  {
    var chars := "0123456789+-.eE";
    assert forall i :: 0 <= i < 10 ==> chars[i] as nat == 48 + i;
    if 48 <= c <= 57 { assert chars[c - 48] as nat == c; }
    assert chars[10] as nat == 43 && chars[11] as nat == 45 && chars[12] as nat == 46;
    assert chars[13] as nat == 101 && chars[14] as nat == 69;
  }

  /** The short escapes \b \t \n \f \r \" \\, or 0. */
  function ShortEscape(c: Unit): Unit {
    if c == 8 then 98 else if c == 9 then 116 else if c == 10 then 110 else if c == 12 then 102
    else if c == 13 then 114 else if c == QUOTE || c == BACKSLASH then c else 0
  }

  function Escaped(c: Unit): Text {
    if ShortEscape(c) != 0 then [BACKSLASH, ShortEscape(c)]
    else if c < 32 || HighSurrogate(c) || LowSurrogate(c) then Hex4(c)
    else [c]
  }

  /** The characters of a string literal; a surrogate pair is printed as it is, a lone surrogate escaped. */
  function QuotedChars(s: Text): Text {
    if s == [] then []
    else if |s| >= 2 && HighSurrogate(s[0]) && LowSurrogate(s[1]) then s[..2] + QuotedChars(s[2..])
    else Escaped(s[0]) + QuotedChars(s[1..])
  }

  function Quoted(s: Text): Text {
    [QUOTE] + QuotedChars(s) + [QUOTE]
  }

  // ---- Sorting by key ----------------------------------------------------------------------------

  /** Array.prototype.sort without a comparator: code unit order. */
  predicate Before(a: Text, b: Text) {
    if b == [] then false
    else if a == [] then true
    else a[0] < b[0] || (a[0] == b[0] && Before(a[1..], b[1..]))
  }

  function Insert<T>(p: Pair<T>, sorted: seq<Pair<T>>): seq<Pair<T>> {
    if sorted == [] || !Before(sorted[0].key, p.key) then [p] + sorted else [sorted[0]] + Insert(p, sorted[1..])
  }

  function Sort<T>(ps: seq<Pair<T>>): seq<Pair<T>> {
    if ps == [] then [] else Insert(ps[0], Sort(ps[1..]))
  }

  // ---- The printer -------------------------------------------------------------------------------

  function Stringify(v: Json): Text
    decreases v
  {
    match v
    case Null => NULL_TEXT
    case Bool(b) => if b then TRUE_TEXT else FALSE_TEXT
    case Num(lexeme) => lexeme
    case Str(chars) => Quoted(chars)
    case Arr(items) => [OPEN_BRACKET] + Joined(StringifyItems(items)) + [CLOSE_BRACKET]
    case Obj(fields) => [OPEN_BRACE] + Joined(Members(Sort(StringifyFields(fields)))) + [CLOSE_BRACE]
  }

  function StringifyItems(items: seq<Json>): (r: seq<Text>)
    decreases items
  {
    if items == [] then [] else [Stringify(items[0])] + StringifyItems(items[1..])
  }

  function StringifyFields(fields: seq<Pair<Json>>): seq<Pair<Text>>
    decreases fields
  {
    if fields == [] then [] else [Pair(fields[0].key, Stringify(fields[0].value))] + StringifyFields(fields[1..])
  }

  function Members(ps: seq<Pair<Text>>): seq<Text> {
    if ps == [] then [] else [Quoted(ps[0].key) + [COLON] + ps[0].value] + Members(ps[1..])
  }

  /** join(','). */
  function Joined(parts: seq<Text>): Text {
    if parts == [] then [] else if |parts| == 1 then parts[0] else parts[0] + [COMMA] + Joined(parts[1..])
  }

  // ---- The values that are printed alike -----------------------------------------------------------

  predicate DistinctKeys<T>(fields: seq<Pair<T>>) {
    forall i, j :: 0 <= i < j < |fields| ==> fields[i].key != fields[j].key
  }

  /** Every number has a number lexeme and no object repeats a key. */
  predicate WellFormed(v: Json)
    decreases v
  {
    match v
    case Num(lexeme) => lexeme != [] && forall i :: 0 <= i < |lexeme| ==> NumberUnit(lexeme[i])
    case Arr(items) => forall i :: 0 <= i < |items| ==> WellFormed(items[i])
    case Obj(fields) => DistinctKeys(fields) && forall i :: 0 <= i < |fields| ==> WellFormed(fields[i].value)
    case _ => true
  }

  /** Equal up to the order of the keys of objects, at every depth. */
  ghost predicate Same(a: Json, b: Json)
    decreases a
  {
    match (a, b)
    case (Arr(xs), Arr(ys)) => |xs| == |ys| && forall i :: 0 <= i < |xs| ==> Same(xs[i], ys[i])
    case (Obj(fs), Obj(gs)) =>
      |fs| == |gs| && forall i :: 0 <= i < |fs| ==>
        exists j :: 0 <= j < |gs| && gs[j].key == fs[i].key && Same(fs[i].value, gs[j].value)
    case _ => a == b
  }

  /** Every object with its keys in order. */
  function Normalize(v: Json): Json
    decreases v
  {
    match v
    case Arr(items) => Arr(NormalizeItems(items))
    case Obj(fields) => Obj(Sort(NormalizeFields(fields)))
    case _ => v
  }

  function NormalizeItems(items: seq<Json>): (r: seq<Json>)
    ensures |r| == |items|
    decreases items
  {
    if items == [] then [] else [Normalize(items[0])] + NormalizeItems(items[1..])
  }

  function NormalizeFields(fields: seq<Pair<Json>>): (r: seq<Pair<Json>>)
    ensures |r| == |fields|
    decreases fields
  {
    if fields == [] then [] else [Pair(fields[0].key, Normalize(fields[0].value))] + NormalizeFields(fields[1..])
  }

  // ---- The parser --------------------------------------------------------------------------------

  datatype Parsed<T> = Parsed(value: T, rest: Text)

  predicate StartsWith(t: Text, prefix: Text) {
    |t| >= |prefix| && t[..|prefix|] == prefix
  }

  function HexValue(c: Unit): nat {
    if 48 <= c <= 57 then c - 48 else if 97 <= c <= 102 then c - 87 else 0
  }

  function Unescape(c: Unit): Unit {
    if c == 98 then 8 else if c == 116 then 9 else if c == 110 then 10 else if c == 102 then 12
      else if c == 114 then 13 else c
  }

  /** The characters up to the closing quote. */
  function ParseChars(t: Text): (r: Option<Parsed<Text>>)
    ensures r.Some? ==> |r.value.rest| < |t|
  {
    if t == [] then None
    else if t[0] == QUOTE then Some(Parsed([], t[1..]))
    else if t[0] == BACKSLASH then
      if |t| >= 6 && t[1] == LOWER_U then
        var c := HexValue(t[2]) * 4096 + HexValue(t[3]) * 256 + HexValue(t[4]) * 16 + HexValue(t[5]);
        match ParseChars(t[6..])
        case None => None
        case Some(p) => Some(Parsed([c] + p.value, p.rest))
      else if |t| >= 2 then
        match ParseChars(t[2..])
        case None => None
        case Some(p) => Some(Parsed([Unescape(t[1])] + p.value, p.rest))
      else None
    else
      match ParseChars(t[1..])
      case None => None
      case Some(p) => Some(Parsed([t[0]] + p.value, p.rest))
  }

  function NumberLength(t: Text): (n: nat)
    ensures n <= |t|
  {
    if t == [] || !NumberUnit(t[0]) then 0 else 1 + NumberLength(t[1..])
  }

  function ParseValue(t: Text): (r: Option<Parsed<Json>>)
    ensures r.Some? ==> |r.value.rest| < |t|
    decreases |t|, 1
  {
    if StartsWith(t, NULL_TEXT) then Some(Parsed(Null, t[4..]))
    else if StartsWith(t, TRUE_TEXT) then Some(Parsed(Bool(true), t[4..]))
    else if StartsWith(t, FALSE_TEXT) then Some(Parsed(Bool(false), t[5..]))
    else if t == [] then None
    else if t[0] == QUOTE then
      match ParseChars(t[1..])
      case None => None
      case Some(p) => Some(Parsed(Str(p.value), p.rest))
    else if t[0] == OPEN_BRACKET then
      if |t| >= 2 && t[1] == CLOSE_BRACKET then Some(Parsed(Arr([]), t[2..])) else
      match ParseItems(t[1..])
      case None => None
      case Some(p) => Some(Parsed(Arr(p.value), p.rest))
    else if t[0] == OPEN_BRACE then
      if |t| >= 2 && t[1] == CLOSE_BRACE then Some(Parsed(Obj([]), t[2..])) else
      match ParseMembers(t[1..])
      case None => None
      case Some(p) => Some(Parsed(Obj(p.value), p.rest))
    else if NumberUnit(t[0]) then Some(Parsed(Num(t[..NumberLength(t)]), t[NumberLength(t)..]))
    else None
  }

  /** One or more items and the closing bracket. */
  function ParseItems(t: Text): (r: Option<Parsed<seq<Json>>>)
    ensures r.Some? ==> |r.value.rest| < |t|
    decreases |t|, 2
  {
    match ParseValue(t)
    case None => None
    case Some(p) =>
      if p.rest != [] && p.rest[0] == COMMA then
        match ParseItems(p.rest[1..])
        case None => None
        case Some(q) => Some(Parsed([p.value] + q.value, q.rest))
      else if p.rest != [] && p.rest[0] == CLOSE_BRACKET then Some(Parsed([p.value], p.rest[1..]))
      else None
  }

  function ParseMember(t: Text): (r: Option<Parsed<Pair<Json>>>)
    ensures r.Some? ==> |r.value.rest| < |t|
    decreases |t|, 2
  {
    if t == [] || t[0] != QUOTE then None else
    match ParseChars(t[1..])
    case None => None
    case Some(k) =>
      if k.rest == [] || k.rest[0] != COLON then None else
      match ParseValue(k.rest[1..])
      case None => None
      case Some(p) => Some(Parsed(Pair(k.value, p.value), p.rest))
  }

  /** One or more members and the closing brace. */
  function ParseMembers(t: Text): (r: Option<Parsed<seq<Pair<Json>>>>)
    ensures r.Some? ==> |r.value.rest| < |t|
    decreases |t|, 3
  {
    match ParseMember(t)
    case None => None
    case Some(p) =>
      if p.rest != [] && p.rest[0] == COMMA then
        match ParseMembers(p.rest[1..])
        case None => None
        case Some(q) => Some(Parsed([p.value] + q.value, q.rest))
      else if p.rest != [] && p.rest[0] == CLOSE_BRACE then Some(Parsed([p.value], p.rest[1..]))
      else None
  }
}

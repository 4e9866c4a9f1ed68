/** Two JSON values print the same exactly if they are equal up to the order of object keys. */
module CanonicalJsonProofs {
  import opened Options
  import opened CanonicalJson

  // ---- Printing sorted is printing the normalized value --------------------------------------------

  /** The printer without the sorting. */
  function Plain(v: Json): Text
    decreases v
  {
    match v
    case Arr(items) => [OPEN_BRACKET] + Joined(PlainItems(items)) + [CLOSE_BRACKET]
    case Obj(fields) => [OPEN_BRACE] + Joined(Members(PlainFields(fields))) + [CLOSE_BRACE]
    case Null => NULL_TEXT
    case Bool(b) => if b then TRUE_TEXT else FALSE_TEXT
    case Num(lexeme) => lexeme
    case Str(chars) => Quoted(chars)
  }

  function PlainItems(items: seq<Json>): seq<Text>
    decreases items
  {
    if items == [] then [] else [Plain(items[0])] + PlainItems(items[1..])
  }

  function PlainFields(fields: seq<Pair<Json>>): seq<Pair<Text>>
    decreases fields
  {
    if fields == [] then [] else [Pair(fields[0].key, Plain(fields[0].value))] + PlainFields(fields[1..])
  }

  lemma {:induction false} InsertPlain(p: Pair<Json>, ps: seq<Pair<Json>>)
    ensures PlainFields(Insert(p, ps)) == Insert(Pair(p.key, Plain(p.value)), PlainFields(ps))
  {
    if ps == [] || !Before(ps[0].key, p.key) {
      assert ([p] + ps)[1..] == ps;
    } else {
      InsertPlain(p, ps[1..]);
      assert ([ps[0]] + Insert(p, ps[1..]))[1..] == Insert(p, ps[1..]);
      assert PlainFields(ps)[1..] == PlainFields(ps[1..]);
    }
  }

  lemma {:induction false} SortPlain(ps: seq<Pair<Json>>)
    ensures PlainFields(Sort(ps)) == Sort(PlainFields(ps))
  {
    if ps != [] {
      SortPlain(ps[1..]);
      InsertPlain(ps[0], Sort(ps[1..]));
      assert PlainFields(ps)[1..] == PlainFields(ps[1..]);
    }
  }

  lemma {:induction false} StringifyIsPlain(v: Json)
    ensures Stringify(v) == Plain(Normalize(v))
    decreases v
  {
    match v {
      case Arr(items) => StringifyItemsArePlain(items);
      case Obj(fields) =>
        StringifyFieldsArePlain(fields);
        SortPlain(NormalizeFields(fields));
      case _ =>
    }
  }

  lemma {:induction false} StringifyItemsArePlain(items: seq<Json>)
    ensures StringifyItems(items) == PlainItems(NormalizeItems(items))
    decreases items
  {
    if items != [] {
      StringifyIsPlain(items[0]);
      StringifyItemsArePlain(items[1..]);
      assert NormalizeItems(items)[1..] == NormalizeItems(items[1..]);
    }
  }

  lemma {:induction false} StringifyFieldsArePlain(fields: seq<Pair<Json>>)
    ensures StringifyFields(fields) == PlainFields(NormalizeFields(fields))
    decreases fields
  {
    if fields != [] {
      StringifyIsPlain(fields[0].value);
      StringifyFieldsArePlain(fields[1..]);
      assert NormalizeFields(fields)[1..] == NormalizeFields(fields[1..]);
    }
  }

  // ---- The parser inverts the printer ---------------------------------------------------------------

  lemma HexInverse(c: Unit)
    ensures var h := Hex4(c); HexValue(h[2]) * 4096 + HexValue(h[3]) * 256 + HexValue(h[4]) * 16 + HexValue(h[5]) == c
  {
    assert forall d: nat :: d < 16 ==> HexValue(HexDigit(d)) == d;
    assert c == c / 16 * 16 + c % 16;
    assert c / 16 == c / 256 * 16 + c / 16 % 16;
    assert c / 256 == c / 4096 * 16 + c / 256 % 16;
  }

  lemma ParsesRawUnit(c: Unit, tail: Text)
    requires c != QUOTE && c != BACKSLASH && ParseChars(tail).Some?
    ensures var p := ParseChars(tail).value; ParseChars([c] + tail) == Some(Parsed([c] + p.value, p.rest))
  {
    assert ([c] + tail)[1..] == tail;
  }

  lemma ParsesShortEscape(c: Unit, tail: Text)
    requires ShortEscape(c) != 0 && ParseChars(tail).Some?
    ensures var p := ParseChars(tail).value;
      ParseChars([BACKSLASH, ShortEscape(c)] + tail) == Some(Parsed([c] + p.value, p.rest))
  {
    var t := [BACKSLASH, ShortEscape(c)] + tail;
    assert t[2..] == tail && t[0] == BACKSLASH && t[1] == ShortEscape(c);
    assert Unescape(ShortEscape(c)) == c;
  }

  lemma ParsesHexEscape(c: Unit, tail: Text)
    requires ParseChars(tail).Some?
    ensures var p := ParseChars(tail).value; ParseChars(Hex4(c) + tail) == Some(Parsed([c] + p.value, p.rest))
  {
    var t, h := Hex4(c) + tail, Hex4(c);
    HexInverse(c);
    assert t[6..] == tail;
    assert t[0] == BACKSLASH && t[1] == LOWER_U && t[2] == h[2] && t[3] == h[3] && t[4] == h[4] && t[5] == h[5];
  }

  lemma ParsesPair(s: Text, tail: Text)
    requires |s| >= 2 && HighSurrogate(s[0]) && LowSurrogate(s[1]) && ParseChars(tail).Some?
      && ParseChars(tail).value.value == s[2..]
    ensures ParseChars(s[..2] + tail) == Some(Parsed(s, ParseChars(tail).value.rest))
  {
    ParsesRawUnit(s[1], tail);
    ParsesRawUnit(s[0], [s[1]] + tail);
    assert s[..2] + tail == [s[0]] + ([s[1]] + tail);
    assert s == [s[0]] + ([s[1]] + s[2..]);
  }

  lemma ParsesEnd(rest: Text)
    ensures ParseChars([QUOTE] + rest) == Some(Parsed([], rest))
  {
    assert ([QUOTE] + rest)[1..] == rest;
  }

  lemma {:induction false} ParsesChars(s: Text, rest: Text)
    ensures ParseChars(QuotedChars(s) + [QUOTE] + rest) == Some(Parsed(s, rest))
  {
    hide ParseChars, Escaped;
    if s == [] {
      ParsesEnd(rest);
      assert QuotedChars(s) + [QUOTE] + rest == [QUOTE] + rest;
    } else if |s| >= 2 && HighSurrogate(s[0]) && LowSurrogate(s[1]) {
      ParsesChars(s[2..], rest);
      ParsesPair(s, QuotedChars(s[2..]) + [QUOTE] + rest);
      assert QuotedChars(s) + [QUOTE] + rest == s[..2] + (QuotedChars(s[2..]) + [QUOTE] + rest);
    } else {
      ParsesChars(s[1..], rest);
      ParsesEscaped(s[0], QuotedChars(s[1..]) + [QUOTE] + rest);
      assert QuotedChars(s) + [QUOTE] + rest == Escaped(s[0]) + (QuotedChars(s[1..]) + [QUOTE] + rest);
      assert s == [s[0]] + s[1..];
    }
  }

  lemma ParsesEscaped(c: Unit, tail: Text)
    requires ParseChars(tail).Some?
    ensures var p := ParseChars(tail).value; ParseChars(Escaped(c) + tail) == Some(Parsed([c] + p.value, p.rest))
  {
    hide ParseChars, Hex4;
    if ShortEscape(c) != 0 {
      ParsesShortEscape(c, tail);
    } else if c < 32 || HighSurrogate(c) || LowSurrogate(c) {
      ParsesHexEscape(c, tail);
    } else {
      ParsesRawUnit(c, tail);
    }
  }

  /** Every number of the value has a number lexeme. */
  predicate Lexemes(v: Json)
    decreases v
  {
    match v
    case Num(lexeme) => lexeme != [] && forall i :: 0 <= i < |lexeme| ==> NumberUnit(lexeme[i])
    case Arr(items) => forall i :: 0 <= i < |items| ==> Lexemes(items[i])
    case Obj(fields) => forall i :: 0 <= i < |fields| ==> Lexemes(fields[i].value)
    case _ => true
  }

  /** Nothing follows, or a unit that cannot continue a number. */
  predicate Ends(rest: Text) {
    rest == [] || !NumberUnit(rest[0])
  }

  lemma {:induction false} NumberLengthOf(lexeme: Text, rest: Text)
    requires Ends(rest) && forall i :: 0 <= i < |lexeme| ==> NumberUnit(lexeme[i])
    ensures NumberLength(lexeme + rest) == |lexeme|
  {
    if lexeme == [] {
      assert lexeme + rest == rest;
    } else {
      NumberLengthOf(lexeme[1..], rest);
      assert (lexeme + rest)[1..] == lexeme[1..] + rest;
    }
  }

  lemma FirstUnit(v: Json)
    requires Lexemes(v)
    ensures Plain(v) != [] && Plain(v)[0] != CLOSE_BRACKET && Plain(v)[0] != CLOSE_BRACE
  {
  }

  lemma StartsWithFirst(t: Text, prefix: Text)
    requires prefix != []
    ensures StartsWith(t, prefix) ==> t != [] && t[0] == prefix[0]
  {
    if StartsWith(t, prefix) { assert t[..|prefix|][0] == t[0]; }
  }

  lemma NotAKeyword(t: Text)
    requires t != [] && t[0] != NULL_TEXT[0] && t[0] != TRUE_TEXT[0] && t[0] != FALSE_TEXT[0]
    ensures !StartsWith(t, NULL_TEXT) && !StartsWith(t, TRUE_TEXT) && !StartsWith(t, FALSE_TEXT)
  {
    StartsWithFirst(t, NULL_TEXT);
    StartsWithFirst(t, TRUE_TEXT);
    StartsWithFirst(t, FALSE_TEXT);
  }

  lemma ParsesKeyword(rest: Text)
    ensures ParseValue(NULL_TEXT + rest) == Some(Parsed(Null, rest))
    ensures ParseValue(TRUE_TEXT + rest) == Some(Parsed(Bool(true), rest))
    ensures ParseValue(FALSE_TEXT + rest) == Some(Parsed(Bool(false), rest))
  {
    assert (NULL_TEXT + rest)[..4] == NULL_TEXT && (NULL_TEXT + rest)[4..] == rest;
    var t, f := TRUE_TEXT + rest, FALSE_TEXT + rest;
    assert t[..4] == TRUE_TEXT && t[4..] == rest;
    StartsWithFirst(t, NULL_TEXT);
    assert f[..5] == FALSE_TEXT && f[5..] == rest;
    StartsWithFirst(f, NULL_TEXT);
    StartsWithFirst(f, TRUE_TEXT);
  }

  lemma ParsesNumber(lexeme: Text, rest: Text)
    requires lexeme != [] && Ends(rest) && forall i :: 0 <= i < |lexeme| ==> NumberUnit(lexeme[i])
    ensures ParseValue(lexeme + rest) == Some(Parsed(Num(lexeme), rest))
  {
    var t := lexeme + rest;
    NumberLengthOf(lexeme, rest);
    assert t[0] == lexeme[0] && t[..|lexeme|] == lexeme && t[|lexeme|..] == rest;
    NotAKeyword(t);
  }

  lemma ParsesString(chars: Text, rest: Text)
    ensures ParseValue(Quoted(chars) + rest) == Some(Parsed(Str(chars), rest))
  {
    var t := Quoted(chars) + rest;
    ParsesChars(chars, rest);
    assert t[1..] == QuotedChars(chars) + [QUOTE] + rest;
    assert t[0] == QUOTE;
    NotAKeyword(t);
    hide ParseChars, ParseItems, ParseMembers, NumberLength, NumberUnit, StartsWith, QuotedChars;
  }

  lemma ParsesArray(inner: Text, items: seq<Json>, rest: Text)
    requires if items == [] then inner == [CLOSE_BRACKET] + rest
             else inner != [] && inner[0] != CLOSE_BRACKET && ParseItems(inner) == Some(Parsed(items, rest))
    ensures ParseValue([OPEN_BRACKET] + inner) == Some(Parsed(Arr(items), rest))
  {
    var t := [OPEN_BRACKET] + inner;
    NotAKeyword(t);
    assert t[1..] == inner && t[1] == inner[0];
    assert items == [] ==> t[2..] == rest;
  }

  lemma ParsesObject(inner: Text, fields: seq<Pair<Json>>, rest: Text)
    requires if fields == [] then inner == [CLOSE_BRACE] + rest
             else inner != [] && inner[0] != CLOSE_BRACE && ParseMembers(inner) == Some(Parsed(fields, rest))
    ensures ParseValue([OPEN_BRACE] + inner) == Some(Parsed(Obj(fields), rest))
  {
    var t := [OPEN_BRACE] + inner;
    NotAKeyword(t);
    assert t[1..] == inner && t[1] == inner[0];
    assert fields == [] ==> t[2..] == rest;
  }

  /** Parsing the printed value, whatever follows it, gives back the value and what follows. */
  lemma {:induction false} ParsesValue(v: Json, rest: Text)
    requires Lexemes(v) && Ends(rest)
    ensures ParseValue(Plain(v) + rest) == Some(Parsed(v, rest))
    decreases v, 2
  {
    hide ParseValue, ParseItems, ParseMembers, Quoted, NumberUnit;
    match v {
      case Null => ParsesKeyword(rest);
      case Bool(_) => ParsesKeyword(rest);
      case Num(lexeme) => ParsesNumber(lexeme, rest);
      case Str(chars) => ParsesString(chars, rest);
      case Arr(items) =>
        var inner := Joined(PlainItems(items)) + [CLOSE_BRACKET] + rest;
        assert Plain(v) + rest == [OPEN_BRACKET] + inner;
        ItemsText(items, rest);
        ParsesArray(inner, items, rest);
      case Obj(fields) =>
        var inner := Joined(Members(PlainFields(fields))) + [CLOSE_BRACE] + rest;
        assert Plain(v) + rest == [OPEN_BRACE] + inner;
        MembersText(fields, rest);
        ParsesObject(inner, fields, rest);
    }
  }

  lemma {:induction false} ItemsText(items: seq<Json>, rest: Text)
    requires forall i :: 0 <= i < |items| ==> Lexemes(items[i])
    ensures var inner := Joined(PlainItems(items)) + [CLOSE_BRACKET] + rest;
      if items == [] then inner == [CLOSE_BRACKET] + rest
      else inner != [] && inner[0] != CLOSE_BRACKET && ParseItems(inner) == Some(Parsed(items, rest))
    decreases items, 1
  {
    if items == [] {
      assert [] + [CLOSE_BRACKET] + rest == [CLOSE_BRACKET] + rest;
    } else {
      FirstUnit(items[0]);
      JoinedStarts(PlainItems(items));
      ParsesItems(items, rest);
    }
  }

  lemma {:induction false} MembersText(fields: seq<Pair<Json>>, rest: Text)
    requires forall i :: 0 <= i < |fields| ==> Lexemes(fields[i].value)
    ensures var inner := Joined(Members(PlainFields(fields))) + [CLOSE_BRACE] + rest;
      if fields == [] then inner == [CLOSE_BRACE] + rest
      else inner != [] && inner[0] != CLOSE_BRACE && ParseMembers(inner) == Some(Parsed(fields, rest))
    decreases fields, 1
  {
    if fields == [] {
      assert [] + [CLOSE_BRACE] + rest == [CLOSE_BRACE] + rest;
    } else {
      JoinedStarts(Members(PlainFields(fields)));
      ParsesMembers(fields, rest);
    }
  }

  lemma JoinedStarts(parts: seq<Text>)
    requires parts != [] && parts[0] != []
    ensures Joined(parts) != [] && Joined(parts)[0] == parts[0][0]
  {
  }

  lemma ItemsStep(v: Json, first: Text, more: seq<Json>, tail: Text, rest: Text)
    requires ParseValue(first + ([if more == [] then CLOSE_BRACKET else COMMA] + tail))
               == Some(Parsed(v, [if more == [] then CLOSE_BRACKET else COMMA] + tail))
    requires if more == [] then tail == rest else ParseItems(tail) == Some(Parsed(more, rest))
    ensures ParseItems(first + ([if more == [] then CLOSE_BRACKET else COMMA] + tail)) == Some(Parsed([v] + more, rest))
  {
    var sep := if more == [] then CLOSE_BRACKET else COMMA;
    assert ([sep] + tail)[1..] == tail;
    assert more == [] ==> [v] + more == [v];
  }

  lemma {:induction false} ParsesItems(items: seq<Json>, rest: Text)
    requires items != [] && forall i :: 0 <= i < |items| ==> Lexemes(items[i])
    ensures ParseItems(Joined(PlainItems(items)) + [CLOSE_BRACKET] + rest) == Some(Parsed(items, rest))
    decreases items, 0
  {
    hide ParseValue, ParseItems, Lexemes, Plain;
    var first, more := Plain(items[0]), items[1..];
    assert PlainItems(items) == [first] + PlainItems(more);
    var t := Joined(PlainItems(items)) + [CLOSE_BRACKET] + rest;
    var tail := if more == [] then rest else Joined(PlainItems(more)) + [CLOSE_BRACKET] + rest;
    var sep := if more == [] then CLOSE_BRACKET else COMMA;
    if more != [] {
      ParsesItems(more, rest);
      assert PlainItems(items)[1..] == PlainItems(more) && PlainItems(more) != [];
    } else {
      assert PlainItems(more) == [];
    }
    assert t == first + ([sep] + tail);
    ParsesValue(items[0], [sep] + tail);
    ItemsStep(items[0], first, more, tail, rest);
    assert items == [items[0]] + more;
  }

  lemma {:induction false} ParsesMember(field: Pair<Json>, rest: Text)
    requires Lexemes(field.value) && Ends(rest)
    ensures ParseMember(Quoted(field.key) + [COLON] + Plain(field.value) + rest) == Some(Parsed(field, rest))
    decreases field, 0
  {
    hide ParseValue, ParseChars, Lexemes, Plain;
    var t := Quoted(field.key) + [COLON] + Plain(field.value) + rest;
    var after := [COLON] + (Plain(field.value) + rest);
    assert t == [QUOTE] + (QuotedChars(field.key) + [QUOTE] + after);
    assert t[1..] == QuotedChars(field.key) + [QUOTE] + after;
    ParsesChars(field.key, after);
    assert after[1..] == Plain(field.value) + rest;
    ParsesValue(field.value, rest);
  }

  lemma MembersStep(p: Pair<Json>, first: Text, more: seq<Pair<Json>>, tail: Text, rest: Text)
    requires ParseMember(first + ([if more == [] then CLOSE_BRACE else COMMA] + tail))
               == Some(Parsed(p, [if more == [] then CLOSE_BRACE else COMMA] + tail))
    requires if more == [] then tail == rest else ParseMembers(tail) == Some(Parsed(more, rest))
    ensures ParseMembers(first + ([if more == [] then CLOSE_BRACE else COMMA] + tail)) == Some(Parsed([p] + more, rest))
  {
    var sep := if more == [] then CLOSE_BRACE else COMMA;
    assert ([sep] + tail)[1..] == tail;
    assert more == [] ==> [p] + more == [p];
  }

  lemma {:induction false} ParsesMembers(fields: seq<Pair<Json>>, rest: Text)
    requires fields != [] && forall i :: 0 <= i < |fields| ==> Lexemes(fields[i].value)
    ensures ParseMembers(Joined(Members(PlainFields(fields))) + [CLOSE_BRACE] + rest) == Some(Parsed(fields, rest))
    decreases fields, 0
  {
    hide ParseMember, ParseMembers, Lexemes, Plain, Quoted;
    var key, value, more := Quoted(fields[0].key), Plain(fields[0].value), fields[1..];
    var first := key + [COLON] + value;
    var tail := if more == [] then rest else Joined(Members(PlainFields(more))) + [CLOSE_BRACE] + rest;
    var sep := if more == [] then CLOSE_BRACE else COMMA;
    if more != [] { ParsesMembers(more, rest); }
    MembersSplit(fields, rest);
    ParsesMember(fields[0], [sep] + tail);
    assert first + ([sep] + tail) == key + [COLON] + value + ([sep] + tail);
    MembersStep(fields[0], first, more, tail, rest);
    assert fields == [fields[0]] + more;
  }

  lemma MembersSplit(fields: seq<Pair<Json>>, rest: Text)
    requires fields != []
    ensures var first, more := Quoted(fields[0].key) + [COLON] + Plain(fields[0].value), fields[1..];
      Joined(Members(PlainFields(fields))) + [CLOSE_BRACE] + rest
        == first + (if more == [] then [CLOSE_BRACE] + rest
          else [COMMA] + (Joined(Members(PlainFields(more))) + [CLOSE_BRACE] + rest))
  {
    hide Quoted, Plain, Joined;
    var first, more := Quoted(fields[0].key) + [COLON] + Plain(fields[0].value), fields[1..];
    assert PlainFields(fields)[1..] == PlainFields(more);
    assert Members(PlainFields(fields)) == [first] + Members(PlainFields(more));
    JoinedSplit(first, Members(PlainFields(more)), CLOSE_BRACE, rest);
  }

  lemma JoinedSplit(first: Text, parts: seq<Text>, close: Unit, rest: Text)
    ensures Joined([first] + parts) + [close] + rest
      == first + (if parts == [] then [close] + rest else [COMMA] + (Joined(parts) + [close] + rest))
  {
    assert ([first] + parts)[1..] == parts;
    if parts == [] {
      assert Joined([first] + parts) == first;
    }
  }

  // ---- Normal forms ---------------------------------------------------------------------------------

  lemma {:induction false} BeforeTotal(a: Text, b: Text)
    ensures !(Before(a, b) && Before(b, a)) && (a != b ==> Before(a, b) || Before(b, a))
  {
    if a != [] && b != [] {
      BeforeTotal(a[1..], b[1..]);
      assert a[0] == b[0] && a[1..] == b[1..] ==> a == b by {
        assert a == [a[0]] + a[1..] && b == [b[0]] + b[1..];
      }
    }
  }

  lemma {:induction false} BeforeIrreflexive(a: Text)
    ensures !Before(a, a)
  {
    if a != [] { BeforeIrreflexive(a[1..]); }
  }

  lemma {:induction false} BeforeTransitive(a: Text, b: Text, c: Text)
    requires Before(a, b) && Before(b, c)
    ensures Before(a, c)
  {
    if a != [] && a[0] == b[0] && b[0] == c[0] { BeforeTransitive(a[1..], b[1..], c[1..]); }
  }

  ghost predicate Sorted<T>(ps: seq<Pair<T>>) {
    forall i, j :: 0 <= i < j < |ps| ==> Before(ps[i].key, ps[j].key)
  }

  lemma {:induction false} InsertKeeps<T>(p: Pair<T>, ps: seq<Pair<T>>, x: Pair<T>)
    ensures var r := Insert(p, ps); |r| == |ps| + 1 && (x in r <==> x == p || x in ps)
  {
    if ps != [] && Before(ps[0].key, p.key) {
      InsertKeeps(p, ps[1..], x);
      assert ps == [ps[0]] + ps[1..];
    }
  }

  lemma {:induction false} InsertSorted<T>(p: Pair<T>, ps: seq<Pair<T>>)
    requires Sorted(ps) && forall x :: x in ps ==> x.key != p.key
    ensures Sorted(Insert(p, ps))
  {
    var r := Insert(p, ps);
    if ps == [] {
    } else if Before(ps[0].key, p.key) {
      InsertSorted(p, ps[1..]);
      forall j | 1 <= j < |r| ensures Before(r[0].key, r[j].key) {
        assert r[j] == Insert(p, ps[1..])[j - 1];
        InsertKeeps(p, ps[1..], r[j]);
      }
    } else {
      assert ps[0] in ps;
      BeforeTotal(ps[0].key, p.key);
      forall j | 1 <= j < |r| ensures Before(p.key, r[j].key) {
        if j > 1 { BeforeTransitive(p.key, ps[0].key, ps[j - 1].key); }
      }
    }
  }

  lemma {:induction false} SortKeeps<T>(ps: seq<Pair<T>>, x: Pair<T>)
    ensures |Sort(ps)| == |ps| && (x in Sort(ps) <==> x in ps)
  {
    if ps != [] {
      SortKeeps(ps[1..], x);
      InsertKeeps(ps[0], Sort(ps[1..]), x);
      assert ps == [ps[0]] + ps[1..];
    }
  }

  lemma {:induction false} SortSorts<T>(ps: seq<Pair<T>>)
    requires DistinctKeys(ps)
    ensures Sorted(Sort(ps))
  {
    if ps != [] {
      SortSorts(ps[1..]);
      forall x | x in Sort(ps[1..]) ensures x.key != ps[0].key {
        SortKeeps(ps[1..], x);
        var j :| 0 <= j < |ps[1..]| && ps[1..][j] == x;
        assert ps[0].key != ps[j + 1].key;
      }
      InsertSorted(ps[0], Sort(ps[1..]));
    }
  }

  /** Two sorted lists with the same members are the same list. */
  lemma {:induction false} SortedUnique<T>(a: seq<Pair<T>>, b: seq<Pair<T>>)
    requires Sorted(a) && Sorted(b) && forall x :: x in a <==> x in b
    ensures a == b
  {
    assert a != [] ==> a[0] in b;
    assert b != [] ==> b[0] in a;
    if a != [] {
      SameHead(a, b);
      forall x ensures x in a[1..] <==> x in b[1..] {
        TailMembers(a, x);
        TailMembers(b, x);
      }
      SortedUnique(a[1..], b[1..]);
      assert a == [a[0]] + a[1..] && b == [b[0]] + b[1..];
    }
  }

  lemma SameHead<T>(a: seq<Pair<T>>, b: seq<Pair<T>>)
    requires a != [] && b != [] && Sorted(a) && Sorted(b) && a[0] in b && b[0] in a
    ensures a[0] == b[0]
  {
    var i :| 0 <= i < |b| && b[i] == a[0];
    var j :| 0 <= j < |a| && a[j] == b[0];
    BeforeTotal(a[0].key, b[0].key);
    assert i > 0 ==> Before(b[0].key, a[0].key);
    assert j > 0 ==> Before(a[0].key, b[0].key);
  }

  lemma TailMembers<T>(a: seq<Pair<T>>, x: Pair<T>)
    requires a != [] && Sorted(a)
    ensures x in a[1..] <==> x in a && x != a[0]
  {
    BeforeIrreflexive(a[0].key);
    if x in a && x != a[0] {
      var i :| 0 <= i < |a| && a[i] == x;
      assert a[1..][i - 1] == x;
    }
    if x in a[1..] {
      var i :| 0 <= i < |a[1..]| && a[1..][i] == x;
      assert a[i + 1] == x && Before(a[0].key, x.key);
    }
  }

  lemma {:induction false} NormalizeFieldsAt(fields: seq<Pair<Json>>, i: nat)
    requires i < |fields|
    ensures NormalizeFields(fields)[i] == Pair(fields[i].key, Normalize(fields[i].value))
  {
    if i > 0 { NormalizeFieldsAt(fields[1..], i - 1); }
  }

  lemma {:induction false} NormalizeItemsAt(items: seq<Json>, i: nat)
    requires i < |items|
    ensures NormalizeItems(items)[i] == Normalize(items[i])
  {
    if i > 0 { NormalizeItemsAt(items[1..], i - 1); }
  }

  lemma NormalizedDistinct(fields: seq<Pair<Json>>)
    requires DistinctKeys(fields)
    ensures DistinctKeys(NormalizeFields(fields))
  {
    forall i, j | 0 <= i < j < |fields| ensures NormalizeFields(fields)[i].key != NormalizeFields(fields)[j].key {
      NormalizeFieldsAt(fields, i);
      NormalizeFieldsAt(fields, j);
    }
  }

  lemma {:induction false} NormalizedLexemes(v: Json)
    requires WellFormed(v)
    ensures Lexemes(Normalize(v))
    decreases v
  {
    match v {
      case Arr(items) =>
        forall i | 0 <= i < |items| ensures Lexemes(NormalizeItems(items)[i]) {
          NormalizeItemsAt(items, i);
          NormalizedLexemes(items[i]);
        }
      case Obj(fields) =>
        var ns := NormalizeFields(fields);
        forall k | 0 <= k < |Sort(ns)| ensures Lexemes(Sort(ns)[k].value) {
          SortKeeps(ns, Sort(ns)[k]);
          var i :| 0 <= i < |ns| && ns[i] == Sort(ns)[k];
          NormalizeFieldsAt(fields, i);
          NormalizedLexemes(fields[i].value);
        }
      case _ =>
    }
  }

  /** Printing is undone by the parser, up to the order of keys. */
  lemma ParseInvertsStringify(v: Json)
    requires WellFormed(v)
    ensures ParseValue(Stringify(v)) == Some(Parsed(Normalize(v), []))
  {
    StringifyIsPlain(v);
    NormalizedLexemes(v);
    ParsesValue(Normalize(v), []);
    assert Stringify(v) + [] == Stringify(v);
  }

  // ---- Same value, same normal form ------------------------------------------------------------------

  lemma {:induction false} SameIffNormal(a: Json, b: Json)
    requires WellFormed(a) && WellFormed(b)
    ensures Same(a, b) <==> Normalize(a) == Normalize(b)
    decreases a
  {
    match (a, b) {
      case (Arr(xs), Arr(ys)) => SameItems(xs, ys, a);
      case (Obj(fs), Obj(gs)) => SameFields(fs, gs, a);
      case _ =>
    }
  }

  lemma {:induction false} SameItems(xs: seq<Json>, ys: seq<Json>, whole: Json)
    requires whole == Arr(xs) && WellFormed(Arr(xs)) && WellFormed(Arr(ys))
    ensures Same(Arr(xs), Arr(ys)) <==> NormalizeItems(xs) == NormalizeItems(ys)
    decreases whole, 0
  {
    if |xs| == |ys| {
      forall i | 0 <= i < |xs| ensures Same(xs[i], ys[i]) <==> NormalizeItems(xs)[i] == NormalizeItems(ys)[i] {
        SameIffNormal(xs[i], ys[i]);
        NormalizeItemsAt(xs, i);
        NormalizeItemsAt(ys, i);
      }
    }
  }

  /** Field i of fs has a counterpart in gs exactly if its normal form is a field of the normal form of gs. */
  lemma {:induction false} SameField(fs: seq<Pair<Json>>, gs: seq<Pair<Json>>, i: nat, whole: Json)
    requires whole == Obj(fs) && i < |fs| && WellFormed(Obj(fs)) && WellFormed(Obj(gs))
    ensures (exists j :: 0 <= j < |gs| && gs[j].key == fs[i].key && Same(fs[i].value, gs[j].value))
      <==> NormalizeFields(fs)[i] in NormalizeFields(gs)
    decreases whole, 0
  {
    NormalizeFieldsAt(fs, i);
    if j :| 0 <= j < |gs| && gs[j].key == fs[i].key && Same(fs[i].value, gs[j].value) {
      SameIffNormal(fs[i].value, gs[j].value);
      NormalizeFieldsAt(gs, j);
      assert NormalizeFields(gs)[j] == NormalizeFields(fs)[i];
    }
    if NormalizeFields(fs)[i] in NormalizeFields(gs) {
      var j :| 0 <= j < |gs| && NormalizeFields(gs)[j] == NormalizeFields(fs)[i];
      NormalizeFieldsAt(gs, j);
      SameIffNormal(fs[i].value, gs[j].value);
    }
  }

  lemma WellFormedKeys(fs: seq<Pair<Json>>)
    requires WellFormed(Obj(fs))
    ensures DistinctKeys(fs)
  {
  }

  lemma {:induction false} SameFields(fs: seq<Pair<Json>>, gs: seq<Pair<Json>>, whole: Json)
    requires whole == Obj(fs) && WellFormed(Obj(fs)) && WellFormed(Obj(gs))
    ensures Same(Obj(fs), Obj(gs)) <==> Sort(NormalizeFields(fs)) == Sort(NormalizeFields(gs))
    decreases whole, 1
  {
    hide Sort, WellFormed;
    var ns, ms := NormalizeFields(fs), NormalizeFields(gs);
    WellFormedKeys(fs);
    WellFormedKeys(gs);
    if Same(Obj(fs), Obj(gs)) {
      forall i | 0 <= i < |ns| ensures ns[i] in ms {
        assert 0 <= i < |fs|;
        SameField(fs, gs, i, whole);
      }
    }
    if |ns| == |ms| && forall i :: 0 <= i < |ns| ==> ns[i] in ms {
      forall i | 0 <= i < |fs|
        ensures exists j :: 0 <= j < |gs| && gs[j].key == fs[i].key && Same(fs[i].value, gs[j].value)
      {
        SameField(fs, gs, i, whole);
        assert ns[i] in ms;
      }
    }
    NormalizedDistinct(fs);
    NormalizedDistinct(gs);
    SortedAlike(ns, ms);
  }

  /** Distinct keys, equal length and one-way inclusion already make the sorted lists equal. */
  lemma SortedAlike<T>(a: seq<Pair<T>>, b: seq<Pair<T>>)
    requires DistinctKeys(a) && DistinctKeys(b)
    ensures (|a| == |b| && forall i :: 0 <= i < |a| ==> a[i] in b) <==> Sort(a) == Sort(b)
  {
    if |a| == |b| && forall i :: 0 <= i < |a| ==> a[i] in b {
      forall x ensures x in Sort(a) <==> x in Sort(b) {
        SortKeeps(a, x);
        SortKeeps(b, x);
        Pigeonhole(a, b, x);
      }
      SortSorts(a);
      SortSorts(b);
      SortedUnique(Sort(a), Sort(b));
    }
    if Sort(a) == Sort(b) {
      SameLength(a, b);
      forall i | 0 <= i < |a| ensures a[i] in b {
        SortKeeps(a, a[i]);
        SortKeeps(b, a[i]);
      }
    }
  }

  lemma SameLength<T>(a: seq<Pair<T>>, b: seq<Pair<T>>)
    requires Sort(a) == Sort(b)
    ensures |a| == |b|
  {
    if a != [] { SortKeeps(a, a[0]); SortKeeps(b, a[0]); }
    if b != [] { SortKeeps(a, b[0]); SortKeeps(b, b[0]); }
  }

  ghost function Elements<T>(ps: seq<Pair<T>>): set<Pair<T>> {
    set x | x in ps
  }

  lemma {:induction false} DistinctCount<T>(ps: seq<Pair<T>>)
    requires DistinctKeys(ps)
    ensures |Elements(ps)| == |ps|
  {
    if ps != [] {
      DistinctCount(ps[1..]);
      assert ps == [ps[0]] + ps[1..];
      assert Elements(ps) == Elements(ps[1..]) + {ps[0]};
      forall j | 0 <= j < |ps[1..]| ensures ps[1..][j] != ps[0] { assert ps[0].key != ps[j + 1].key; }
    } else {
      assert Elements(ps) == {};
    }
  }

  lemma Pigeonhole<T>(a: seq<Pair<T>>, b: seq<Pair<T>>, x: Pair<T>)
    requires DistinctKeys(a) && DistinctKeys(b) && |a| == |b| && forall i :: 0 <= i < |a| ==> a[i] in b
    ensures x in a <==> x in b
  {
    DistinctCount(a);
    DistinctCount(b);
    assert Elements(a) <= Elements(b);
    assert |Elements(b) - Elements(a)| == |Elements(b)| - |Elements(a)|;
    assert Elements(b) - Elements(a) == {};
    assert x in a <==> x in Elements(a);
    assert x in b <==> x in Elements(b);
  }

  /** Injective up to key order: equal prints mean equal values, and equal values print alike. */
  lemma StringifyInjective(a: Json, b: Json)
    requires WellFormed(a) && WellFormed(b)
    ensures Stringify(a) == Stringify(b) <==> Same(a, b)
  {
    ParseInvertsStringify(a);
    ParseInvertsStringify(b);
    StringifyIsPlain(a);
    StringifyIsPlain(b);
    SameIffNormal(a, b);
  }
}

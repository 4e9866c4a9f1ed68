/** Secrets typed by hand: letters in either case, white space anywhere and padding at the end change nothing. */
module Base32Text {
  import opened Options
  import opened Base32

  const CAPITALS := "ABCDEFGHIJKLMNOPQRSTUVWXYZ"
  const SMALL := "abcdefghijklmnopqrstuvwxyz"
  const BLANKS := " \t\n\r\U{0B}\U{0C}"

  /** c is x, or the small letter of x. */
  predicate Same(c: char, x: char) { c == x || exists i :: 0 <= i < 26 && CAPITALS[i] == x && SMALL[i] == c }

  predicate Blank(c: char) { c in BLANKS }

  predicate Symbol(c: char) { c in ALPHABET }

  /** A typed string spells a text if it is the text but for white space and the case of its letters. */
  predicate Spells(typed: string, text: string) {
    if typed == [] then text == []
    else
      var n, m := |typed| - 1, |text| - 1;
      || (Blank(typed[n]) && Spells(typed[..n], text))
      || (m >= 0 && Same(typed[n], text[m]) && Spells(typed[..n], text[..m]))
  }

  predicate OfAlphabet(text: string) { forall i :: 0 <= i < |text| ==> Symbol(text[i]) }

  lemma LetterRaised(i: nat)
    requires i < 26
    ensures CAPITALS[i] == ('A' as int + i) as char && SMALL[i] == ('a' as int + i) as char
    ensures ToUpper(SMALL[i]) == CAPITALS[i]
  {}

  lemma OneTyped(c: char, x: char)
    requires Same(c, x) && Symbol(x)
    ensures ToUpper(c) == x && !IsSpace(x) && c != '='
  {
    var d :| 0 <= d < 32 && ALPHABET[d] == x;
    AlphabetIndex(d);
    if c != x {
      var i :| 0 <= i < 26 && CAPITALS[i] == x && SMALL[i] == c;
      LetterRaised(i);
    }
  }

  lemma BlankIs(c: char)
    ensures Blank(c) <==> IsSpace(c)
    ensures Blank(c) ==> ToUpper(c) == c && c != '='
  {}

  lemma LastTyped(typed: string, text: string) returns (blank: bool)
    requires Spells(typed, text) && typed != []
    ensures var n, m := |typed| - 1, |text| - 1;
      if blank then Blank(typed[n]) && Spells(typed[..n], text)
      else m >= 0 && Same(typed[n], text[m]) && Spells(typed[..n], text[..m])
  {
    var n := |typed| - 1;
    blank := Blank(typed[n]) && Spells(typed[..n], text);
  }

  lemma {:induction false} CleanSpelling(typed: string, text: string)
    requires Spells(typed, text) && OfAlphabet(text)
    ensures WithoutSpace(Upper(typed)) == text
  {
    hide Upper, WithoutSpace, Spells, ToUpper, IsSpace, Same, Blank, Symbol;
    if typed == [] {
      NothingTyped(text);
    } else {
      var n, m := |typed| - 1, |text| - 1;
      var c := typed[n];
      assert typed == typed[..n] + [c];
      CleanSnoc(typed[..n], c);
      var blank := LastTyped(typed, text);
      if blank {
        BlankIs(c);
        CleanSpelling(typed[..n], text);
      } else {
        OneTyped(c, text[m]);
        CleanSpelling(typed[..n], text[..m]);
        assert text == text[..m] + [text[m]];
      }
    }
  }

  lemma NothingTyped(text: string)
    requires Spells([], text)
    ensures WithoutSpace(Upper([])) == text
  {}

  /** The last character typed is no padding. */
  lemma NoPadding(typed: string, text: string)
    requires Spells(typed, text) && OfAlphabet(text)
    ensures typed != [] ==> Upper(typed)[|typed| - 1] != '='
  {
    if typed != [] {
      var n, m := |typed| - 1, |text| - 1;
      assert Upper(typed)[n] == ToUpper(typed[n]);
      var blank := LastTyped(typed, text);
      if blank { BlankIs(typed[n]); } else { OneTyped(typed[n], text[m]); Padding(text[m]); }
    }
  }

  lemma CleanSnoc(s: string, c: char)
    ensures Upper(s + [c]) == Upper(s) + [ToUpper(c)]
    ensures WithoutSpace(Upper(s + [c])) == WithoutSpace(Upper(s)) + if IsSpace(ToUpper(c)) then [] else [ToUpper(c)]
  {
    hide ToUpper, IsSpace;
    assert (s + [c])[..|s|] == s;
    assert (Upper(s) + [ToUpper(c)])[..|s|] == Upper(s);
  }

  lemma Padding(x: char)
    requires Symbol(x)
    ensures x != '='
  {}

  lemma {:induction false} Stripped(s: string, n: nat)
    requires s != [] ==> s[|s| - 1] != '='
    ensures StripPadding(s + Pads(n)) == s
  {
    if n == 0 {
      assert s + Pads(0) == s;
    } else {
      assert (s + Pads(n))[..|s| + n - 1] == s + Pads(n - 1);
      Stripped(s, n - 1);
    }
  }

  function Pads(n: nat): (r: string)
    ensures |r| == n && forall i :: 0 <= i < n ==> r[i] == '='
  {
    seq(n, i => '=')
  }

  lemma {:induction false} UpperPads(s: string, n: nat)
    ensures Upper(s + Pads(n)) == Upper(s) + Pads(n)
  {
    if n == 0 {
      assert s + Pads(0) == s && Upper(s) + Pads(0) == Upper(s);
    } else {
      assert (s + Pads(n))[..|s| + n - 1] == s + Pads(n - 1);
      UpperPads(s, n - 1);
      assert Pads(n - 1) + ['='] == Pads(n);
      assert Upper(s) + Pads(n) == (Upper(s) + Pads(n - 1)) + ['='];
    }
  }

  /** Whatever spells the text of some bytes, with any padding after it, decodes to those bytes. */
  lemma TypedDecodes(buffer: seq<nat>, typed: string, padding: nat)
    requires Below(buffer, 256) && Spells(typed, SymbolText(EncodedSymbols(buffer)))
    ensures Decoded(typed + Pads(padding)) == Some(buffer)
  {
    var text := SymbolText(EncodedSymbols(buffer));
    TextRoundTrip(buffer);
    CleanSpelling(typed, text);
    NoPadding(typed, text);
    UpperPads(typed, padding);
    Stripped(Upper(typed), padding);
    PlainText(EncodedSymbols(buffer));
    assert OfAlphabet(text);
    hide Upper, StripPadding, WithoutSpace, SymbolsOf, Spells, DecodedBytes, SymbolText, EncodedSymbols, OfAlphabet;
  }
}

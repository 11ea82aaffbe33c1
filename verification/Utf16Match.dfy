/** The web highlighter reads UTF-16 code units and the native colourer code points; both report UTF-16
    offsets.  Encoding the text moves every token to its unit offset and adds none. */
module Utf16Match {
  import opened Options
  import opened Regex
  import opened Colorize
  import opened Highlight
  import opened ColorizeVsHighlight

  /** A code point in UTF-16: itself, or a surrogate pair. */
  function UnitsOf(n: int): (u: seq<int>)
    ensures |u| == Width(n)
  {
    if n < 0x10000 then [n] else [0xD800 + (n - 0x10000) / 0x400, 0xDC00 + (n - 0x10000) % 0x400]
  }

  function Encode(s: seq<int>): seq<int> {
    if s == [] then [] else Encode(s[..|s| - 1]) + UnitsOf(s[|s| - 1])
  }

  predicate CodePoints(s: seq<int>) {
    forall k :: 0 <= k < |s| ==> 0 <= s[k] < 0x110000
  }

  lemma {:induction false} OffsetOfPrefix(s: seq<int>, k: nat, i: nat)
    requires i <= k <= |s|
    ensures Offset(s[..k], i) == Offset(s, i)
    decreases i
  {
    if i > 0 {
      OffsetOfPrefix(s, k, i - 1);
    }
  }

  /** The units of code point `i` stand at its offset. */
  lemma {:induction false} EncodeAt(s: seq<int>, i: nat)
    ensures |Encode(s)| == Offset(s, |s|)
    ensures i < |s| ==>
              && Offset(s, i + 1) == Offset(s, i) + Width(s[i]) && Offset(s, i + 1) <= |Encode(s)|
              && Encode(s)[Offset(s, i)] == UnitsOf(s[i])[0]
              && Encode(s)[Offset(s, i + 1) - 1] == UnitsOf(s[i])[Width(s[i]) - 1]
    decreases |s|
  {
    if s != [] {
      var n := |s| - 1;
      EncodeAt(s[..n], i);
      OffsetOfPrefix(s, n, n);
      if i < n {
        OffsetOfPrefix(s, n, i);
        OffsetOfPrefix(s, n, i + 1);
        assert s[..n][i] == s[i];
      }
    }
  }

  // ---------------------------------------------------------------- classes and runs

  /** A class that treats all units beyond ASCII alike. */
  predicate AsciiClass(c: CharClass) {
    match c
    case Exactly(m) => 0 <= m < 0x80
    case Except(m) => 0 <= m < 0x80
    case _ => true
  }

  lemma {:induction false} ClassOfUnits(c: CharClass, n: int, k: nat)
    requires AsciiClass(c) && 0 <= n < 0x110000 && k < Width(n)
    ensures InClass(c, UnitsOf(n)[k]) == InClass(c, n)
    ensures n >= 0x80 ==> UnitsOf(n)[k] >= 0x80
  {
  }

  lemma {:induction false} ClassAtOffset(c: CharClass, s: seq<int>, i: nat)
    requires AsciiClass(c) && CodePoints(s) && i <= |s|
    ensures Offset(s, i) <= |Encode(s)| && (i < |s| <==> Offset(s, i) < |Encode(s)|)
    ensures At(Encode(s), Offset(s, i), c) == At(s, i, c)
    ensures i < |s| && Width(s[i]) == 2 ==> At(Encode(s), Offset(s, i) + 1, c) == At(s, i, c)
  {
    OffsetMonotone(s, i, |s|);
    EncodeAt(s, i);
    if i < |s| {
      ClassOfUnits(c, s[i], 0);
      ClassOfUnits(c, s[i], Width(s[i]) - 1);
    }
  }

  lemma {:induction false} WordBefore(s: seq<int>, i: nat)
    requires CodePoints(s) && i <= |s|
    ensures WordAt(Encode(s), Offset(s, i) - 1) == WordAt(s, i - 1)
  {
    if i > 0 {
      EncodeAt(s, i - 1);
      ClassOfUnits(Word, s[i - 1], Width(s[i - 1]) - 1);
    }
  }

  lemma {:induction false} RunAtOffset(c: CharClass, s: seq<int>, i: nat)
    requires AsciiClass(c) && CodePoints(s) && i <= |s|
    ensures Offset(s, i) <= |Encode(s)|
    ensures RunEnd(c, Encode(s), Offset(s, i)) == Offset(s, RunEnd(c, s, i))
    decreases |s| - i
  {
    ClassAtOffset(c, s, i);
    if i < |s| && InClass(c, s[i]) {
      EncodeAt(s, i);
      RunAtOffset(c, s, i + 1);
    }
  }

  /** An ASCII character takes one unit, so what follows it is at the next unit. */
  lemma {:induction false} AfterAscii(s: seq<int>, i: nat)
    requires CodePoints(s) && i < |s| && s[i] < 0x80
    ensures Offset(s, i + 1) == Offset(s, i) + 1 <= |Encode(s)|
    ensures Encode(s)[Offset(s, i)] == s[i]
  {
    EncodeAt(s, i);
  }

  /** A run of word characters is the same sequence of units. */
  lemma {:induction false} WordUnitsAt(s: seq<int>, i: nat, j: nat, k: nat)
    requires CodePoints(s) && i <= k <= j <= |s| && forall m :: i <= m < j ==> InClass(Word, s[m])
    ensures Offset(s, k) == Offset(s, i) + (k - i) <= |Encode(s)|
    ensures k < j ==> Offset(s, k) < |Encode(s)| && Encode(s)[Offset(s, k)] == s[k]
    decreases k
  {
    ClassAtOffset(Word, s, k);
    if i < k {
      WordUnitsAt(s, i, j, k - 1);
      AfterAscii(s, k - 1);
    }
    if k < j {
      AfterAscii(s, k);
    }
  }

  lemma {:induction false} WordUnits(s: seq<int>, i: nat, j: nat)
    requires CodePoints(s) && i <= j <= |s| && forall k :: i <= k < j ==> InClass(Word, s[k])
    ensures Offset(s, i) <= Offset(s, j) <= |Encode(s)|
    ensures Encode(s)[Offset(s, i)..Offset(s, j)] == s[i..j]
  {
    WordUnitsAt(s, i, j, j);
    var units := Encode(s)[Offset(s, i)..Offset(s, j)];
    assert |units| == j - i;
    forall k | 0 <= k < j - i ensures units[k] == s[i..j][k] {
      WordUnitsAt(s, i, j, i + k);
    }
  }

  // ---------------------------------------------------------------- tokens

  function Shift(s: seq<int>, t: Token): Token
    requires t.Token? ==> t.end <= |s|
  {
    if t == NoToken then NoToken else Token(Offset(s, t.end), t.kind)
  }

  lemma {:induction false} QuotedAtOffset(s: seq<int>, i: nat, q: int, kind: Kind)
    requires CodePoints(s) && i < |s| && s[i] == q && 0 <= q < 0x80
    ensures Offset(s, i) < |Encode(s)|
    ensures QuotedAt(s, i, q, kind).Token? ==> QuotedAt(s, i, q, kind).end <= |s|
    ensures QuotedAt(Encode(s), Offset(s, i), q, kind) == Shift(s, QuotedAt(s, i, q, kind))
  {
    AfterAscii(s, i);
    RunAtOffset(Except(q), s, i + 1);
    RunIsMaximal(Except(q), s, i + 1);
    var j := RunEnd(Except(q), s, i + 1);
    ClassAtOffset(Except(q), s, j);
    if j < |s| {
      AfterAscii(s, j);
    }
  }

  lemma {:induction false} FractionAtOffset(s: seq<int>, j: nat)
    requires CodePoints(s) && j <= |s|
    ensures FractionAt(Encode(s), Offset(s, j)) == FractionAt(s, j)
    ensures FractionAt(s, j) ==>
              && Offset(s, j + 2) == Offset(s, j) + 2 <= |Encode(s)|
              && RunEnd(Digit, Encode(s), Offset(s, j) + 2) == Offset(s, RunEnd(Digit, s, j + 2))
  {
    ClassAtOffset(Exactly(DOT), s, j);
    if IsChar(s, j, DOT) {
      AfterAscii(s, j);
      ClassAtOffset(Digit, s, j + 1);
      if At(s, j + 1, Digit) {
        AfterAscii(s, j + 1);
        RunAtOffset(Digit, s, j + 2);
      }
    }
  }

  lemma {:induction false} NameAtOffset(s: seq<int>, i: nat)
    requires CodePoints(s) && i < |s| && InClass(IdentStart, s[i])
    ensures Offset(s, i) < |Encode(s)| && (NameFrom(s, i).Token? ==> NameFrom(s, i).end <= |s|)
    ensures NameFrom(Encode(s), Offset(s, i)) == Shift(s, NameFrom(s, i))
  {
    AfterAscii(s, i);
    RunAtOffset(Word, s, i + 1);
    RunIsMaximal(Word, s, i + 1);
    var j := RunEnd(Word, s, i + 1);
    ClassAtOffset(Exactly(COLON), s, j);
    WordUnits(s, i, j);
    if IsChar(s, j, COLON) {
      AfterAscii(s, j);
    }
  }

  lemma {:induction false} NumberAtOffset(s: seq<int>, i: nat)
    requires CodePoints(s) && i < |s| && InClass(Digit, s[i])
    ensures Offset(s, i) < |Encode(s)| && (NumberFrom(s, i).Token? ==> NumberFrom(s, i).end <= |s|)
    ensures NumberFrom(Encode(s), Offset(s, i)) == Shift(s, NumberFrom(s, i))
  {
    AfterAscii(s, i);
    RunAtOffset(Digit, s, i + 1);
    var j := RunEnd(Digit, s, i + 1);
    FractionAtOffset(s, j);
    ClassAtOffset(Word, s, j);
    if FractionAt(s, j) {
      ClassAtOffset(Word, s, RunEnd(Digit, s, j + 2));
    }
  }

  lemma {:induction false} SymbolTokenAtOffset(s: seq<int>, i: nat)
    requires CodePoints(s) && i < |s| && s[i] == HASH
    ensures Offset(s, i) < |Encode(s)| && (TokenAt(s, i).Token? ==> TokenAt(s, i).end <= |s|)
    ensures TokenAt(Encode(s), Offset(s, i)) == Shift(s, TokenAt(s, i))
  {
    AfterAscii(s, i);
    ClassAtOffset(IdentStart, s, i + 1);
    if At(s, i + 1, IdentStart) {
      AfterAscii(s, i + 1);
      RunAtOffset(Word, s, i + 2);
    }
  }

  lemma {:induction false} TokenAtOffset(s: seq<int>, i: nat)
    requires CodePoints(s) && i < |s|
    ensures Offset(s, i) < |Encode(s)| && (TokenAt(s, i).Token? ==> TokenAt(s, i).end <= |s|)
    ensures TokenAt(Encode(s), Offset(s, i)) == Shift(s, TokenAt(s, i))
    ensures Width(s[i]) == 2 ==> Offset(s, i) + 1 < |Encode(s)| && TokenAt(Encode(s), Offset(s, i) + 1) == NoToken
  {
    EncodeAt(s, i);
    if s[i] >= 0x80 {
      ClassOfUnits(Word, s[i], 0);
      ClassOfUnits(Word, s[i], Width(s[i]) - 1);
    } else if s[i] == QUOTE {
      QuotedAtOffset(s, i, QUOTE, Str);
    } else if s[i] == DOUBLE_QUOTE {
      QuotedAtOffset(s, i, DOUBLE_QUOTE, Comment);
    } else if s[i] == HASH {
      SymbolTokenAtOffset(s, i);
    } else {
      WordBefore(s, i);
      if InClass(Word, s[i]) && !WordAt(s, i - 1) {
        if InClass(Digit, s[i]) { NumberAtOffset(s, i); } else { NameAtOffset(s, i); }
      }
    }
  }

  // ---------------------------------------------------------------- spans

  function ShiftSpan(s: seq<int>, x: Span): Span
    requires x.start <= x.end <= |s|
  {
    Span(Offset(s, x.start), Offset(s, x.end), x.kind)
  }

  function ShiftSpans(s: seq<int>, spans: seq<Span>): seq<Span>
    requires Within(spans, 0, |s|)
  {
    seq(|spans|, k requires 0 <= k < |spans| => ShiftSpan(s, spans[k]))
  }

  lemma {:induction false} SkipUnit(units: seq<int>, k: nat)
    requires k < |units| && TokenAt(units, k) == NoToken
    ensures Tokens(units, k) == Tokens(units, k + 1)
  {
  }

  lemma {:induction false} ShiftFirst(s: seq<int>, x: Span, spans: seq<Span>)
    requires Within([x] + spans, 0, |s|) && Within(spans, 0, |s|)
    ensures x.start <= x.end <= |s| && ShiftSpans(s, [x] + spans) == [ShiftSpan(s, x)] + ShiftSpans(s, spans)
  {
    assert ([x] + spans)[0] == x;
  }

  /** Scanning the units finds the code points' tokens at their unit offsets, and nothing else. */
  lemma {:induction false} TokensOfUnits(s: seq<int>, i: nat)
    requires CodePoints(s) && i <= |s|
    ensures Offset(s, i) <= |Encode(s)| && Within(Tokens(s, i), 0, |s|)
    ensures Tokens(Encode(s), Offset(s, i)) == ShiftSpans(s, Tokens(s, i))
    decreases |s| - i
  {
    EncodeAt(s, i);
    TokensWithin(s, i);
    if i < |s| {
      TokenAtOffset(s, i);
      TokenEndsLater(s, i);
      match TokenAt(s, i) {
        case NoToken =>
          TokensOfUnits(s, i + 1);
          if Width(s[i]) == 2 {
            SkipUnit(Encode(s), Offset(s, i) + 1);
          }
        case Token(e, k) =>
          TokensOfUnits(s, e);
          TokensWithin(s, e);
          OffsetMonotone(s, i, e);
          ShiftFirst(s, Span(i, e, k), Tokens(s, e));
      }
    }
  }

  /** `(start, length, kind)` of the spans the web highlighter wraps. */
  function Lengths(spans: seq<Span>): seq<(nat, int, Kind)> {
    seq(|spans|, k requires 0 <= k < |spans| => (spans[k].start, spans[k].end - spans[k].start, spans[k].kind))
  }

  lemma {:induction false} OffsetInjective(s: seq<int>, i: nat, j: nat)
    requires i <= |s| && j <= |s| && Offset(s, i) == Offset(s, j)
    ensures i == j
  {
    if i < j { OffsetMonotone(s, i, j); } else if j < i { OffsetMonotone(s, j, i); }
  }

  lemma {:induction false} ShiftInjective(s: seq<int>, a: seq<Span>, b: seq<Span>)
    requires Within(a, 0, |s|) && Within(b, 0, |s|)
    ensures Utf16(s, a) == Lengths(ShiftSpans(s, b)) <==> a == b
  {
    if Utf16(s, a) == Lengths(ShiftSpans(s, b)) {
      assert |a| == |Utf16(s, a)| == |Lengths(ShiftSpans(s, b))| == |b|;
      forall k | 0 <= k < |a| ensures a[k] == b[k] {
        assert Utf16(s, a)[k] == Units(s, a[k]);
        assert Lengths(ShiftSpans(s, b))[k]
               == (Offset(s, b[k].start), Offset(s, b[k].end) - Offset(s, b[k].start), b[k].kind);
        OffsetInjective(s, a[k].start, b[k].start);
        OffsetInjective(s, a[k].end, b[k].end);
      }
    }
  }

  /** For every text: the native plain-mode spans are those the web expression finds in the text's
      UTF-16 units, offset for offset, exactly when the walk meets none of the four kinds of token. */
  lemma {:induction false} OneRuleSetTwoRenderers(text: string)
    ensures var s := Codes(text);
            && Within(Scan(s, ORIGIN, None), 0, |s|)
            && (Utf16(s, Scan(s, ORIGIN, None)) == Lengths(Matches(Encode(s), 0)) <==> Agrees(s, 0))
  {
    var s := Codes(text);
    assert CodePoints(s);
    SpansAreOrdered(s, ORIGIN, None);
    SameSpansIffAgrees(s, 0);
    MatchesAreTokens(s, 0);
    TokensOfUnits(s, 0);
    MatchesAreTokens(Encode(s), 0);
    ShiftInjective(s, Scan(s, ORIGIN, None), Tokens(s, 0));
  }

  /** So both renderers colour every text alike that has no `$`, no unterminated quote, no symbol directly
      followed by a colon and no fraction directly followed by a word character. */
  lemma {:induction false} PlainTextsColourAlike(text: string)
    requires PlainText(Codes(text)) && QuotesClose(Codes(text), 0)
    ensures var s := Codes(text);
            Within(Scan(s, ORIGIN, None), 0, |s|) && Utf16(s, Scan(s, ORIGIN, None)) == Lengths(Matches(Encode(s), 0))
  {
    PlainAgrees(Codes(text), 0);
    OneRuleSetTwoRenderers(text);
  }
}

/** Where the native colourer and the web highlighter agree: both directions, for every text. */
module ColorizeVsHighlight {
  import opened Options
  import opened Regex
  import opened Colorize
  import opened Highlight

  /** The web highlighter's spans from `i`, token by token. */
  function Tokens(s: seq<int>, i: nat): seq<Span>
    requires i <= |s|
    decreases |s| - i
  {
    if i == |s| then []
    else
      TokenEndsLater(s, i);
      match TokenAt(s, i)
      case NoToken => Tokens(s, i + 1)
      case Token(e, k) => [Span(i, e, k)] + Tokens(s, e)
  }

  lemma {:induction false} TokenEndsLater(s: seq<int>, i: nat)
    requires i < |s|
    ensures TokenAt(s, i).Token? ==> i < TokenAt(s, i).end <= |s|
  {
  }

  lemma {:induction false} MatchesAreTokens(s: seq<int>, i: nat)
    requires i <= |s|
    ensures Matches(s, i) == Tokens(s, i)
    decreases |s| - i
  {
    if i < |s| {
      MatchIsToken(s, i);
      TokenEndsLater(s, i);
      match TokenAt(s, i)
      case NoToken => MatchesAreTokens(s, i + 1);
      case Token(e, _) => MatchesAreTokens(s, e);
    }
  }

  lemma {:induction false} TokensWithin(s: seq<int>, i: nat)
    requires i <= |s|
    ensures Within(Tokens(s, i), i, |s|)
    decreases |s| - i
  {
    if i < |s| {
      TokenEndsLater(s, i);
      match TokenAt(s, i)
      case NoToken => TokensWithin(s, i + 1);
      case Token(e, _) => TokensWithin(s, e);
    }
  }

  lemma {:induction false} NoTokensBetween(s: seq<int>, i: nat, n: nat)
    requires i <= n <= |s| && forall k :: i <= k < n ==> TokenAt(s, k) == NoToken
    ensures Tokens(s, i) == Tokens(s, n)
    decreases n - i
  {
    if i < n {
      NoTokensBetween(s, i + 1, n);
    }
  }

  /** Plain mode's step and scan: no known selectors, and no send-position state. */
  function PlainStep(s: seq<int>, i: nat): (nat, seq<Span>)
    requires i < |s|
  {
    var (c, spans) := Step(s, Cursor(i, false, 0), None); (c.i, spans)
  }

  function PlainScan(s: seq<int>, i: nat): seq<Span> {
    Scan(s, Cursor(i, false, 0), None)
  }

  lemma {:induction false} PlainUnfolds(s: seq<int>, i: nat)
    requires i < |s|
    ensures var (n, spans) := PlainStep(s, i);
            i < n <= |s| && PlainScan(s, i) == spans + PlainScan(s, n) && Within(PlainScan(s, n), n, |s|)
  {
    var c := Step(s, Cursor(i, false, 0), None).0;
    ScanStep(s, Cursor(i, false, 0), None);
    SpansAreOrdered(s, c, None);
    CheckedErasesToPlain(s, c, c, None);
    CheckedErasesToPlain(s, c, Cursor(c.i, false, 0), None);
    SpansAreOrdered(s, Cursor(c.i, false, 0), None);
  }

  /** The characters at `i`, with no word character before them, are a token's: a quote that is closed, a
      symbol, a keyword, a pseudo-variable or a number. */
  predicate StartsToken(s: seq<int>, i: nat)
    requires i < |s|
  {
    var ch := s[i];
    if ch == DOUBLE_QUOTE || ch == QUOTE then RunEnd(Except(ch), s, i + 1) < |s|
    else if ch == HASH then At(s, i + 1, IdentStart)
    else if InClass(IdentStart, ch) then
      var j := RunEnd(Word, s, i + 1);
      IsChar(s, j, COLON) || IsPseudo(s[i..j])
    else if InClass(Digit, ch) then
      var j := RunEnd(Digit, s, i + 1);
      FractionAt(s, j) || !WordAt(s, j)
    else false
  }

  lemma {:induction false} StartsTokenIff(s: seq<int>, i: nat)
    requires i < |s| && !WordAt(s, i - 1)
    ensures StartsToken(s, i) <==> TokenAt(s, i) != NoToken
  {
  }

  /** The token starting at `i` is none of the four kinds the two tools read differently: an
      unterminated literal, a symbol with a colon after it, a character literal whose character starts a
      token, or a fraction with a word character after it. */
  predicate StepAgrees(s: seq<int>, i: nat)
    requires i < |s|
  {
    var ch := s[i];
    if ch == DOUBLE_QUOTE || ch == QUOTE then RunEnd(Except(ch), s, i + 1) < |s|
    else if ch == HASH && At(s, i + 1, IdentStart) then !IsChar(s, RunEnd(Word, s, i + 1), COLON)
    else if ch == DOLLAR && i + 1 < |s| then !StartsToken(s, i + 1)
    else if InClass(Digit, ch) && !WordAt(s, i - 1) then
      var j := RunEnd(Digit, s, i + 1);
      !(FractionAt(s, j) && WordAt(s, RunEnd(Digit, s, j + 2)))
    else true
  }

  /** No token of the colourer's walk from `i` is one of those. */
  predicate Agrees(s: seq<int>, i: nat)
    decreases |s| - i
  {
    i < |s| ==> StepAgrees(s, i) && Agrees(s, PlainStep(s, i).0)
  }

  /** What one step says about the highlighter: the same spans and no more before `n`, or spans that
      nothing the colourer does later can make equal. */
  ghost predicate Verdict(s: seq<int>, i: nat)
    requires i < |s|
  {
    var (n, spans) := PlainStep(s, i);
    i < n <= |s| &&
    if StepAgrees(s, i) then Tokens(s, i) == spans + Tokens(s, n)
    else forall later :: Within(later, n, |s|) ==> Tokens(s, i) != spans + later
  }

  lemma {:induction false} QuotedVerdict(s: seq<int>, i: nat)
    requires i < |s| && s[i] in {QUOTE, DOUBLE_QUOTE}
    ensures Verdict(s, i)
  {
    var (n, spans) := PlainStep(s, i);
    if !StepAgrees(s, i) {
      TokensWithin(s, i + 1);
      assert Tokens(s, i) == Tokens(s, i + 1);
      forall later | Within(later, n, |s|) ensures Tokens(s, i) != spans + later {
        assert (spans + later)[0].start == i;
      }
    }
  }

  lemma {:induction false} HashVerdict(s: seq<int>, i: nat)
    requires i < |s| && s[i] == HASH
    ensures Verdict(s, i)
  {
    var (n, spans) := PlainStep(s, i);
    if At(s, i + 1, IdentStart) {
      var j := RunEnd(Word, s, i + 2);
      assert RunEnd(Word, s, i + 1) == j;
      TokenEndsLater(s, i);
      assert Tokens(s, i) == [Span(i, j, Symbol)] + Tokens(s, j);
      if !StepAgrees(s, i) {
        assert n > j && spans == [Span(i, n, Symbol)];
        forall later | Within(later, n, |s|) ensures Tokens(s, i) != spans + later {
          assert (spans + later)[0].end == n && Tokens(s, i)[0].end == j;
        }
      }
    } else {
      assert spans == [];
      NoTokensBetween(s, i, n);
    }
  }

  lemma {:induction false} DollarVerdict(s: seq<int>, i: nat)
    requires i < |s| && s[i] == DOLLAR
    ensures Verdict(s, i)
  {
    var (n, spans) := PlainStep(s, i);
    assert spans == [] && TokenAt(s, i) == NoToken;
    if i + 1 < |s| {
      StartsTokenIff(s, i + 1);
    }
    if StepAgrees(s, i) {
      NoTokensBetween(s, i, n);
    } else {
      assert Tokens(s, i) == Tokens(s, i + 1);
      TokenEndsLater(s, i + 1);
      assert Tokens(s, i + 1)[0].start == i + 1;
      forall later | Within(later, n, |s|) ensures Tokens(s, i) != spans + later {
        assert spans + later == later;
      }
    }
  }

  lemma {:induction false} WordVerdict(s: seq<int>, i: nat)
    requires i < |s| && InClass(IdentStart, s[i]) && !WordAt(s, i - 1)
    ensures Verdict(s, i)
  {
    var (n, spans) := PlainStep(s, i);
    var j := RunEnd(Word, s, i + 1);
    RunIsMaximal(Word, s, i + 1);
    if spans == [] {
      forall k | i <= k < n ensures TokenAt(s, k) == NoToken {
        assert InClass(Word, s[k]) && (k > i ==> InClass(Word, s[k - 1]));
      }
      NoTokensBetween(s, i, n);
    }
  }

  lemma {:induction false} NumberVerdict(s: seq<int>, i: nat)
    requires i < |s| && InClass(Digit, s[i]) && !WordAt(s, i - 1)
    ensures Verdict(s, i)
  {
    var (n, spans) := PlainStep(s, i);
    var j := RunEnd(Digit, s, i + 1);
    RunIsMaximal(Digit, s, i + 1);
    if !StepAgrees(s, i) {
      var k := RunEnd(Digit, s, j + 2);
      assert NumberTail(s, j) == k && spans == [] && n > i;
      assert Tokens(s, i)[0].start == i;
      forall later | Within(later, n, |s|) ensures Tokens(s, i) != spans + later {
        assert spans + later == later;
      }
    } else if spans == [] {
      assert !FractionAt(s, j) && WordAt(s, j);
      RunIsMaximal(Word, s, j);
      forall k | i <= k < n ensures TokenAt(s, k) == NoToken {
        assert InClass(Word, s[k]) && (k > i ==> InClass(Word, s[k - 1]));
      }
      NoTokensBetween(s, i, n);
    }
  }

  lemma {:induction false} OtherVerdict(s: seq<int>, i: nat)
    requires i < |s| && s[i] !in {QUOTE, DOUBLE_QUOTE, HASH, DOLLAR} && (InClass(Word, s[i]) ==> WordAt(s, i - 1))
    ensures Verdict(s, i)
  {
    var (n, spans) := PlainStep(s, i);
    assert spans == [];
    RunIsMaximal(Word, s, i + 1);
    forall k | i <= k < n ensures TokenAt(s, k) == NoToken {
      assert k > i ==> InClass(Word, s[k]) && InClass(Word, s[k - 1]);
    }
    NoTokensBetween(s, i, n);
  }

  lemma {:induction false} StepVerdict(s: seq<int>, i: nat)
    requires i < |s|
    ensures Verdict(s, i)
  {
    var ch := s[i];
    if ch in {QUOTE, DOUBLE_QUOTE} {
      QuotedVerdict(s, i);
    } else if ch == HASH {
      HashVerdict(s, i);
    } else if ch == DOLLAR {
      DollarVerdict(s, i);
    } else if InClass(Word, ch) && !WordAt(s, i - 1) {
      if InClass(Digit, ch) { NumberVerdict(s, i); } else { WordVerdict(s, i); }
    } else {
      OtherVerdict(s, i);
    }
  }

  /** The two tools colour the text from `i` alike exactly when the walk meets none of the four kinds. */
  lemma {:induction false} SameSpansIffAgrees(s: seq<int>, i: nat)
    requires i <= |s|
    ensures PlainScan(s, i) == Matches(s, i) <==> Agrees(s, i)
    decreases |s| - i
  {
    MatchesAreTokens(s, i);
    if i < |s| {
      var (n, spans) := PlainStep(s, i);
      PlainUnfolds(s, i);
      StepVerdict(s, i);
      MatchesAreTokens(s, n);
      SameSpansIffAgrees(s, n);
      if StepAgrees(s, i) {
        SamePrefix(spans, PlainScan(s, n), Tokens(s, n));
      }
    }
  }

  lemma {:induction false} SamePrefix(p: seq<Span>, a: seq<Span>, b: seq<Span>)
    ensures p + a == p + b <==> a == b
  {
    assert (p + a)[|p|..] == a && (p + b)[|p|..] == b;
  }

  lemma {:induction false} DifferFromTheStart(s: seq<int>)
    requires s != [] && !StepAgrees(s, 0)
    ensures PlainScan(s, 0) != Matches(s, 0)
  {
    SameSpansIffAgrees(s, 0);
  }

  /** Each of the four kinds makes the spans differ: a character literal, an open string, a keyword symbol
      and a number run into a letter. */
  lemma {:induction false} EachKindDisagrees(character: seq<int>, open: seq<int>, keyword: seq<int>, number: seq<int>)
    requires character == Codes("$5") && open == Codes("'") && keyword == Codes("#a:") && number == Codes("1.5x")
    ensures PlainScan(character, 0) != Matches(character, 0) && PlainScan(open, 0) != Matches(open, 0)
    ensures PlainScan(keyword, 0) != Matches(keyword, 0) && PlainScan(number, 0) != Matches(number, 0)
  {
    CharacterLiteral(character);
    OpenString(open);
    KeywordSymbol(keyword);
    RunIntoALetter(number);
  }

  lemma {:induction false} CharacterLiteral(s: seq<int>)
    requires s == [DOLLAR, 53]
    ensures PlainScan(s, 0) != Matches(s, 0)
  {
    assert RunEnd(Digit, s, 2) == 2 && StartsToken(s, 1);
    DifferFromTheStart(s);
  }

  lemma {:induction false} OpenString(s: seq<int>)
    requires s == [QUOTE]
    ensures PlainScan(s, 0) != Matches(s, 0)
  {
    assert RunEnd(Except(QUOTE), s, 1) == 1;
    DifferFromTheStart(s);
  }

  lemma {:induction false} KeywordSymbol(s: seq<int>)
    requires s == [HASH, 97, COLON]
    ensures PlainScan(s, 0) != Matches(s, 0)
  {
    assert RunEnd(Word, s, 2) == 2 && RunEnd(Word, s, 1) == 2;
    DifferFromTheStart(s);
  }

  lemma {:induction false} RunIntoALetter(s: seq<int>)
    requires s == [49, DOT, 53, 120]
    ensures PlainScan(s, 0) != Matches(s, 0)
  {
    assert RunEnd(Digit, s, 1) == 1 && RunEnd(Digit, s, 3) == 3;
    DifferFromTheStart(s);
  }

  // ---------------------------------------------------------------- texts without the four kinds

  /** Every quote from `i` on is closed, reading the text as quoted parts and the rest. */
  predicate QuotesClose(s: seq<int>, i: nat)
    decreases |s| - i
  {
    if i >= |s| then true
    else if s[i] == DOUBLE_QUOTE || s[i] == QUOTE then
      var j := RunEnd(Except(s[i]), s, i + 1);
      j < |s| && QuotesClose(s, j + 1)
    else QuotesClose(s, i + 1)
  }

  /** Nowhere a `$`, a symbol directly followed by a colon, or a fraction directly followed by a word
      character. */
  predicate PlainText(s: seq<int>) {
    forall i :: 0 <= i < |s| ==> PlainAt(s, i)
  }

  predicate PlainAt(s: seq<int>, i: nat)
    requires i < |s|
  {
    && s[i] != DOLLAR
    && (s[i] == HASH && At(s, i + 1, IdentStart) ==> !IsChar(s, RunEnd(Word, s, i + 1), COLON))
    && (InClass(Digit, s[i]) && !WordAt(s, i - 1) ==>
          var j := RunEnd(Digit, s, i + 1);
          !(FractionAt(s, j) && WordAt(s, RunEnd(Digit, s, j + 2))))
  }

  predicate NoQuotes(s: seq<int>, i: nat, n: nat)
    requires n <= |s|
  {
    forall k :: i <= k < n ==> s[k] != DOUBLE_QUOTE && s[k] != QUOTE
  }

  lemma {:induction false} QuotesCloseLater(s: seq<int>, i: nat, n: nat)
    requires i <= n <= |s| && NoQuotes(s, i, n)
    ensures QuotesClose(s, i) <==> QuotesClose(s, n)
    decreases n - i
  {
    if i < n {
      QuotesCloseLater(s, i + 1, n);
    }
  }

  lemma {:induction false} RunHasNoQuotes(c: CharClass, s: seq<int>, i: nat)
    requires i <= |s| && c in {Word, Digit}
    ensures NoQuotes(s, i, RunEnd(c, s, i))
  {
    RunIsMaximal(c, s, i);
  }

  lemma {:induction false} StepPassesNoQuotes(s: seq<int>, i: nat)
    requires i < |s| && s[i] != DOUBLE_QUOTE && s[i] != QUOTE && PlainAt(s, i)
    ensures PlainStep(s, i).0 <= |s| && NoQuotes(s, i, PlainStep(s, i).0)
  {
    var ch, n := s[i], PlainStep(s, i).0;
    RunHasNoQuotes(Word, s, i + 1);
    if InClass(Digit, ch) && !WordAt(s, i - 1) {
      var j := RunEnd(Digit, s, i + 1);
      RunHasNoQuotes(Digit, s, i + 1);
      if FractionAt(s, j) {
        RunHasNoQuotes(Digit, s, j + 2);
      } else if WordAt(s, j) {
        RunHasNoQuotes(Word, s, j);
      }
    }
  }

  lemma {:induction false} PlainAgrees(s: seq<int>, i: nat)
    requires i <= |s| && PlainText(s) && QuotesClose(s, i)
    ensures Agrees(s, i)
    decreases |s| - i
  {
    if i < |s| {
      PlainUnfolds(s, i);
      assert PlainAt(s, i);
      var n := PlainStep(s, i).0;
      if s[i] != DOUBLE_QUOTE && s[i] != QUOTE {
        StepPassesNoQuotes(s, i);
        QuotesCloseLater(s, i, n);
      }
      PlainAgrees(s, n);
    }
  }

  /** So every text with no `$`, no unterminated quote, no symbol directly followed by a colon and no
      fraction directly followed by a word character is coloured alike. */
  lemma {:induction false} PlainTextsAgree(s: seq<int>)
    requires PlainText(s) && QuotesClose(s, 0)
    ensures PlainScan(s, 0) == Matches(s, 0)
  {
    PlainAgrees(s, 0);
    SameSpansIffAgrees(s, 0);
  }
}

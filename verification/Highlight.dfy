/** The web highlighter's token expression, matched with backtracking, and its match in closed form. */
module Highlight {
  import opened Regex
  import opened Colorize

  // ---------------------------------------------------------------- the expression

  function Literal(units: seq<int>): Pattern
    requires units != []
  {
    if |units| == 1 then Unit(Exactly(units[0])) else Cat(Unit(Exactly(units[0])), Literal(units[1..]))
  }

  /** `w0|w1|..` */
  function Words(words: seq<string>): Pattern
    requires words != [] && "" !in words
  {
    if |words| == 1 then Literal(Codes(words[0])) else Either(Literal(Codes(words[0])), Words(words[1..]))
  }

  function Quoted(q: int): Pattern {
    Cat(Unit(Exactly(q)), Cat(Star(Unit(Except(q))), Unit(Exactly(q))))
  }

  const SYMBOL := Cat(Unit(Exactly(HASH)), Cat(Unit(IdentStart), Star(Unit(Word))))
  const KEYWORD := Cat(Boundary, Cat(Unit(IdentStart), Cat(Star(Unit(Word)), Unit(Exactly(COLON)))))
  const FRACTION := Cat(Unit(Exactly(DOT)), Cat(Unit(Digit), Star(Unit(Digit))))
  const NUMBER := Cat(Boundary, Cat(Unit(Digit), Cat(Star(Unit(Digit)), Cat(Maybe(FRACTION), Boundary))))

  /** The six alternatives of `SMALLTALK_TOKEN_RE`, in order, with the class each group colours. */
  function Alternatives(): seq<(Kind, Pattern)> {
    PseudoWords();
    [(Comment, Quoted(DOUBLE_QUOTE)), (Str, Quoted(QUOTE)), (Symbol, SYMBOL), (Keyword, KEYWORD),
     (Pseudo, Cat(Boundary, Cat(Words(PSEUDO), Boundary))), (Number, NUMBER)]
  }

  datatype Token = NoToken | Token(end: nat, kind: Kind)

  /** The match at `i`: the first alternative that matches, at its first end. */
  function MatchAt(s: seq<int>, i: nat, alternatives: seq<(Kind, Pattern)>): Token
    requires i <= |s|
  {
    if alternatives == [] then NoToken
    else
      var ends := Ends(alternatives[0].1, s, i);
      if ends != [] then Token(ends[0], alternatives[0].0) else MatchAt(s, i, alternatives[1..])
  }

  /** The spans of successive `exec` calls from `i`: leftmost match, then on from its end. */
  function Matches(s: seq<int>, i: nat): seq<Span>
    requires i <= |s|
    decreases |s| - i
  {
    if i == |s| then []
    else
      match MatchAt(s, i, Alternatives())
      case NoToken => Matches(s, i + 1)
      case Token(e, k) => if i < e <= |s| then [Span(i, e, k)] + Matches(s, e) else []
  }

  // ---------------------------------------------------------------- the token in closed form

  /** The dot of a fraction stands at `j`. */
  predicate FractionAt(s: seq<int>, j: nat) {
    IsChar(s, j, DOT) && At(s, j + 1, Digit)
  }

  function TokenAt(s: seq<int>, i: nat): Token
    requires i < |s|
  {
    var ch := s[i];
    if ch == DOUBLE_QUOTE then QuotedAt(s, i, DOUBLE_QUOTE, Comment)
    else if ch == QUOTE then QuotedAt(s, i, QUOTE, Str)
    else if ch == HASH then
      if At(s, i + 1, IdentStart) then Token(RunEnd(Word, s, i + 2), Symbol) else NoToken
    else if WordAt(s, i - 1) then NoToken
    else if InClass(IdentStart, ch) then NameFrom(s, i)
    else if InClass(Digit, ch) then NumberFrom(s, i)
    else NoToken
  }

  /** The token of the name, or the number, that begins at `i`. */
  function NameFrom(s: seq<int>, i: nat): Token
    requires i < |s|
  {
    var j := RunEnd(Word, s, i + 1);
    if IsChar(s, j, COLON) then Token(j + 1, Keyword)
    else if IsPseudo(s[i..j]) then Token(j, Pseudo) else NoToken
  }

  function NumberFrom(s: seq<int>, i: nat): Token
    requires i < |s|
  {
    var j := RunEnd(Digit, s, i + 1);
    if FractionAt(s, j) then
      var k := RunEnd(Digit, s, j + 2);
      Token(if WordAt(s, k) then j else k, Number)
    else if WordAt(s, j) then NoToken else Token(j, Number)
  }

  function QuotedAt(s: seq<int>, i: nat, q: int, kind: Kind): Token
    requires i < |s|
  {
    var j := RunEnd(Except(q), s, i + 1);
    if j < |s| then Token(j + 1, kind) else NoToken
  }

  lemma {:induction false} QuotedEnds(s: seq<int>, i: nat, q: int)
    requires i < |s|
    ensures var j := RunEnd(Except(q), s, i + 1);
            Ends(Quoted(q), s, i) == if s[i] == q && j < |s| then [j + 1] else []
  {
    CatAtUnit(Exactly(q), Cat(Star(Unit(Except(q))), Unit(Exactly(q))), s, i);
    RunThenClose(Except(q), Exactly(q), s, i + 1);
    RunIsMaximal(Except(q), s, i + 1);
  }

  lemma {:induction false} SymbolEnds(s: seq<int>, i: nat)
    requires i < |s|
    ensures var ends := Ends(SYMBOL, s, i);
            if s[i] == HASH && At(s, i + 1, IdentStart) then ends != [] && ends[0] == RunEnd(Word, s, i + 2)
            else ends == []
  {
    var tail := Cat(Unit(IdentStart), Star(Unit(Word)));
    CatAtUnit(Exactly(HASH), tail, s, i);
    CatAtUnit(IdentStart, Star(Unit(Word)), s, i + 1);
    if s[i] == HASH && At(s, i + 1, IdentStart) {
      StarIsRun(Word, s, i + 2);
    }
  }

  lemma {:induction false} KeywordEnds(s: seq<int>, i: nat)
    requires i < |s|
    ensures var j := RunEnd(Word, s, i + 1);
            Ends(KEYWORD, s, i) ==
              if !WordAt(s, i - 1) && InClass(IdentStart, s[i]) && IsChar(s, j, COLON) then [j + 1] else []
  {
    var tail := Cat(Star(Unit(Word)), Unit(Exactly(COLON)));
    CatAtBoundary(Cat(Unit(IdentStart), tail), s, i);
    CatAtUnit(IdentStart, tail, s, i);
    RunThenClose(Word, Exactly(COLON), s, i + 1);
  }

  /** `w` stands at `i`. */
  predicate Spells(s: seq<int>, i: nat, w: seq<int>) {
    i + |w| <= |s| && forall k :: 0 <= k < |w| ==> s[i + k] == w[k]
  }

  lemma {:induction false} SpellsStep(s: seq<int>, i: nat, w: seq<int>)
    requires w != []
    ensures Spells(s, i, w) <==> i < |s| && s[i] == w[0] && Spells(s, i + 1, w[1..])
  {
    if i < |s| && s[i] == w[0] && Spells(s, i + 1, w[1..]) {
      forall k | 0 <= k < |w| ensures s[i + k] == w[k] {
        if k > 0 {
          assert s[i + 1 + (k - 1)] == w[1..][k - 1];
        }
      }
    }
    if Spells(s, i, w) {
      forall k | 0 <= k < |w| - 1 ensures s[i + 1 + k] == w[1..][k] {
        assert s[i + (k + 1)] == w[k + 1];
      }
    }
  }

  lemma {:induction false} LiteralEnds(s: seq<int>, i: nat, w: seq<int>)
    requires i <= |s| && w != []
    ensures Ends(Literal(w), s, i) == if Spells(s, i, w) then [i + |w|] else []
    decreases |w|
  {
    SpellsStep(s, i, w);
    if |w| > 1 {
      CatAtUnit(Exactly(w[0]), Literal(w[1..]), s, i);
      if i < |s| {
        LiteralEnds(s, i + 1, w[1..]);
      }
    }
  }

  predicate AllWord(w: seq<int>) {
    forall k :: 0 <= k < |w| ==> InClass(Word, w[k])
  }

  /** A literal word and then `\b` match exactly when the literal is the whole run of word characters. */
  lemma {:induction false} WordThenBoundary(s: seq<int>, i: nat, w: seq<int>)
    requires i <= |s| && w != [] && AllWord(w)
    ensures var j := RunEnd(Word, s, i);
            EndsAfter(Boundary, s, i, Ends(Literal(w), s, i)) == if s[i..j] == w then [j] else []
  {
    var j, e := RunEnd(Word, s, i), i + |w|;
    LiteralEnds(s, i, w);
    RunIsMaximal(Word, s, i);
    if Spells(s, i, w) {
      OneStart(Boundary, s, i, e);
      forall k | i <= k < e ensures InClass(Word, s[k]) {
        assert s[i + (k - i)] == w[k - i];
      }
      assert WordAt(s, e - 1);
      assert s[i..e] == w;
    } else {
      assert EndsAfter(Boundary, s, i, []) == [];
    }
  }

  lemma {:induction false} WordsThenBoundary(s: seq<int>, i: nat, words: seq<string>)
    requires i <= |s| && words != [] && "" !in words
    requires forall k :: 0 <= k < |words| ==> AllWord(Codes(words[k]))
    ensures var j := RunEnd(Word, s, i);
            var ends := EndsAfter(Boundary, s, i, Ends(Words(words), s, i));
            if OneOf(s[i..j], words) then ends != [] && ends[0] == j else ends == []
    decreases |words|
  {
    var j := RunEnd(Word, s, i);
    assert words[0] in words;
    WordThenBoundary(s, i, Codes(words[0]));
    if |words| > 1 {
      EndsAfterAppend(Boundary, s, i, Ends(Literal(Codes(words[0])), s, i), Ends(Words(words[1..]), s, i));
      WordsThenBoundary(s, i, words[1..]);
    } else {
      assert !OneOf(s[i..j], words[1..]);
    }
  }

  lemma {:induction false} PseudoWords()
    ensures "" !in PSEUDO && forall k :: 0 <= k < |PSEUDO| ==> AllWord(Codes(PSEUDO[k]))
    ensures !OneOf([], PSEUDO)
  {
    NoEmptyWord(PSEUDO);
  }

  lemma {:induction false} NoEmptyWord(words: seq<string>)
    requires "" !in words
    ensures !OneOf([], words)
  {
    if words != [] {
      assert words[0] in words;
      NoEmptyWord(words[1..]);
    }
  }

  lemma {:induction false} PseudoEnds(s: seq<int>, i: nat)
    requires i < |s|
    ensures var j := RunEnd(Word, s, i);
            var ends := (PseudoWords(); Ends(Cat(Boundary, Cat(Words(PSEUDO), Boundary)), s, i));
            if !WordAt(s, i - 1) && WordAt(s, i) && IsPseudo(s[i..j]) then ends != [] && ends[0] == j else ends == []
  {
    PseudoWords();
    CatAtBoundary(Cat(Words(PSEUDO), Boundary), s, i);
    WordsThenBoundary(s, i, PSEUDO);
    if !WordAt(s, i) {
      assert s[i..RunEnd(Word, s, i)] == [];
    }
  }

  /** A pseudo-variable does not start with a digit. */
  lemma {:induction false} PseudoStartsIdent(w: seq<int>)
    requires IsPseudo(w)
    ensures w != [] && InClass(IdentStart, w[0])
  {
    assert forall k :: 0 <= k < |PSEUDO| ==> PSEUDO[k] != "" && InClass(IdentStart, Codes(PSEUDO[k])[0]);
    FirstOfOne(w, PSEUDO);
  }

  lemma {:induction false} FirstOfOne(w: seq<int>, words: seq<string>)
    requires OneOf(w, words)
    requires forall k :: 0 <= k < |words| ==> words[k] != "" && InClass(IdentStart, Codes(words[k])[0])
    ensures w != [] && InClass(IdentStart, w[0])
  {
    if w != Codes(words[0]) {
      FirstOfOne(w, words[1..]);
    }
  }

  // ---------------------------------------------------------------- numbers

  lemma {:induction false} BoundaryEnds(s: seq<int>, i: nat)
    requires 0 < i <= |s| && WordAt(s, i - 1)
    ensures Ends(Boundary, s, i) == if WordAt(s, i) then [] else [i]
  {
  }

  lemma {:induction false} FractionEnds(s: seq<int>, j: nat)
    requires j <= |s|
    ensures Ends(FRACTION, s, j) == if FractionAt(s, j) then Down(RunEnd(Digit, s, j + 2), j + 2) else []
  {
    CatAtUnit(Exactly(DOT), Cat(Unit(Digit), Star(Unit(Digit))), s, j);
    if j < |s| {
      CatAtUnit(Digit, Star(Unit(Digit)), s, j + 1);
    }
    if FractionAt(s, j) {
      StarIsRun(Digit, s, j + 2);
    }
  }

  lemma {:induction false} DigitsThenBoundary(s: seq<int>, i: nat)
    requires 0 < i <= |s| && WordAt(s, i - 1)
    ensures var k := RunEnd(Digit, s, i);
            EndsAfter(Boundary, s, i, Down(k, i)) == if WordAt(s, k) then [] else [k]
  {
    var k := RunEnd(Digit, s, i);
    RunIsMaximal(Digit, s, i);
    forall e | i <= e < k ensures Ends(Boundary, s, e) == [] {
      assert InClass(Digit, s[e]) && (e > i ==> InClass(Digit, s[e - 1]));
    }
    OnlyFromTop(Boundary, s, i, k);
    assert k > i ==> InClass(Digit, s[k - 1]);
    BoundaryEnds(s, k);
  }

  lemma {:induction false} FractionThenBoundary(s: seq<int>, j: nat)
    requires j <= |s|
    ensures EndsAfter(Boundary, s, j, Ends(FRACTION, s, j)) ==
              if !FractionAt(s, j) then [] else var k := RunEnd(Digit, s, j + 2); if WordAt(s, k) then [] else [k]
  {
    FractionEnds(s, j);
    if FractionAt(s, j) {
      SameStarts(Boundary, s, j, j + 2, Ends(FRACTION, s, j));
      DigitsThenBoundary(s, j + 2);
    }
  }

  /** After the digits: the fraction if it is there and ends a word, else nothing more. */
  lemma {:induction false} NumberTailEnds(s: seq<int>, j: nat)
    requires 0 < j <= |s| && WordAt(s, j - 1)
    ensures var ends := Ends(Cat(Maybe(FRACTION), Boundary), s, j);
            if FractionAt(s, j) then
              var k := RunEnd(Digit, s, j + 2);
              ends != [] && ends[0] == if WordAt(s, k) then j else k
            else ends == if WordAt(s, j) then [] else [j]
  {
    FractionThenBoundary(s, j);
    EndsAfterAppend(Boundary, s, j, Ends(FRACTION, s, j), [j]);
    OneStart(Boundary, s, j, j);
    BoundaryEnds(s, j);
  }

  /** Giving digits back never helps: no number ends between two digits. */
  lemma {:induction false} DigitsThenTail(s: seq<int>, i: nat)
    requires 0 < i <= |s| && WordAt(s, i - 1)
    ensures var tail, j := Cat(Maybe(FRACTION), Boundary), RunEnd(Digit, s, i);
            WordAt(s, j - 1) && Ends(Cat(Star(Unit(Digit)), tail), s, i) == Ends(tail, s, j)
  {
    var tail, j := Cat(Maybe(FRACTION), Boundary), RunEnd(Digit, s, i);
    StarIsRun(Digit, s, i);
    RunIsMaximal(Digit, s, i);
    forall e | i <= e < j ensures Ends(tail, s, e) == [] {
      assert InClass(Digit, s[e]) && (e > i ==> InClass(Digit, s[e - 1]));
      NumberTailEnds(s, e);
    }
    OnlyFromTop(tail, s, i, j);
    assert j > i ==> InClass(Digit, s[j - 1]);
  }

  lemma {:induction false} NumberEnds(s: seq<int>, i: nat)
    requires i < |s|
    ensures var ends := Ends(NUMBER, s, i);
            var j := RunEnd(Digit, s, i + 1);
            if WordAt(s, i - 1) || !InClass(Digit, s[i]) then ends == []
            else if FractionAt(s, j) then
              var k := RunEnd(Digit, s, j + 2);
              ends != [] && ends[0] == if WordAt(s, k) then j else k
            else ends == if WordAt(s, j) then [] else [j]
  {
    var rest := Cat(Star(Unit(Digit)), Cat(Maybe(FRACTION), Boundary));
    CatAtBoundary(Cat(Unit(Digit), rest), s, i);
    CatAtUnit(Digit, rest, s, i);
    if InClass(Digit, s[i]) {
      DigitsThenTail(s, i + 1);
      NumberTailEnds(s, RunEnd(Digit, s, i + 1));
    }
  }

  // ---------------------------------------------------------------- the match in closed form

  function First(ends: seq<nat>, kind: Kind): Token {
    if ends == [] then NoToken else Token(ends[0], kind)
  }

  function OrElse(a: Token, b: Token): Token {
    if a == NoToken then b else a
  }

  // what each of the last three alternatives matches
  function KeywordAt(s: seq<int>, i: nat): Token
    requires i < |s|
  {
    var j := RunEnd(Word, s, i + 1);
    if !WordAt(s, i - 1) && InClass(IdentStart, s[i]) && IsChar(s, j, COLON) then Token(j + 1, Keyword) else NoToken
  }

  function PseudoAt(s: seq<int>, i: nat): Token
    requires i < |s|
  {
    var j := RunEnd(Word, s, i);
    if !WordAt(s, i - 1) && WordAt(s, i) && IsPseudo(s[i..j]) then Token(j, Pseudo) else NoToken
  }

  function NumberAt(s: seq<int>, i: nat): Token
    requires i < |s|
  {
    if WordAt(s, i - 1) || !InClass(Digit, s[i]) then NoToken else NumberFrom(s, i)
  }

  lemma {:induction false} MatchUnfolds(s: seq<int>, i: nat, alts: seq<(Kind, Pattern)>)
    requires i <= |s| && alts != []
    ensures MatchAt(s, i, alts) == OrElse(First(Ends(alts[0].1, s, i), alts[0].0), MatchAt(s, i, alts[1..]))
  {
  }

  function WordAlternatives(): seq<(Kind, Pattern)> {
    PseudoWords();
    [(Keyword, KEYWORD), (Pseudo, Cat(Boundary, Cat(Words(PSEUDO), Boundary))), (Number, NUMBER)]
  }

  lemma {:induction false} NumberMatch(s: seq<int>, i: nat)
    requires i < |s|
    ensures MatchAt(s, i, WordAlternatives()[2..]) == NumberAt(s, i)
  {
    MatchUnfolds(s, i, WordAlternatives()[2..]);
    NumberEnds(s, i);
  }

  lemma {:induction false} PseudoMatch(s: seq<int>, i: nat)
    requires i < |s|
    ensures MatchAt(s, i, WordAlternatives()[1..]) == OrElse(PseudoAt(s, i), NumberAt(s, i))
  {
    MatchUnfolds(s, i, WordAlternatives()[1..]);
    assert WordAlternatives()[1..][1..] == WordAlternatives()[2..];
    NumberMatch(s, i);
    PseudoEnds(s, i);
  }

  lemma {:induction false} KeywordMatch(s: seq<int>, i: nat)
    requires i < |s|
    ensures MatchAt(s, i, WordAlternatives()) == OrElse(KeywordAt(s, i), OrElse(PseudoAt(s, i), NumberAt(s, i)))
  {
    MatchUnfolds(s, i, WordAlternatives());
    PseudoMatch(s, i);
    KeywordEnds(s, i);
  }

  lemma {:induction false} SymbolMatch(s: seq<int>, i: nat)
    requires i < |s|
    ensures MatchAt(s, i, Alternatives()[2..]) ==
              if s[i] == HASH && At(s, i + 1, IdentStart) then Token(RunEnd(Word, s, i + 2), Symbol)
              else MatchAt(s, i, WordAlternatives())
  {
    MatchUnfolds(s, i, Alternatives()[2..]);
    assert Alternatives()[2..][1..] == WordAlternatives();
    SymbolEnds(s, i);
  }

  lemma {:induction false} QuotedMatch(s: seq<int>, i: nat)
    requires i < |s|
    ensures MatchAt(s, i, Alternatives()) ==
              OrElse(if s[i] == DOUBLE_QUOTE then QuotedAt(s, i, DOUBLE_QUOTE, Comment) else NoToken,
              OrElse(if s[i] == QUOTE then QuotedAt(s, i, QUOTE, Str) else NoToken,
                     MatchAt(s, i, Alternatives()[2..])))
  {
    MatchUnfolds(s, i, Alternatives());
    MatchUnfolds(s, i, Alternatives()[1..]);
    assert Alternatives()[1..][1..] == Alternatives()[2..];
    QuotedEnds(s, i, DOUBLE_QUOTE);
    QuotedEnds(s, i, QUOTE);
  }

  /** The expression's match, backtracking and all, is `TokenAt`. */
  lemma {:induction false} MatchIsToken(s: seq<int>, i: nat)
    requires i < |s|
    ensures MatchAt(s, i, Alternatives()) == TokenAt(s, i)
  {
    QuotedMatch(s, i);
    SymbolMatch(s, i);
    KeywordMatch(s, i);
    if InClass(Digit, s[i]) && IsPseudo(s[i..RunEnd(Word, s, i)]) {
      PseudoStartsIdent(s[i..RunEnd(Word, s, i)]);
    }
  }

  // ---------------------------------------------------------------- the highlighting loop

  datatype Piece = Plain(text: seq<int>) | Coloured(text: seq<int>, kind: Kind)

  function TextOf(pieces: seq<Piece>): seq<int> {
    if pieces == [] then [] else TextOf(pieces[..|pieces| - 1]) + pieces[|pieces| - 1].text
  }

  /** The coloured pieces, by where their text stands. */
  function SpansOf(pieces: seq<Piece>): seq<Span> {
    if pieces == [] then []
    else
      var before, x := pieces[..|pieces| - 1], pieces[|pieces| - 1];
      SpansOf(before) + if x.Coloured? then [Span(|TextOf(before)|, |TextOf(before)| + |x.text|, x.kind)] else []
  }

  /** `exec` with `lastIndex`: the leftmost match from there on. */
  method Exec(s: seq<int>, lastIndex: nat) returns (found: bool, start: nat, end: nat, kind: Kind)
    requires lastIndex <= |s|
    ensures found ==>
              lastIndex <= start < end <= |s| && Matches(s, lastIndex) == [Span(start, end, kind)] + Matches(s, end)
    ensures !found ==> Matches(s, lastIndex) == []
  {
    start := lastIndex;
    kind := Comment;
    while start < |s|
      invariant lastIndex <= start <= |s|
      invariant Matches(s, start) == Matches(s, lastIndex)
    {
      MatchIsToken(s, start);
      match MatchAt(s, start, Alternatives()) {
        case NoToken => start := start + 1;
        case Token(e, k) => return true, start, e, k;
      }
    }
    return false, start, start, kind;
  }

  /** `pieces` is the output for the source up to `last`, with `rest` of the matches to come. */
  ghost predicate CutTo(source: seq<int>, pieces: seq<Piece>, last: nat, rest: seq<Span>) {
    last <= |source| && TextOf(pieces) == source[..last] && SpansOf(pieces) + rest == Matches(source, 0)
  }

  function AddMatch(source: seq<int>, pieces: seq<Piece>, last: nat, start: nat, end: nat, kind: Kind): seq<Piece>
    requires last <= start <= end <= |source|
  {
    Push(Push(pieces, Plain(source[last..start])), Coloured(source[start..end], kind))
  }

  lemma {:induction false} MatchAdded(source: seq<int>, pieces: seq<Piece>, last: nat, start: nat, end: nat,
                                      kind: Kind, rest: seq<Span>)
    requires last <= start < end <= |source| && CutTo(source, pieces, last, [Span(start, end, kind)] + rest)
    ensures CutTo(source, AddMatch(source, pieces, last, start, end, kind), end, rest)
  {
    assert source[..last] + source[last..start] == source[..start];
    assert source[..start] + source[start..end] == source[..end];
    var x := [Span(start, end, kind)];
    assert SpansOf(pieces) + (x + rest) == (SpansOf(pieces) + [] + x) + rest;
  }

  /** `highlightSmalltalk`: the text comes back whole, cut at exactly the matches. */
  method HighlightSmalltalk(source: seq<int>) returns (pieces: seq<Piece>)
    ensures TextOf(pieces) == source && SpansOf(pieces) == Matches(source, 0)
  {
    pieces := [];
    var last := 0;
    ghost var rest := Matches(source, 0);
    while true
      invariant CutTo(source, pieces, last, rest) && rest == Matches(source, last)
      decreases |source| - last
    {
      var found, start, end, kind := Exec(source, last);
      if !found {
        break;
      }
      rest := Matches(source, end);
      MatchAdded(source, pieces, last, start, end, kind, rest);
      pieces := AddMatch(source, pieces, last, start, end, kind);
      last := end;
    }
    assert source[..last] + source[last..] == source;
    pieces := Push(pieces, Plain(source[last..]));
  }

  function Push(pieces: seq<Piece>, x: Piece): (r: seq<Piece>)
    ensures TextOf(r) == TextOf(pieces) + x.text
    ensures SpansOf(r) == SpansOf(pieces)
              + if x.Coloured? then [Span(|TextOf(pieces)|, |TextOf(pieces)| + |x.text|, x.kind)] else []
  {
    assert (pieces + [x])[..|pieces|] == pieces;
    pieces + [x]
  }
}

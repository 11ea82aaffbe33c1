/** Checked colouring: which sends are flagged, stated on the tokens of the text. */
module ColorizeFlags {
  import opened Colorize
  import opened Options
  import opened Regex
  import Text

  /** What stands at a place of the text, by its characters alone. */
  datatype Class =
    | Remark          // a closed comment
    | Quoted          // a closed string
    | Unclosed        // a comment or string without an end: it takes the rest of the text
    | ArrayOpen       // #( or #[
    | Name            // a symbol
    | CharLiteral     // $x
    | KeywordPart     // a word and its colon
    | Identifier
    | Digits          // a number, with any letters that follow it
    | WordRest        // word characters after a word character
    | Blank
    | Opener          // ( or [
    | BraceOpen           // {
    | Closer          // ) or ]
    | BraceClose        // }
    | Cascade         // ;
    | Other

  datatype Token = Token(start: nat, end: nat, what: Class)

  function ClassAt(s: seq<int>, i: nat): Class
    requires i < |s|
  {
    var ch := s[i];
    if ch == '"' as int then if RunEnd(Except(ch), s, i + 1) < |s| then Remark else Unclosed
    else if ch == '\'' as int then if RunEnd(Except(ch), s, i + 1) < |s| then Quoted else Unclosed
    else if ch == '#' as int && (IsChar(s, i + 1, '(' as int) || IsChar(s, i + 1, '[' as int)) then ArrayOpen
    else if ch == '#' as int && At(s, i + 1, IdentStart) then Name
    else if ch == '$' as int && i + 1 < |s| then CharLiteral
    else if InClass(Word, ch) && WordAt(s, i - 1) then WordRest
    else if InClass(IdentStart, ch) then
      if IsChar(s, RunEnd(Word, s, i + 1), ':' as int) then KeywordPart else Identifier
    else if InClass(Digit, ch) then Digits
    else if Text.InRanges(ch, Text.WHITE_SPACE) then Blank
    else MarkClass(ch)
  }

  function MarkClass(ch: int): Class {
    if ch == '(' as int || ch == '[' as int then Opener
    else if ch == '{' as int then BraceOpen
    else if ch == ')' as int || ch == ']' as int then Closer
    else if ch == '}' as int then BraceClose
    else if ch == ';' as int then Cascade
    else Other
  }

  function EndAt(s: seq<int>, i: nat): (j: nat)
    requires i < |s|
    ensures i < j <= |s|
  {
    match ClassAt(s, i)
    case Remark => RunEnd(Except(s[i]), s, i + 1) + 1
    case Quoted => RunEnd(Except(s[i]), s, i + 1) + 1
    case Unclosed => |s|
    case ArrayOpen => i + 2
    case Name => SymbolTail(s, RunEnd(Word, s, i + 1))
    case CharLiteral => i + 2
    case KeywordPart => RunEnd(Word, s, i + 1) + 1
    case Identifier => RunEnd(Word, s, i + 1)
    case Digits =>
      var j := NumberTail(s, RunEnd(Digit, s, i + 1));
      if WordAt(s, j) then RunEnd(Word, s, j) else j
    case WordRest => RunEnd(Word, s, i + 1)
    case _ => i + 1
  }

  function Tokens(s: seq<int>, i: nat): seq<Token>
    decreases |s| - i
  {
    if i >= |s| then [] else [Token(i, EndAt(s, i), ClassAt(s, i))] + Tokens(s, EndAt(s, i))
  }

  // ---------------------------------------------------------------- the rule

  predicate Transparent(c: Class) {
    c.Blank? || c.Remark?
  }

  /** After it an identifier is a unary send. */
  predicate EndsPrimary(c: Class) {
    || c.Identifier? || c.Quoted? || c.Name? || c.CharLiteral? || c.Digits? || c.WordRest?
    || c.Closer? || c.BraceClose? || c.Cascade?
  }

  /** The nearest token before the `k`-th, blanks and comments aside, ends a primary. */
  predicate AfterPrimary(ts: seq<Token>, k: nat)
    requires k <= |ts|
  {
    exists p :: 0 <= p < k && EndsPrimary(ts[p].what) && forall q :: p < q < k ==> Transparent(ts[q].what)
  }

  function Change(c: Class): int {
    match c
    case ArrayOpen => 1
    case Opener => 1
    case BraceOpen => 1
    case Closer => -1
    case _ => 0
  }

  /** Brackets opened less brackets closed by the tokens from `p` to `q`; a `}` closes nothing. */
  function Balance(ts: seq<Token>, p: nat, q: nat): int
    requires p <= q <= |ts|
  {
    if p == q then 0 else Balance(ts, p, q - 1) + Change(ts[q - 1].what)
  }

  /** The array that token `p` opens is open all the way to token `k`. */
  predicate OpenArray(ts: seq<Token>, p: nat, k: nat)
    requires k <= |ts|
  {
    p < k && ts[p].what.ArrayOpen? && forall q :: p < q <= k ==> Balance(ts, p, q) > 0
  }

  ghost predicate InArray(ts: seq<Token>, k: nat)
    requires k <= |ts|
  {
    exists p: nat :: OpenArray(ts, p, k)
  }

  const PSEUDO_VARIABLES :=
    [Codes("self"), Codes("super"), Codes("true"), Codes("false"), Codes("nil"), Codes("thisContext")]

  /** An identifier in send position, or a keyword that assigns nothing, outside all arrays, that is no
      known selector or part of one. */
  ghost predicate Flagged(s: seq<int>, ts: seq<Token>, k: nat, sets: SendSets)
    requires k < |ts| && ts[k].start < ts[k].end <= |s|
  {
    var t := ts[k];
    var word := s[t.start..t.end];
    match t.what
    case Identifier =>
      && 'a' as int <= s[t.start] <= 'z' as int && word !in PSEUDO_VARIABLES && word !in sets.unary
      && !InArray(ts, k) && AfterPrimary(ts, k)
    case KeywordPart =>
      !IsChar(s, t.end, '=' as int) && word !in sets.keywordParts && !InArray(ts, k)
    case _ => false
  }

  // ---------------------------------------------------------------- the scan follows it

  /** The send-position state after a token. */
  predicate Moved(c: Cursor, what: Class, next: Cursor) {
    && (next.prevPrimary <==> if Transparent(what) then c.prevPrimary else EndsPrimary(what))
    && next.literalDepth == if what.ArrayOpen? then c.literalDepth + 1
                            else if c.literalDepth == 0 then 0
                            else c.literalDepth + Change(what)
  }

  /** Whether the scan's step flags the token it takes. */
  predicate FlagsHere(s: seq<int>, c: Cursor, sets: SendSets)
    requires c.i < |s|
  {
    var word := s[c.i..EndAt(s, c.i)];
    match ClassAt(s, c.i)
    case Identifier =>
      && 'a' as int <= s[c.i] <= 'z' as int && word !in PSEUDO_VARIABLES && word !in sets.unary
      && c.literalDepth == 0 && c.prevPrimary
    case KeywordPart =>
      !IsChar(s, EndAt(s, c.i), '=' as int) && word !in sets.keywordParts && c.literalDepth == 0
    case _ => false
  }

  ghost predicate StepTold(s: seq<int>, c: Cursor, sets: SendSets)
    requires c.i < |s|
  {
    var (next, spans) := Step(s, c, Some(sets));
    && next.i == EndAt(s, c.i)
    && (!ClassAt(s, c.i).Unclosed? ==> Moved(c, ClassAt(s, c.i), next))
    && forall x :: x in spans && x.kind == Unknown
                   <==> FlagsHere(s, c, sets) && x == Span(c.i, EndAt(s, c.i), Unknown)
  }

  lemma {:induction false} OneOfFirst(w: seq<int>, first: string, rest: seq<string>)
    ensures OneOf(w, [first] + rest) <==> w == Codes(first) || OneOf(w, rest)
  {
    assert ([first] + rest)[1..] == rest;
  }

  lemma {:induction false} PseudoIs(w: seq<int>)
    ensures IsPseudo(w) <==> w in PSEUDO_VARIABLES
  {
    OneOfFirst(w, "self", ["super", "true", "false", "nil", "thisContext"]);
    OneOfFirst(w, "super", ["true", "false", "nil", "thisContext"]);
    OneOfFirst(w, "true", ["false", "nil", "thisContext"]);
    OneOfFirst(w, "false", ["nil", "thisContext"]);
    OneOfFirst(w, "nil", ["thisContext"]);
    OneOfFirst(w, "thisContext", []);
    assert PSEUDO == ["self"] + ["super", "true", "false", "nil", "thisContext"];
    assert ["super", "true", "false", "nil", "thisContext"] == ["super"] + ["true", "false", "nil", "thisContext"];
    assert ["true", "false", "nil", "thisContext"] == ["true"] + ["false", "nil", "thisContext"];
    assert ["false", "nil", "thisContext"] == ["false"] + ["nil", "thisContext"];
    assert ["nil", "thisContext"] == ["nil"] + ["thisContext"] && ["thisContext"] == ["thisContext"] + [];
  }

  lemma {:induction false} QuotedTold(s: seq<int>, c: Cursor, sets: SendSets)
    requires c.i < |s| && s[c.i] in {'"' as int, '\'' as int}
    ensures StepTold(s, c, sets)
  {
  }

  lemma {:induction false} LiteralTold(s: seq<int>, c: Cursor, sets: SendSets)
    requires c.i < |s| && ClassAt(s, c.i) in {ArrayOpen, Name, CharLiteral}
    ensures StepTold(s, c, sets)
  {
  }

  lemma {:induction false} WordTold(s: seq<int>, c: Cursor, sets: SendSets)
    requires c.i < |s| && InClass(Word, s[c.i])
    ensures StepTold(s, c, sets)
  {
    PseudoIs(s[c.i..RunEnd(Word, s, c.i + 1)]);
  }

  lemma {:induction false} MarkTold(s: seq<int>, c: Cursor, sets: SendSets)
    requires c.i < |s| && !InClass(Word, s[c.i]) && s[c.i] !in {'"' as int, '\'' as int}
    requires ClassAt(s, c.i) !in {ArrayOpen, Name, CharLiteral}
    ensures StepTold(s, c, sets)
  {
  }

  /** Every step takes one token, moves the state by its class and flags it by that state. */
  lemma {:induction false} StepIsToken(s: seq<int>, c: Cursor, sets: SendSets)
    requires c.i < |s|
    ensures StepTold(s, c, sets)
  {
    if s[c.i] in {'"' as int, '\'' as int} {
      QuotedTold(s, c, sets);
    } else if ClassAt(s, c.i) in {ArrayOpen, Name, CharLiteral} {
      LiteralTold(s, c, sets);
    } else if InClass(Word, s[c.i]) {
      WordTold(s, c, sets);
    } else {
      MarkTold(s, c, sets);
    }
  }

  /** The scan's state before token `k` is what the tokens before it say. */
  ghost predicate Tracks(c: Cursor, ts: seq<Token>, k: nat)
    requires k <= |ts|
  {
    && (c.prevPrimary <==> AfterPrimary(ts, k))
    && (forall p: nat :: OpenArray(ts, p, k) ==> c.literalDepth >= Balance(ts, p, k))
    && (c.literalDepth > 0 ==> exists p: nat :: OpenArray(ts, p, k) && Balance(ts, p, k) == c.literalDepth)
  }

  lemma {:induction false} DepthTracks(c: Cursor, next: Cursor, ts: seq<Token>, k: nat, n: nat)
    requires n == k + 1 <= |ts| && Tracks(c, ts, k) && Moved(c, ts[k].what, next)
    ensures forall p: nat :: OpenArray(ts, p, n) ==> next.literalDepth >= Balance(ts, p, n)
    ensures next.literalDepth > 0 ==>
              exists p: nat :: OpenArray(ts, p, n) && Balance(ts, p, n) == next.literalDepth
  {
    forall p: nat | OpenArray(ts, p, n) ensures next.literalDepth >= Balance(ts, p, n) {
      if p < k {
        assert OpenArray(ts, p, k);
      }
    }
    if next.literalDepth > 0 {
      if c.literalDepth > 0 {
        var p: nat :| OpenArray(ts, p, k) && Balance(ts, p, k) == c.literalDepth;
        assert OpenArray(ts, p, n) && Balance(ts, p, n) == next.literalDepth;
      } else {
        assert Balance(ts, k, n) == Balance(ts, k, k) + 1;
        assert OpenArray(ts, k, n) && Balance(ts, k, n) == next.literalDepth;
      }
    }
  }

  lemma {:induction false} PrimaryTracks(c: Cursor, next: Cursor, ts: seq<Token>, k: nat)
    requires k < |ts| && (c.prevPrimary <==> AfterPrimary(ts, k)) && Moved(c, ts[k].what, next)
    ensures next.prevPrimary <==> AfterPrimary(ts, k + 1)
  {
    if EndsPrimary(ts[k].what) {
      assert AfterPrimary(ts, k + 1);
    } else if Transparent(ts[k].what) && c.prevPrimary {
      var p :| 0 <= p < k && EndsPrimary(ts[p].what) && forall q :: p < q < k ==> Transparent(ts[q].what);
      assert AfterPrimary(ts, k + 1);
    }
  }

  lemma {:induction false} FlagsFrom(s: seq<int>, c: Cursor, ts: seq<Token>, k: nat, sets: SendSets, x: Span)
    requires k <= |ts| && ts[k..] == Tokens(s, c.i) && (c.i < |s| ==> Tracks(c, ts, k))
    requires forall m :: 0 <= m < |ts| ==> ts[m].start < ts[m].end <= |s|
    ensures x in Scan(s, c, Some(sets)) && x.kind == Unknown
            <==> exists m: nat :: k <= m < |ts| && Flagged(s, ts, m, sets) && x == Span(ts[m].start, ts[m].end, Unknown)
    decreases |s| - c.i
  {
    if c.i < |s| {
      var (next, spans) := Step(s, c, Some(sets));
      StepIsToken(s, c, sets);
      ScanStep(s, c, Some(sets));
      assert ts[k] == ts[k..][0] == Token(c.i, EndAt(s, c.i), ClassAt(s, c.i));
      assert ts[k + 1..] == ts[k..][1..] == Tokens(s, next.i);
      if next.i < |s| {
        DepthTracks(c, next, ts, k, k + 1);
        PrimaryTracks(c, next, ts, k);
      }
      FlagsFrom(s, next, ts, k + 1, sets, x);
      assert FlagsHere(s, c, sets) <==> Flagged(s, ts, k, sets);
    }
  }

  lemma {:induction false} TokensInside(s: seq<int>, i: nat)
    ensures forall m :: 0 <= m < |Tokens(s, i)| ==> Tokens(s, i)[m].start < Tokens(s, i)[m].end <= |s|
    decreases |s| - i
  {
    if i < |s| {
      TokensInside(s, EndAt(s, i));
    }
  }

  /** For every text and all sets: what checked mode flags is exactly the flagged tokens. */
  lemma {:induction false} FlaggedIff(s: seq<int>, sets: SendSets, x: Span)
    ensures forall m :: 0 <= m < |Tokens(s, 0)| ==> Tokens(s, 0)[m].start < Tokens(s, 0)[m].end <= |s|
    ensures x in Scan(s, ORIGIN, Some(sets)) && x.kind == Unknown
            <==> exists m: nat :: m < |Tokens(s, 0)| && Flagged(s, Tokens(s, 0), m, sets)
                                  && x == Span(Tokens(s, 0)[m].start, Tokens(s, 0)[m].end, Unknown)
  {
    TokensInside(s, 0);
    var ts := Tokens(s, 0);
    assert ts[0..] == ts;
    FlagsFrom(s, ORIGIN, ts, 0, sets, x);
  }
}

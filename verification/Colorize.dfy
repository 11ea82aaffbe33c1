/** The native syntax colourer: one left-to-right scan that emits spans and, given the known selectors,
    flags sends nobody implements. */
module Colorize {
  import opened Options
  import opened Regex
  import Text

  datatype Kind = Comment | Str | Symbol | Keyword | Pseudo | Number | Unknown

  /** A coloured stretch, by offsets of code points (or of code units). */
  datatype Span = Span(start: nat, end: nat, kind: Kind)

  datatype SendSets = SendSets(keywordParts: set<seq<int>>, unary: set<seq<int>>)

  function Codes(w: string): seq<int> {
    seq(|w|, i requires 0 <= i < |w| => w[i] as int)
  }

  const PSEUDO: seq<string> := ["self", "super", "true", "false", "nil", "thisContext"]

  predicate OneOf(w: seq<int>, words: seq<string>) {
    words != [] && (w == Codes(words[0]) || OneOf(w, words[1..]))
  }

  predicate IsPseudo(w: seq<int>) {
    OneOf(w, PSEUDO)
  }

  const QUOTE := 39
  const DOUBLE_QUOTE := 34
  const HASH := 35
  const DOLLAR := 36
  const COLON := 58
  const EQUALS := 61
  const DOT := 46

  predicate At(s: seq<int>, i: nat, c: CharClass) {
    i < |s| && InClass(c, s[i])
  }

  predicate IsChar(s: seq<int>, i: nat, n: int) {
    i < |s| && s[i] == n
  }

  /** The scan's position and its send-position state. */
  datatype Cursor = Cursor(i: nat, prevPrimary: bool, literalDepth: nat)

  /** Past a symbol: its word, then colon runs. */
  function SymbolTail(s: seq<int>, j: nat): (k: nat)
    requires j <= |s|
    ensures j <= k <= |s|
    decreases |s| - j
  {
    if IsChar(s, j, COLON) then SymbolTail(s, RunEnd(Word, s, j + 1)) else j
  }

  /** The digits after a dot that has a digit after it, or `j` itself. */
  function NumberTail(s: seq<int>, j: nat): (k: nat)
    requires j <= |s|
    ensures j <= k <= |s|
  {
    if IsChar(s, j, DOT) && At(s, j + 1, Digit) then RunEnd(Digit, s, j + 2) else j
  }

  function KeywordKind(s: seq<int>, i: nat, j: nat, literalDepth: nat, sets: Option<SendSets>): Kind
    requires i <= j < |s|
  {
    if sets.Some? && literalDepth == 0 && !IsChar(s, j + 1, EQUALS) && s[i..j + 1] !in sets.value.keywordParts
    then Unknown else Keyword
  }

  function WordSpans(s: seq<int>, i: nat, j: nat, c: Cursor, sets: Option<SendSets>): seq<Span>
    requires i < j <= |s|
  {
    var w := s[i..j];
    if IsPseudo(w) then [Span(i, j, Pseudo)]
    else if sets.Some? && c.literalDepth == 0 && c.prevPrimary && 97 <= s[i] <= 122 && w !in sets.value.unary
    then [Span(i, j, Unknown)]
    else []
  }

  /** From a quote to the next one; an unterminated literal is coloured to the end and ends the scan. */
  function QuotedToken(s: seq<int>, c: Cursor, quote: int, kind: Kind): (r: (Cursor, seq<Span>))
    requires c.i < |s|
    ensures c.i < r.0.i <= |s|
  {
    var j := RunEnd(Except(quote), s, c.i + 1);
    if j < |s| then (Cursor(j + 1, kind == Str || c.prevPrimary, c.literalDepth), [Span(c.i, j + 1, kind)])
    else (c.(i := |s|), [Span(c.i, |s|, kind)])
  }

  function SymbolToken(s: seq<int>, c: Cursor): (r: (Cursor, seq<Span>))
    requires c.i + 1 < |s| && InClass(IdentStart, s[c.i + 1])
    ensures c.i < r.0.i <= |s|
  {
    var j := SymbolTail(s, RunEnd(Word, s, c.i + 1));
    (Cursor(j, true, c.literalDepth), [Span(c.i, j, Symbol)])
  }

  function WordToken(s: seq<int>, c: Cursor, sets: Option<SendSets>): (r: (Cursor, seq<Span>))
    requires c.i < |s|
    ensures c.i < r.0.i <= |s|
  {
    var j := RunEnd(Word, s, c.i + 1);
    if IsChar(s, j, COLON) then
      (Cursor(j + 1, false, c.literalDepth), [Span(c.i, j + 1, KeywordKind(s, c.i, j, c.literalDepth, sets))])
    else (Cursor(j, true, c.literalDepth), WordSpans(s, c.i, j, c, sets))
  }

  function NumberToken(s: seq<int>, c: Cursor): (r: (Cursor, seq<Span>))
    requires c.i < |s|
    ensures c.i < r.0.i <= |s|
  {
    var j := NumberTail(s, RunEnd(Digit, s, c.i + 1));
    if !WordAt(s, j) then (Cursor(j, true, c.literalDepth), [Span(c.i, j, Number)])
    else (Cursor(RunEnd(Word, s, j), true, c.literalDepth), [])
  }

  /** One token, or one character between tokens: where the scan goes and what it emits. */
  function Step(s: seq<int>, c: Cursor, sets: Option<SendSets>): (r: (Cursor, seq<Span>))
    requires c.i < |s|
    ensures c.i < r.0.i <= |s|
  {
    var i, ch := c.i, s[c.i];
    if ch == DOUBLE_QUOTE then QuotedToken(s, c, DOUBLE_QUOTE, Comment)
    else if ch == QUOTE then QuotedToken(s, c, QUOTE, Str)
    else if ch == HASH && (IsChar(s, i + 1, 40) || IsChar(s, i + 1, 91)) then
      (Cursor(i + 2, false, c.literalDepth + 1), [])
    else if ch == HASH && At(s, i + 1, IdentStart) then SymbolToken(s, c)
    else if ch == DOLLAR && i + 1 < |s| then (Cursor(i + 2, true, c.literalDepth), [])
    else if InClass(IdentStart, ch) && !WordAt(s, i - 1) then WordToken(s, c, sets)
    else if InClass(Digit, ch) && !WordAt(s, i - 1) then NumberToken(s, c)
    else if InClass(Word, ch) then (Cursor(RunEnd(Word, s, i + 1), true, c.literalDepth), [])
    else (Between(c, ch), [])
  }

  /** A character that starts no token: whitespace is transparent, brackets and `;` set the state. */
  function Between(c: Cursor, ch: int): Cursor {
    if Text.InRanges(ch, Text.WHITE_SPACE) then c.(i := c.i + 1)
    else if ch == 41 || ch == 93 then
      Cursor(c.i + 1, true, if c.literalDepth > 0 then c.literalDepth - 1 else 0)
    else if ch == 125 || ch == 59 then Cursor(c.i + 1, true, c.literalDepth)
    else if ch == 40 || ch == 91 || ch == 123 then
      Cursor(c.i + 1, false, if c.literalDepth > 0 then c.literalDepth + 1 else 0)
    else Cursor(c.i + 1, false, c.literalDepth)
  }

  function Scan(s: seq<int>, c: Cursor, sets: Option<SendSets>): seq<Span>
    decreases |s| - c.i
  {
    if c.i >= |s| then [] else var (c', spans) := Step(s, c, sets); spans + Scan(s, c', sets)
  }

  const ORIGIN := Cursor(0, false, 0)

  // ---------------------------------------------------------------- UTF-16

  /** UTF-16 units of a code point. */
  function Width(n: int): nat {
    if n < 0x10000 then 1 else 2
  }

  /** The unit offset of code point `i`. */
  function Offset(s: seq<int>, i: nat): nat
    requires i <= |s|
  {
    if i == 0 then 0 else Offset(s, i - 1) + Width(s[i - 1])
  }

  predicate Within(spans: seq<Span>, from: nat, to: nat) {
    forall k :: 0 <= k < |spans| ==> from <= spans[k].start < spans[k].end <= to
  }

  /** `(utf16_start, utf16_len, kind)` of a span. */
  function Units(s: seq<int>, x: Span): (nat, nat, Kind)
    requires x.start < x.end <= |s|
  {
    OffsetMonotone(s, x.start, x.end);
    (Offset(s, x.start), Offset(s, x.end) - Offset(s, x.start), x.kind)
  }

  function Utf16(s: seq<int>, spans: seq<Span>): seq<(nat, nat, Kind)>
    requires Within(spans, 0, |s|)
  {
    seq(|spans|, k requires 0 <= k < |spans| => Units(s, spans[k]))
  }

  lemma {:induction false} OffsetMonotone(s: seq<int>, i: nat, j: nat)
    requires i <= j <= |s|
    ensures Offset(s, i) <= Offset(s, j) && (i < j ==> Offset(s, i) < Offset(s, j))
    decreases j
  {
    if i < j {
      OffsetMonotone(s, i, j - 1);
    }
  }

  // ---------------------------------------------------------------- the method

  method SkipRun(c: CharClass, chars: seq<int>, from: nat) returns (j: nat)
    requires from <= |chars|
    ensures j == RunEnd(c, chars, from)
  {
    j := from;
    while j < |chars| && InClass(c, chars[j])
      invariant from <= j <= |chars|
      invariant RunEnd(c, chars, j) == RunEnd(c, chars, from)
    {
      j := j + 1;
    }
  }

  method SkipSymbolTail(chars: seq<int>, from: nat) returns (j: nat)
    requires from <= |chars|
    ensures j == SymbolTail(chars, from)
  {
    j := from;
    while j < |chars| && chars[j] == COLON
      invariant from <= j <= |chars|
      invariant SymbolTail(chars, j) == SymbolTail(chars, from)
    {
      j := SkipRun(Word, chars, j + 1);
    }
  }

  method ScanQuoted(chars: seq<int>, c: Cursor, quote: int, kind: Kind) returns (next: Cursor, emitted: seq<Span>)
    requires c.i < |chars|
    ensures (next, emitted) == QuotedToken(chars, c, quote, kind)
  {
    var j := SkipRun(Except(quote), chars, c.i + 1);
    if j < |chars| {
      return Cursor(j + 1, kind == Str || c.prevPrimary, c.literalDepth), [Span(c.i, j + 1, kind)];
    }
    return c.(i := |chars|), [Span(c.i, |chars|, kind)];
  }

  method ScanWord(chars: seq<int>, c: Cursor, sets: Option<SendSets>) returns (next: Cursor, emitted: seq<Span>)
    requires c.i < |chars|
    ensures (next, emitted) == WordToken(chars, c, sets)
  {
    var i := c.i;
    var j := SkipRun(Word, chars, i + 1);
    if j < |chars| && chars[j] == COLON {
      var isAssign := j + 1 < |chars| && chars[j + 1] == EQUALS;
      var kind := Keyword;
      if sets.Some? && c.literalDepth == 0 && !isAssign && chars[i..j + 1] !in sets.value.keywordParts {
        kind := Unknown;
      }
      return Cursor(j + 1, false, c.literalDepth), [Span(i, j + 1, kind)];
    }
    var word := chars[i..j];
    emitted := [];
    if IsPseudo(word) {
      emitted := [Span(i, j, Pseudo)];
    } else if sets.Some? {
      if c.literalDepth == 0 && c.prevPrimary && 97 <= chars[i] <= 122 && word !in sets.value.unary {
        emitted := [Span(i, j, Unknown)];
      }
    }
    return Cursor(j, true, c.literalDepth), emitted;
  }

  method ScanNumber(chars: seq<int>, c: Cursor) returns (next: Cursor, emitted: seq<Span>)
    requires c.i < |chars|
    ensures (next, emitted) == NumberToken(chars, c)
  {
    var j := SkipRun(Digit, chars, c.i + 1);
    if j + 1 < |chars| && chars[j] == DOT && InClass(Digit, chars[j + 1]) {
      j := SkipRun(Digit, chars, j + 2);
    }
    if j >= |chars| || !InClass(Word, chars[j]) {
      return Cursor(j, true, c.literalDepth), [Span(c.i, j, Number)];
    }
    var k := SkipRun(Word, chars, j);
    return Cursor(k, true, c.literalDepth), [];
  }

  /** One turn of the scan's loop. */
  method ScanToken(chars: seq<int>, c: Cursor, sets: Option<SendSets>) returns (next: Cursor, emitted: seq<Span>)
    requires c.i < |chars|
    ensures (next, emitted) == Step(chars, c, sets)
  {
    var i, ch := c.i, chars[c.i];
    var prevWord := i > 0 && InClass(Word, chars[i - 1]);
    if ch == DOUBLE_QUOTE {
      next, emitted := ScanQuoted(chars, c, DOUBLE_QUOTE, Comment);
    } else if ch == QUOTE {
      next, emitted := ScanQuoted(chars, c, QUOTE, Str);
    } else if ch == HASH && i + 1 < |chars| && (chars[i + 1] == 40 || chars[i + 1] == 91) {
      next, emitted := Cursor(i + 2, false, c.literalDepth + 1), [];
    } else if ch == HASH && i + 1 < |chars| && InClass(IdentStart, chars[i + 1]) {
      var j := SkipRun(Word, chars, i + 1);
      j := SkipSymbolTail(chars, j);
      next, emitted := Cursor(j, true, c.literalDepth), [Span(i, j, Symbol)];
    } else if ch == DOLLAR && i + 1 < |chars| {
      next, emitted := Cursor(i + 2, true, c.literalDepth), [];
    } else if InClass(IdentStart, ch) && !prevWord {
      next, emitted := ScanWord(chars, c, sets);
    } else if InClass(Digit, ch) && !prevWord {
      next, emitted := ScanNumber(chars, c);
    } else if InClass(Word, ch) {
      var j := SkipRun(Word, chars, i + 1);
      next, emitted := Cursor(j, true, c.literalDepth), [];
    } else {
      next, emitted := Between(c, ch), [];
    }
  }

  method OffsetTable(chars: seq<int>) returns (u16At: seq<nat>)
    ensures |u16At| == |chars| + 1 && forall k :: 0 <= k <= |chars| ==> u16At[k] == Offset(chars, k)
  {
    var acc, i := 0, 0;
    u16At := [];
    while i < |chars|
      invariant 0 <= i <= |chars| && |u16At| == i && acc == Offset(chars, i)
      invariant forall k :: 0 <= k < i ==> u16At[k] == Offset(chars, k)
    {
      u16At := u16At + [acc];
      acc := acc + Width(chars[i]);
      i := i + 1;
    }
    u16At := u16At + [acc];
  }

  /** `spans_utf16_checked`; with no sets it is `spans_utf16`. */
  method SpansUtf16Checked(text: string, sets: Option<SendSets>) returns (out: seq<(nat, nat, Kind)>)
    ensures Within(Scan(Codes(text), ORIGIN, sets), 0, |text|)
    ensures out == Utf16(Codes(text), Scan(Codes(text), ORIGIN, sets))
  {
    var chars := Codes(text);
    var u16At := OffsetTable(chars);
    out := [];
    var c := ORIGIN;
    ghost var done: seq<Span>, rest := [], Scan(chars, ORIGIN, sets);
    while c.i < |chars|
      invariant c.i <= |chars| && rest == Scan(chars, c, sets)
      invariant Emitted(chars, Scan(chars, ORIGIN, sets), done, rest, out)
      decreases |chars| - c.i
    {
      var next, emitted := ScanToken(chars, c, sets);
      ScanStep(chars, c, sets);
      rest := Scan(chars, next, sets);
      Advance(chars, Scan(chars, ORIGIN, sets), done, emitted, rest, out);
      var units := Convert(chars, u16At, emitted);
      out := out + units;
      done := done + emitted;
      c := next;
    }
    assert done + [] == done;
  }

  method Convert(chars: seq<int>, u16At: seq<nat>, emitted: seq<Span>) returns (units: seq<(nat, nat, Kind)>)
    requires |emitted| <= 1 && Within(emitted, 0, |chars|)
    requires |u16At| == |chars| + 1 && forall k :: 0 <= k <= |chars| ==> u16At[k] == Offset(chars, k)
    ensures units == Utf16(chars, emitted)
  {
    if emitted == [] {
      return [];
    }
    var x := emitted[0];
    OffsetMonotone(chars, x.start, x.end);
    units := [(u16At[x.start], u16At[x.end] - u16At[x.start], x.kind)];
  }

  /** `out` is the first part, `done`, of the spans `total` in UTF-16 units; `rest` is still to come. */
  ghost predicate Emitted(s: seq<int>, total: seq<Span>, done: seq<Span>, rest: seq<Span>, out: seq<(nat, nat, Kind)>) {
    done + rest == total && Within(done, 0, |s|) && out == Utf16(s, done)
  }

  lemma {:induction false} ScanStep(s: seq<int>, c: Cursor, sets: Option<SendSets>)
    requires c.i < |s|
    ensures var (next, emitted) := Step(s, c, sets);
            && Scan(s, c, sets) == emitted + Scan(s, next, sets)
            && |emitted| <= 1 && Within(emitted, 0, |s|)
  {
    StepSpans(s, c, sets);
  }

  lemma {:induction false} Advance(s: seq<int>, total: seq<Span>, done: seq<Span>, emitted: seq<Span>,
                                   rest: seq<Span>, out: seq<(nat, nat, Kind)>)
    requires Emitted(s, total, done, emitted + rest, out) && Within(emitted, 0, |s|)
    ensures Emitted(s, total, done + emitted, rest, out + Utf16(s, emitted))
  {
    assert done + (emitted + rest) == (done + emitted) + rest;
    assert Utf16(s, done + emitted) == Utf16(s, done) + Utf16(s, emitted);
  }

  /** A step emits at most one span, inside what it consumes. */
  lemma {:induction false} StepSpans(s: seq<int>, c: Cursor, sets: Option<SendSets>)
    requires c.i < |s|
    ensures var (c', spans) := Step(s, c, sets); |spans| <= 1 && Within(spans, c.i, c'.i)
  {
  }

  // ---------------------------------------------------------------- both modes

  predicate Ordered(spans: seq<Span>) {
    forall j, k :: 0 <= j < k < |spans| ==> spans[j].end <= spans[k].start
  }

  /** Spans are non-empty, inside the text and in order without overlap, in code points. */
  lemma {:induction false} SpansAreOrdered(s: seq<int>, c: Cursor, sets: Option<SendSets>)
    ensures Within(Scan(s, c, sets), c.i, |s|) && Ordered(Scan(s, c, sets))
    decreases |s| - c.i
  {
    if c.i < |s| {
      var next := Step(s, c, sets).0;
      ScanStep(s, c, sets);
      StepSpans(s, c, sets);
      SpansAreOrdered(s, next, sets);
    }
  }

  /** The unit offset does not fall inside a surrogate pair. */
  ghost predicate OnCharacter(s: seq<int>, offset: nat) {
    exists i :: 0 <= i <= |s| && offset == Offset(s, i)
  }

  /** So they are in UTF-16 units, and every offset is that of a whole character. */
  lemma {:induction false} Utf16SpansAreOrdered(s: seq<int>, sets: Option<SendSets>)
    ensures Within(Scan(s, ORIGIN, sets), 0, |s|)
    ensures var out := Utf16(s, Scan(s, ORIGIN, sets));
            && (forall k :: 0 <= k < |out| ==>
                  && out[k].1 > 0 && out[k].0 + out[k].1 <= Offset(s, |s|)
                  && OnCharacter(s, out[k].0) && OnCharacter(s, out[k].0 + out[k].1))
            && (forall j, k :: 0 <= j < k < |out| ==> out[j].0 + out[j].1 <= out[k].0)
  {
    SpansAreOrdered(s, ORIGIN, sets);
    var spans := Scan(s, ORIGIN, sets);
    var out := Utf16(s, spans);
    forall k | 0 <= k < |out|
      ensures out[k].1 > 0 && out[k].0 + out[k].1 <= Offset(s, |s|)
      ensures OnCharacter(s, out[k].0) && OnCharacter(s, out[k].0 + out[k].1)
    {
      OffsetMonotone(s, spans[k].start, spans[k].end);
      OffsetMonotone(s, spans[k].end, |s|);
    }
    forall j, k | 0 <= j < k < |out| ensures out[j].0 + out[j].1 <= out[k].0 {
      OffsetMonotone(s, spans[j].end, spans[k].start);
    }
  }

  /** Checked spans as plain mode would colour them: a flagged keyword is a keyword again, a flagged
      identifier is not coloured. */
  function Erase(s: seq<int>, spans: seq<Span>): seq<Span>
    requires Within(spans, 0, |s|)
  {
    if spans == [] then []
    else
      var x := spans[0];
      (if x.kind != Unknown then [x] else if s[x.end - 1] == COLON then [x.(kind := Keyword)] else [])
      + Erase(s, spans[1..])
  }

  /** Only the first span of a step is ever there to erase. */
  lemma {:induction false} EraseAppend(s: seq<int>, a: seq<Span>, b: seq<Span>)
    requires |a| <= 1 && Within(a, 0, |s|) && Within(b, 0, |s|)
    ensures Within(a + b, 0, |s|) && Erase(s, a + b) == Erase(s, a) + Erase(s, b)
  {
    if a == [] {
      assert a + b == b;
    } else {
      var x, both := a[0], a + b;
      assert a == [x] && both[0] == x && both[1..] == b;
      assert both != [] && a[1..] == [];
    }
  }

  lemma {:induction false} EraseOne(s: seq<int>, x: Span)
    requires x.start < x.end <= |s|
    ensures Erase(s, [x])
            == if x.kind != Unknown then [x] else if s[x.end - 1] == COLON then [x.(kind := Keyword)] else []
  {
    assert Erase(s, [x][1..]) == [];
  }

  /** `a` and `b` go to the same place, and `b` is `a` without flags. */
  ghost predicate SameButFlags(s: seq<int>, a: (Cursor, seq<Span>), b: (Cursor, seq<Span>)) {
    a.0.i == b.0.i && Within(a.1, 0, |s|) && Erase(s, a.1) == b.1
  }

  lemma {:induction false} WordErases(s: seq<int>, c: Cursor, c': Cursor, sets: Option<SendSets>)
    requires c.i == c'.i < |s| && InClass(IdentStart, s[c.i])
    ensures SameButFlags(s, WordToken(s, c, sets), WordToken(s, c', None))
  {
    var j := RunEnd(Word, s, c.i + 1);
    if IsChar(s, j, COLON) {
      KeywordErases(s, c.i, j, c.literalDepth, c'.literalDepth, sets);
    } else {
      IdentErases(s, c, c', sets, j);
    }
  }

  lemma {:induction false} KeywordErases(s: seq<int>, i: nat, j: nat, depth: nat, depth': nat, sets: Option<SendSets>)
    requires i <= j && IsChar(s, j, COLON)
    ensures Erase(s, [Span(i, j + 1, KeywordKind(s, i, j, depth, sets))])
         == [Span(i, j + 1, KeywordKind(s, i, j, depth', None))]
  {
    EraseOne(s, Span(i, j + 1, KeywordKind(s, i, j, depth, sets)));
  }

  lemma {:induction false} IdentErases(s: seq<int>, c: Cursor, c': Cursor, sets: Option<SendSets>, j: nat)
    requires c.i == c'.i < j <= |s| && InClass(IdentStart, s[c.i]) && j == RunEnd(Word, s, c.i + 1)
    ensures Within(WordSpans(s, c.i, j, c, sets), 0, |s|)
    ensures Erase(s, WordSpans(s, c.i, j, c, sets)) == WordSpans(s, c.i, j, c', None)
  {
    RunIsMaximal(Word, s, c.i + 1);
    assert InClass(Word, s[j - 1]);
    EraseOne(s, Span(c.i, j, Pseudo));
    EraseOne(s, Span(c.i, j, Unknown));
  }

  lemma {:induction false} QuotedErases(s: seq<int>, c: Cursor, c': Cursor, quote: int, kind: Kind)
    requires c.i == c'.i < |s| && kind != Unknown
    ensures SameButFlags(s, QuotedToken(s, c, quote, kind), QuotedToken(s, c', quote, kind))
  {
    EraseOne(s, QuotedToken(s, c, quote, kind).1[0]);
  }

  lemma {:induction false} SymbolErases(s: seq<int>, c: Cursor, c': Cursor)
    requires c.i == c'.i && c.i + 1 < |s| && InClass(IdentStart, s[c.i + 1])
    ensures SameButFlags(s, SymbolToken(s, c), SymbolToken(s, c'))
  {
    EraseOne(s, SymbolToken(s, c).1[0]);
  }

  lemma {:induction false} NumberErases(s: seq<int>, c: Cursor, c': Cursor)
    requires c.i == c'.i < |s|
    ensures SameButFlags(s, NumberToken(s, c), NumberToken(s, c'))
  {
    var j := NumberTail(s, RunEnd(Digit, s, c.i + 1));
    if !WordAt(s, j) {
      EraseOne(s, Span(c.i, j, Number));
    }
  }

  lemma {:induction false} QuoteErases(s: seq<int>, c: Cursor, c': Cursor, sets: Option<SendSets>)
    requires c.i == c'.i < |s| && s[c.i] in {DOUBLE_QUOTE, QUOTE}
    ensures SameButFlags(s, Step(s, c, sets), Step(s, c', None))
  {
    if s[c.i] == DOUBLE_QUOTE {
      QuotedErases(s, c, c', DOUBLE_QUOTE, Comment);
    } else {
      QuotedErases(s, c, c', QUOTE, Str);
    }
  }

  lemma {:induction false} SymbolStepErases(s: seq<int>, c: Cursor, c': Cursor, sets: Option<SendSets>)
    requires c.i == c'.i < |s| && s[c.i] == HASH && At(s, c.i + 1, IdentStart)
    requires !(IsChar(s, c.i + 1, 40) || IsChar(s, c.i + 1, 91))
    ensures SameButFlags(s, Step(s, c, sets), Step(s, c', None))
  {
    SymbolErases(s, c, c');
  }

  lemma {:induction false} BareMarkErases(s: seq<int>, c: Cursor, c': Cursor, sets: Option<SendSets>)
    requires c.i == c'.i < |s| && s[c.i] in {HASH, DOLLAR}
    requires s[c.i] == HASH && At(s, c.i + 1, IdentStart) ==> IsChar(s, c.i + 1, 40) || IsChar(s, c.i + 1, 91)
    ensures SameButFlags(s, Step(s, c, sets), Step(s, c', None))
  {
    MarkHasNoSpan(s, c, sets);
    MarkHasNoSpan(s, c', None);
  }

  /** A `$`, a `#(` or a lone `#` emits nothing, and goes on by one character or two. */
  lemma {:induction false} MarkHasNoSpan(s: seq<int>, c: Cursor, sets: Option<SendSets>)
    requires c.i < |s| && s[c.i] in {HASH, DOLLAR}
    requires s[c.i] == HASH && At(s, c.i + 1, IdentStart) ==> IsChar(s, c.i + 1, 40) || IsChar(s, c.i + 1, 91)
    ensures Step(s, c, sets).1 == []
    ensures var two := if s[c.i] == DOLLAR then c.i + 1 < |s| else IsChar(s, c.i + 1, 40) || IsChar(s, c.i + 1, 91);
            Step(s, c, sets).0.i == c.i + if two then 2 else 1
  {
    assert !InClass(IdentStart, s[c.i]) && !InClass(Digit, s[c.i]) && !InClass(Word, s[c.i]);
  }

  lemma {:induction false} RunErases(s: seq<int>, c: Cursor, c': Cursor, sets: Option<SendSets>)
    requires c.i == c'.i < |s| && s[c.i] !in {DOUBLE_QUOTE, QUOTE, HASH, DOLLAR}
    ensures SameButFlags(s, Step(s, c, sets), Step(s, c', None))
  {
    var ch := s[c.i];
    if InClass(IdentStart, ch) && !WordAt(s, c.i - 1) {
      WordErases(s, c, c', sets);
    } else if InClass(Digit, ch) && !WordAt(s, c.i - 1) {
      NumberErases(s, c, c');
    }
  }

  /** The known selectors never move the scan, and change only what is flagged. */
  lemma {:induction false} StepErases(s: seq<int>, c: Cursor, c': Cursor, sets: Option<SendSets>)
    requires c.i == c'.i < |s|
    ensures SameButFlags(s, Step(s, c, sets), Step(s, c', None))
  {
    if s[c.i] in {DOUBLE_QUOTE, QUOTE} {
      QuoteErases(s, c, c', sets);
    } else if s[c.i] == HASH && !(IsChar(s, c.i + 1, 40) || IsChar(s, c.i + 1, 91)) && At(s, c.i + 1, IdentStart) {
      SymbolStepErases(s, c, c', sets);
    } else if s[c.i] in {HASH, DOLLAR} {
      BareMarkErases(s, c, c', sets);
    } else {
      RunErases(s, c, c', sets);
    }
  }

  /** Checked mode, with its flags taken back, is plain mode, whatever the state it starts in. */
  lemma {:induction false} CheckedErasesToPlain(s: seq<int>, c: Cursor, c': Cursor, sets: Option<SendSets>)
    requires c.i == c'.i
    ensures Within(Scan(s, c, sets), 0, |s|)
    ensures Erase(s, Scan(s, c, sets)) == Scan(s, c', None)
    decreases |s| - c.i
  {
    SpansAreOrdered(s, c, sets);
    if c.i < |s| {
      StepErases(s, c, c', sets);
      ScanStep(s, c, sets);
      ScanStep(s, c', None);
      SpansAreOrdered(s, Step(s, c, sets).0, sets);
      CheckedErasesToPlain(s, Step(s, c, sets).0, Step(s, c', None).0, sets);
      EraseAppend(s, Step(s, c, sets).1, Scan(s, Step(s, c, sets).0, sets));
    }
  }

  /** Knowing more selectors only takes flags away. */
  lemma {:induction false} MoreKnownFlagsLess(s: seq<int>, c: Cursor, sets: SendSets, more: SendSets, x: Span)
    requires sets.keywordParts <= more.keywordParts && sets.unary <= more.unary
    requires x in Scan(s, c, Some(more)) && x.kind == Unknown
    ensures x in Scan(s, c, Some(sets))
    decreases |s| - c.i
  {
    ScanStep(s, c, Some(more));
    ScanStep(s, c, Some(sets));
    assert Step(s, c, Some(more)).0 == Step(s, c, Some(sets)).0;
    if x !in Step(s, c, Some(more)).1 {
      MoreKnownFlagsLess(s, Step(s, c, Some(more)).0, sets, more, x);
    }
  }

  // ---------------------------------------------------------------- literal arrays

  /** What a step does to the nesting of an array literal. */
  datatype Bracket = Opens | Closes | Brace | Neither

  function BracketAt(s: seq<int>, c: Cursor, sets: Option<SendSets>): Bracket
    requires c.i < |s|
  {
    var ch := s[c.i];
    if ch == 40 || ch == 91 || (ch == HASH && (IsChar(s, c.i + 1, 40) || IsChar(s, c.i + 1, 91))) then Opens
    else if ch == 41 || ch == 93 then Closes
    else if ch == 123 then Brace
    else Neither
  }

  /** How a bracket moves the nesting. */
  function Change(b: Bracket): int {
    match b case Opens => 1 case Closes => -1 case _ => 0
  }

  function Braces(b: Bracket): nat {
    if b.Brace? then 1 else 0
  }

  /** The tokens from `c` close the `open` open brackets, meeting `braces` brace tokens on the way; `end`
      is the cursor then. */
  predicate ClosesAt(s: seq<int>, c: Cursor, sets: Option<SendSets>, open: nat, end: Cursor, braces: nat)
    decreases |s| - c.i
  {
    if open == 0 then c == end && braces == 0
    else
      c.i < |s| &&
      var b := BracketAt(s, c, sets);
      braces >= Braces(b) && ClosesAt(s, Step(s, c, sets).0, sets, open + Change(b), end, braces - Braces(b))
  }

  lemma {:induction false} StepDepth(s: seq<int>, c: Cursor, sets: Option<SendSets>)
    requires c.i < |s| && c.literalDepth > 0
    ensures var b := BracketAt(s, c, sets);
            Step(s, c, sets).0.literalDepth == c.literalDepth + Change(b) + Braces(b)
  {
    BracketsAreNotBlank();
  }

  lemma {:induction false} BracketsAreNotBlank()
    ensures forall n :: n in {40, 41, 91, 93, 123} ==> !Text.InRanges(n, Text.WHITE_SPACE)
  {
    forall n | n in {40, 41, 91, 93, 123} ensures !Text.InRanges(n, Text.WHITE_SPACE) {
      NotInRanges(n, Text.WHITE_SPACE);
    }
  }

  lemma {:induction false} NotInRanges(n: int, ranges: seq<(int, int)>)
    requires 0x20 < n < 0x80 && forall k :: 0 <= k < |ranges| ==> ranges[k].1 <= 0x20 || ranges[k].0 >= 0x80
    ensures !Text.InRanges(n, ranges)
  {
    if ranges != [] {
      NotInRanges(n, ranges[1..]);
    }
  }

  /** A closed array literal gives the literal depth back, except that every `{` in it is counted and
      no `}` is: the depth is unchanged exactly when the array holds no brace token. */
  lemma {:induction false} ArrayDepth(s: seq<int>, c: Cursor, sets: Option<SendSets>, open: nat, end: Cursor,
                                      braces: nat)
    requires ClosesAt(s, c, sets, open, end, braces) && open <= c.literalDepth
    ensures end.literalDepth == c.literalDepth - open + braces
    decreases |s| - c.i
  {
    if open > 0 {
      StepDepth(s, c, sets);
      var b := BracketAt(s, c, sets);
      ArrayDepth(s, Step(s, c, sets).0, sets, open + Change(b), end, braces - Braces(b));
    }
  }
}

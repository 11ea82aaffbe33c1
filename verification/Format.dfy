/** Source > Format: a re-indenter that carries a lexical state across lines and keeps every line's
    content. */
module Format {
  import opened Text

  datatype Lex = Code | Str | Comment

  /** What is carried from one line to the next. */
  datatype State = State(lex: Lex, depth: nat)

  const START := State(Code, 0)

  predicate IsOpener(c: char) {
    c in "[({"
  }

  predicate IsCloser(c: char) {
    c in "])}"
  }

  /** `$x` in code and a doubled quote in a literal are read two characters at a time. */
  predicate TakesTwo(t: string, lex: Lex) {
    |t| > 1 &&
    match lex
    case Str => t[0] == t[1] == '\''
    case Comment => t[0] == t[1] == '"'
    case Code => t[0] == '$'
  }

  /** The state after a character read on its own. */
  function AfterChar(c: char, s: State): State {
    match s.lex
    case Str => if c == '\'' then s.(lex := Code) else s
    case Comment => if c == '"' then s.(lex := Code) else s
    case Code =>
      if c == '\'' then s.(lex := Str)
      else if c == '"' then s.(lex := Comment)
      else if IsOpener(c) then s.(depth := s.depth + 1)
      else if IsCloser(c) then s.(depth := if s.depth > 0 then s.depth - 1 else 0)
      else s
  }

  /** One uninterrupted scan of `t` from state `s`. */
  function Scan(t: string, s: State): State
    decreases |t|
  {
    if t == "" then s
    else if TakesTwo(t, s.lex) then Scan(t[2..], s)
    else Scan(t[1..], AfterChar(t[0], s))
  }

  /** Closers before the first character that is neither a closer nor a space nor a tab. */
  function LeadingClosers(t: string): nat {
    if t == "" then 0
    else if IsCloser(t[0]) then 1 + LeadingClosers(t[1..])
    else if t[0] == ' ' || t[0] == '\t' then LeadingClosers(t[1..])
    else 0
  }

  function Spaces(n: nat): string {
    seq(n, _ => ' ')
  }

  function Level(t: string, s: State): nat {
    if s.depth > LeadingClosers(t) then s.depth - LeadingClosers(t) else 0
  }

  /** A line's output, given the state it starts in. */
  function Line(line: string, s: State): string {
    if s.lex != Code then TrimEnd(line)
    else if Trim(line) == "" then ""
    else Spaces(4 * Level(Trim(line), s)) + Trim(line)
  }

  function Lines(lines: seq<string>, s: State): (r: seq<string>)
    ensures |r| == |lines|
  {
    if lines == [] then [] else [Line(lines[0], s)] + Lines(lines[1..], Scan(lines[0], s))
  }

  /** Without the trailing empty lines, but never without all lines. */
  function Strip(lines: seq<string>): (r: seq<string>)
    ensures |r| <= |lines| && r == lines[..|r|] && (lines != [] ==> r != [])
    ensures |r| > 1 ==> r[|r| - 1] != ""
    ensures forall i :: |r| <= i < |lines| ==> lines[i] == ""
  {
    if |lines| > 1 && lines[|lines| - 1] == "" then Strip(lines[..|lines| - 1]) else lines
  }

  function Formatted(src: string): string {
    Unlines(Strip(Lines(Split(src), START)))
  }

  // ---------------------------------------------------------------- the method

  method ScanLine(line: string, start: State) returns (state: State)
    ensures state == Scan(line, start)
  {
    state := start;
    var i := 0;
    while i < |line|
      invariant 0 <= i <= |line|
      invariant Scan(line[i..], state) == Scan(line, start)
    {
      var c := line[i];
      var next := i + 1;
      match state.lex {
        case Str =>
          if c == '\'' {
            if next < |line| && line[next] == '\'' {
              next := next + 1;
            } else {
              state := state.(lex := Code);
            }
          }
        case Comment =>
          if c == '"' {
            if next < |line| && line[next] == '"' {
              next := next + 1;
            } else {
              state := state.(lex := Code);
            }
          }
        case Code =>
          if c == '$' {
            if next < |line| {
              next := next + 1;
            }
          } else if c == '\'' {
            state := state.(lex := Str);
          } else if c == '"' {
            state := state.(lex := Comment);
          } else if IsOpener(c) {
            state := state.(depth := state.depth + 1);
          } else if IsCloser(c) {
            state := state.(depth := if state.depth > 0 then state.depth - 1 else 0);
          }
      }
      i := next;
    }
  }

  method CountLeadingClosers(t: string) returns (n: nat)
    ensures n == LeadingClosers(t)
  {
    n := 0;
    var i := 0;
    while i < |t|
      invariant 0 <= i <= |t|
      invariant n + LeadingClosers(t[i..]) == LeadingClosers(t)
    {
      if IsCloser(t[i]) {
        n := n + 1;
      } else if t[i] != ' ' && t[i] != '\t' {
        return;
      }
      i := i + 1;
    }
  }

  /** The text a line contributes, before its newline. */
  method EmitLine(line: string, start: State) returns (text: string)
    ensures text == Line(line, start)
  {
    if start.lex != Code {
      return TrimEnd(line);
    }
    var trimmed := Trim(line);
    if trimmed == "" {
      return "";
    }
    var closers := CountLeadingClosers(trimmed);
    var level := if start.depth > closers then start.depth - closers else 0;
    var i := 0;
    text := "";
    while i < level
      invariant 0 <= i <= level && text == Spaces(4 * i)
    {
      text := text + "    ";
      i := i + 1;
    }
    text := text + trimmed;
  }

  /** Collapses the newlines at the end to exactly one. */
  method OneFinalNewline(text: string, ghost lines: seq<string>) returns (out: string)
    requires lines != [] && (forall l :: l in lines ==> '\n' !in l) && text == Unlines(lines)
    ensures out == Unlines(Strip(lines))
  {
    out := text;
    ghost var kept := lines;
    EndOfUnlines(kept);
    while NewlineTail(out, 2)
      decreases |out|
      invariant kept != [] && Strip(kept) == Strip(lines)
      invariant forall l :: l in kept ==> '\n' !in l
      invariant out == Unlines(kept) && NewlineTail(out, 1)
      invariant NewlineTail(out, 2) <==> |kept| > 1 && kept[|kept| - 1] == ""
    {
      out := out[..|out| - 1];
      EndOfUnlines(kept);
      kept := kept[..|kept| - 1];
      EndOfUnlines(kept);
    }
    if !NewlineTail(out, 1) {
      out := out + "\n";
    }
  }

  method FormatSource(src: string) returns (out: string)
    ensures out == Formatted(src)
  {
    var lines := Split(src);
    out := "";
    var state := START;
    var k := 0;
    ghost var done: seq<string> := [];
    while k < |lines|
      invariant 0 <= k <= |lines|
      invariant done + Lines(lines[k..], state) == Lines(lines, START)
      invariant out == Unlines(done) && |done| == k
    {
      var start := state;
      state := ScanLine(lines[k], start);
      var text := EmitLine(lines[k], start);
      out := out + text + "\n";
      Extend(done, text, lines[k..], start);
      done := done + [text];
      k := k + 1;
    }
    assert done == Lines(lines, START);
    LinesHaveNoNewline(lines, START);
    out := OneFinalNewline(out, done);
  }

  lemma {:induction false} Extend(done: seq<string>, text: string, lines: seq<string>, s: State)
    requires lines != [] && text == Line(lines[0], s)
    ensures done + Lines(lines, s) == (done + [text]) + Lines(lines[1..], Scan(lines[0], s))
    ensures Unlines(done + [text]) == Unlines(done) + text + "\n"
  {
    UnlinesAppend(done, [text]);
    assert Unlines([text]) == text + "\n" + "";
    assert Unlines(done) + (text + "\n") == Unlines(done) + text + "\n";
  }

  /** The last `k` characters are newlines. */
  predicate NewlineTail(s: string, k: nat) {
    k <= |s| && forall i :: |s| - k <= i < |s| ==> s[i] == '\n'
  }

  lemma {:induction false} UnlinesLast(lines: seq<string>)
    requires lines != []
    ensures Unlines(lines) == Unlines(lines[..|lines| - 1]) + (lines[|lines| - 1] + "\n")
  {
    var n := |lines| - 1;
    assert lines == lines[..n] + [lines[n]];
    UnlinesAppend(lines[..n], [lines[n]]);
    assert Unlines([lines[n]]) == lines[n] + "\n" + "";
  }

  lemma {:induction false} EndOfUnlines(lines: seq<string>)
    requires lines != [] && forall l :: l in lines ==> '\n' !in l
    ensures var u, n := Unlines(lines), |lines| - 1;
            && NewlineTail(u, 1)
            && (NewlineTail(u, 2) <==> n > 0 && lines[n] == "")
            && (lines[n] == "" ==> u[..|u| - 1] == Unlines(lines[..n]))
  {
    var u, n := Unlines(lines), |lines| - 1;
    var before := Unlines(lines[..n]);
    UnlinesLast(lines);
    if lines[n] == "" {
      assert u == before + "\n";
      if n > 0 {
        UnlinesLast(lines[..n]);
        assert u[|u| - 2] == before[|before| - 1] == '\n';
      }
    } else {
      var c := lines[n][|lines[n]| - 1];
      assert c in lines[n];
      assert u[|u| - 2] == c;
    }
  }

  lemma {:induction false} LinesHaveNoNewline(lines: seq<string>, s: State)
    requires forall l :: l in lines ==> '\n' !in l
    ensures forall l :: l in Lines(lines, s) ==> '\n' !in l
  {
    if lines != [] {
      LinesHaveNoNewline(lines[1..], Scan(lines[0], s));
      assert '\n' !in lines[0];
      TrimEndParts(lines[0]);
      var before, after := TrimParts(lines[0]);
      assert forall c :: c in Trim(lines[0]) ==> c in lines[0];
    }
  }

  // ---------------------------------------------------------------- lexing

  /** Scanning up to a newline and going on after it is one uninterrupted scan, whatever stands
      before the newline: a `$` that takes the newline as its literal, or a closing quote. */
  lemma {:induction false} ScanAcrossNewline(a: string, b: string, s: State)
    ensures Scan(a + ("\n" + b), s) == Scan(b, Scan(a, s))
    decreases |a|
  {
    var t := a + ("\n" + b);
    if a == "" {
      assert t[1..] == b;
    } else if TakesTwo(a, s.lex) {
      assert t[2..] == a[2..] + ("\n" + b);
      ScanAcrossNewline(a[2..], b, s);
    } else if TakesTwo(t, s.lex) {
      assert a[1..] == "" && t[2..] == b;
    } else {
      assert t[1..] == a[1..] + ("\n" + b);
      ScanAcrossNewline(a[1..], b, AfterChar(a[0], s));
    }
  }

  /** The state the formatter is in at the start of line `k`. */
  function StateAt(lines: seq<string>, s: State, k: nat): State
    requires k <= |lines|
  {
    if k == 0 then s else StateAt(lines[1..], Scan(lines[0], s), k - 1)
  }

  /** At every line start the line-by-line state is that of one scan of all the text before it. */
  lemma {:induction false} LineStartsAgree(lines: seq<string>, s: State, k: nat)
    requires k <= |lines|
    ensures StateAt(lines, s, k) == Scan(Unlines(lines[..k]), s)
  {
    if k > 0 {
      assert lines[..k][0] == lines[0] && lines[..k][1..] == lines[1..][..k - 1];
      LineStartsAgree(lines[1..], Scan(lines[0], s), k - 1);
      assert Unlines(lines[..k]) == lines[0] + ("\n" + Unlines(lines[1..][..k - 1]));
      ScanAcrossNewline(lines[0], Unlines(lines[1..][..k - 1]), s);
    }
  }

  lemma {:induction false} LineAt(lines: seq<string>, s: State, k: nat)
    requires k < |lines|
    ensures Lines(lines, s)[k] == Line(lines[k], StateAt(lines, s, k))
  {
    if k > 0 {
      LineAt(lines[1..], Scan(lines[0], s), k - 1);
    }
  }

  /** Trailing whitespace does not change the state, even after a `$` or a quote. */
  lemma {:induction false} ScanIgnoresBlankEnd(t: string, ws: string, s: State)
    requires Blank(ws)
    ensures Scan(t + ws, s) == Scan(t, s)
    decreases |t|
  {
    if t == "" {
      assert t + ws == ws;
      ScanBlank(ws, s);
    } else if TakesTwo(t, s.lex) {
      assert (t + ws)[2..] == t[2..] + ws;
      ScanIgnoresBlankEnd(t[2..], ws, s);
    } else if TakesTwo(t + ws, s.lex) {
      assert t[1..] == "" && (t + ws)[2..] == ws[1..];
      NoBlankQuotes(ws[0]);
      ScanBlank(ws[1..], s);
    } else {
      assert (t + ws)[1..] == t[1..] + ws;
      ScanIgnoresBlankEnd(t[1..], ws, AfterChar(t[0], s));
    }
  }

  /** No lexically significant character is whitespace. */
  lemma {:induction false} NoBlankQuotes(c: char)
    requires IsWhitespace(c)
    ensures c !in "'\"$[({])}"
  {
    OutsideGraphic(c as int, WHITE_SPACE);
  }

  lemma {:induction false} OutsideGraphic(n: int, ranges: seq<(int, int)>)
    requires InRanges(n, ranges) && forall r :: r in ranges ==> r.1 <= 0x20 || r.0 >= 0x80
    ensures n <= 0x20 || n >= 0x80
  {
    if !(ranges[0].0 <= n <= ranges[0].1) {
      OutsideGraphic(n, ranges[1..]);
    } else {
      assert ranges[0] in ranges;
    }
  }

  lemma {:induction false} ScanBlank(ws: string, s: State)
    requires Blank(ws)
    ensures Scan(ws, s) == s
  {
    if ws != "" {
      NoBlankQuotes(ws[0]);
      ScanBlank(ws[1..], s);
    }
  }

  lemma {:induction false} ScanIgnoresBlankStart(ws: string, t: string, s: State)
    requires Blank(ws) && s.lex == Code
    ensures Scan(ws + t, s) == Scan(t, s)
  {
    if ws == "" {
      assert ws + t == t;
    } else {
      NoBlankQuotes(ws[0]);
      assert (ws + t)[1..] == ws[1..] + t;
      ScanIgnoresBlankStart(ws[1..], t, s);
    }
  }

  // ---------------------------------------------------------------- formatting

  /** A formatted line leads to the state the original leads to, and formats to itself. */
  lemma {:induction false} LineFixed(line: string, s: State)
    ensures Scan(Line(line, s), s) == Scan(line, s)
    ensures Line(Line(line, s), s) == Line(line, s)
  {
    var o := Line(line, s);
    if s.lex != Code {
      TrimEndParts(line);
      assert line == o + line[|o|..];
      ScanIgnoresBlankEnd(o, line[|o|..], s);
    } else {
      var before, after := TrimParts(line);
      var t := Trim(line);
      TrimOfBlank(line);
      if t == "" {
        ScanBlank(line, s);
      } else {
        var indent := Spaces(4 * Level(t, s));
        assert before + t + after == before + (t + after);
        ScanIgnoresBlankStart(before, t + after, s);
        ScanIgnoresBlankEnd(t, after, s);
        assert Blank(indent);
        ScanIgnoresBlankStart(indent, t, s);
        TrimStartSkips(indent, t);
        assert o[|o| - 1] == t[|t| - 1];
      }
    }
  }

  /** So do all of them, and every line start is reached in the same state. */
  lemma {:induction false} LinesFixed(lines: seq<string>, s: State, k: nat)
    requires k <= |lines|
    ensures Lines(Lines(lines, s), s) == Lines(lines, s)
    ensures StateAt(Lines(lines, s), s, k) == StateAt(lines, s, k)
    decreases |lines|
  {
    if lines != [] {
      LineFixed(lines[0], s);
      LinesFixed(lines[1..], Scan(lines[0], s), if k > 0 then k - 1 else 0);
    }
  }

  lemma {:induction false} LinesAppend(a: seq<string>, b: seq<string>, s: State)
    ensures Lines(a + b, s) == Lines(a, s) + Lines(b, StateAt(a, s, |a|))
  {
    if a == [] {
      assert a + b == b;
    } else {
      assert (a + b)[0] == a[0] && (a + b)[1..] == a[1..] + b;
      LinesAppend(a[1..], b, Scan(a[0], s));
    }
  }

  lemma {:induction false} StateAtPrefix(a: seq<string>, b: seq<string>, s: State, k: nat)
    requires k <= |a|
    ensures StateAt(a + b, s, k) == StateAt(a, s, k)
  {
    if k > 0 {
      assert (a + b)[0] == a[0] && (a + b)[1..] == a[1..] + b;
      StateAtPrefix(a[1..], b, Scan(a[0], s), k - 1);
    }
  }

  /** The lines of the output: the formatted lines without the trailing empty ones. */
  lemma {:induction false} OutputLines(src: string)
    ensures Split(Formatted(src)) == Strip(Lines(Split(src), START)) + [""]
  {
    var o := Lines(Split(src), START);
    LinesHaveNoNewline(Split(src), START);
    assert forall l :: l in Strip(o) ==> l in o;
    SplitUnlines(Strip(o));
  }

  /** Formatting twice is formatting once, for every source text. */
  lemma {:induction false} FormatIsIdempotent(src: string)
    ensures Formatted(Formatted(src)) == Formatted(src)
  {
    var o := Lines(Split(src), START);
    var kept := Strip(o);
    OutputLines(src);
    assert o == kept + o[|kept|..];
    LinesFixed(Split(src), START, 0);
    LinesAppend(kept, o[|kept|..], START);
    LinesAppend(kept, [""], START);
    assert Lines(kept, START) == kept;
    assert Lines([""], StateAt(kept, START, |kept|)) == [""];
    assert (kept + [""])[..|kept|] == kept;
  }

  /** The output ends with one newline, whatever the source ends with. */
  lemma {:induction false} EndsWithOneNewline(src: string)
    ensures NewlineTail(Formatted(src), 1) && !NewlineTail(Formatted(src), 2)
  {
    var kept := Strip(Lines(Split(src), START));
    LinesHaveNoNewline(Split(src), START);
    assert forall l :: l in kept ==> l in Lines(Split(src), START);
    EndOfUnlines(kept);
  }

  /** The output has the input's lines up to its trailing blank ones: each starts and ends in the same
      lexical state, a code line differs in its margins only and any other line at its end only. */
  lemma {:induction false} FormatKeepsContent(src: string, k: nat)
    requires k < |Split(src)|
    ensures var ls, os := Split(src), Split(Formatted(src));
            && |os| <= |ls| + 1
            && (k >= |os| - 1 ==> Blank(ls[k]))
            && (k < |os| - 1 ==>
                  && StateAt(os, START, k) == StateAt(ls, START, k)
                  && StateAt(os, START, k + 1) == StateAt(ls, START, k + 1)
                  && if StateAt(ls, START, k).lex == Code then Trim(os[k]) == Trim(ls[k]) else os[k] == TrimEnd(ls[k]))
  {
    var ls := Split(src);
    var kept := Strip(Lines(ls, START));
    OutputLines(src);
    LineAt(ls, START, k);
    var s := StateAt(ls, START, k);
    TrimEndParts(ls[k]);
    TrimOfBlank(ls[k]);
    if k < |kept| {
      KeptStates(ls, k);
      KeptStates(ls, k + 1);
      if s.lex == Code {
        SameTrim(ls[k], s);
      }
    }
  }

  /** Dropping trailing empty lines and adding the last one moves no state. */
  lemma {:induction false} KeptStates(ls: seq<string>, k: nat)
    requires ls != [] && k <= |Strip(Lines(ls, START))|
    ensures StateAt(Strip(Lines(ls, START)) + [""], START, k) == StateAt(ls, START, k)
  {
    var o := Lines(ls, START);
    var kept := Strip(o);
    assert o == kept + o[|kept|..];
    LinesFixed(ls, START, k);
    StateAtPrefix(kept, o[|kept|..], START, k);
    StateAtPrefix(kept, [""], START, k);
  }

  lemma {:induction false} SameTrim(line: string, s: State)
    requires s.lex == Code
    ensures Trim(Line(line, s)) == Trim(line)
  {
    var before, after := TrimParts(line);
    var t := Trim(line);
    if t != "" {
      var indent := Spaces(4 * Level(t, s));
      TrimStartSkips(indent, t);
      assert (indent + t)[|indent + t| - 1] == t[|t| - 1];
    }
  }

  // ---------------------------------------------------------------- nothing printed is lost

  /** The characters that leave ink. */
  function Ink(s: string): string {
    if s == "" then "" else (if IsWhitespace(s[0]) then "" else [s[0]]) + Ink(s[1..])
  }

  lemma {:induction false} InkAppend(a: string, b: string)
    ensures Ink(a + b) == Ink(a) + Ink(b)
  {
    if a == "" {
      assert a + b == b;
    } else {
      assert (a + b)[1..] == a[1..] + b;
      InkAppend(a[1..], b);
    }
  }

  lemma {:induction false} InkOfBlank(s: string)
    requires Blank(s)
    ensures Ink(s) == ""
  {
    if s != "" {
      InkOfBlank(s[1..]);
    }
  }

  lemma {:induction false} InkOfLine(line: string, s: State)
    ensures Ink(Line(line, s)) == Ink(line)
  {
    if s.lex != Code {
      TrimEndParts(line);
      var e := TrimEnd(line);
      assert line == e + line[|e|..];
      InkAppend(e, line[|e|..]);
      InkOfBlank(line[|e|..]);
    } else {
      var before, after := TrimParts(line);
      var t := Trim(line);
      InkAppend(before + t, after);
      InkAppend(before, t);
      InkOfBlank(before);
      InkOfBlank(after);
      var indent := Spaces(4 * Level(t, s));
      InkAppend(indent, t);
      assert Blank(indent);
      InkOfBlank(indent);
    }
  }

  lemma {:induction false} InkOfLines(lines: seq<string>, s: State)
    ensures Ink(Unlines(Lines(lines, s))) == Ink(Unlines(lines))
  {
    if lines != [] {
      var o := Lines(lines, s);
      InkOfLine(lines[0], s);
      InkOfLines(lines[1..], Scan(lines[0], s));
      assert o[1..] == Lines(lines[1..], Scan(lines[0], s));
      InkAppend(lines[0] + "\n", Unlines(lines[1..]));
      InkAppend(o[0] + "\n", Unlines(o[1..]));
      InkAppend(lines[0], "\n");
      InkAppend(o[0], "\n");
    }
  }

  lemma {:induction false} StripKeepsInk(lines: seq<string>)
    ensures Ink(Unlines(Strip(lines))) == Ink(Unlines(lines))
  {
    if |lines| > 1 && lines[|lines| - 1] == "" {
      var most := lines[..|lines| - 1];
      StripKeepsInk(most);
      UnlinesLast(lines);
      assert lines[|lines| - 1] + "\n" == "\n";
      InkAppend(Unlines(most), "\n");
      NewlineIsBlank();
      assert Ink(Unlines(most)) + "" == Ink(Unlines(most));
    }
  }

  /** Formatting moves whitespace only: comments, strings and code keep every other character. */
  lemma {:induction false} FormatKeepsInk(src: string)
    ensures Ink(Formatted(src)) == Ink(src)
  {
    StripKeepsInk(Lines(Split(src), START));
    InkOfLines(Split(src), START);
    UnlinesSplit(src);
    InkAppend(src, "\n");
    NewlineIsBlank();
  }

  lemma {:induction false} NewlineIsBlank()
    ensures IsWhitespace('\n') && Ink("\n") == ""
  {
    assert WHITE_SPACE[1..][0] == (0x09, 0x0D);
    assert InRanges(10, WHITE_SPACE[1..]);
    assert IsWhitespace('\n');
    assert Ink("\n"[1..]) == "";
  }
}

/** Source > Format: which strings, comments and character literals keep their text. */
module FormatLiterals {
  import opened Format
  import opened Text

  /** A character of a literal: its first one, or a later one. */
  datatype Mark = Opens(c: char) | Inside(c: char)

  function CharMarks(c: char, lex: Lex): seq<Mark> {
    if lex != Code then [Inside(c)] else if c in "'\"$" then [Opens(c)] else []
  }

  /** The literals of `t` in order, character by character, as one scan from state `s` reads them. */
  function Marks(t: string, s: State): seq<Mark>
    decreases |t|
  {
    if t == "" then []
    else if TakesTwo(t, s.lex) then
      [if s.lex == Code then Opens(t[0]) else Inside(t[0]), Inside(t[1])] + Marks(t[2..], s)
    else CharMarks(t[0], s.lex) + Marks(t[1..], AfterChar(t[0], s))
  }

  /** The scan ends on a `$` that has no character yet. */
  predicate Dangles(t: string, s: State)
    decreases |t|
  {
    if t == "" then false
    else if TakesTwo(t, s.lex) then Dangles(t[2..], s)
    else if |t| == 1 then s.lex == Code && t[0] == '$'
    else Dangles(t[1..], AfterChar(t[0], s))
  }

  /** What follows `t` belongs to a literal. */
  predicate EndsOpen(t: string, s: State) {
    Scan(t, s).lex != Code || Dangles(t, s)
  }

  function NewlineMark(t: string, s: State): seq<Mark> {
    if EndsOpen(t, s) then [Inside('\n')] else []
  }

  lemma {:induction false} Regroup(a: seq<Mark>, b: seq<Mark>, c: seq<Mark>, d: seq<Mark>)
    ensures a + (b + c + d) == (a + b) + c + d
  {
  }

  lemma {:induction false} DollarAtTheEnd(a: string, b: string, s: State)
    requires a != "" && !TakesTwo(a, s.lex) && TakesTwo(a + ("\n" + b), s.lex)
    ensures Marks(a + ("\n" + b), s) == Marks(a, s) + NewlineMark(a, s) + Marks(b, Scan(a, s))
  {
    assert a[1..] == "" && (a + ("\n" + b))[2..] == b;
  }

  lemma {:induction false} MarksAcrossNewline(a: string, b: string, s: State)
    ensures Marks(a + ("\n" + b), s) == Marks(a, s) + NewlineMark(a, s) + Marks(b, Scan(a, s))
    decreases |a|
  {
    var t, newline, rest := a + ("\n" + b), NewlineMark(a, s), Marks(b, Scan(a, s));
    if a == "" {
      assert t[1..] == b;
    } else if TakesTwo(a, s.lex) {
      var two := [if s.lex == Code then Opens(a[0]) else Inside(a[0]), Inside(a[1])];
      MarksAcrossNewline(a[2..], b, s);
      assert Marks(t, s) == two + Marks(a[2..] + ("\n" + b), s) by {
        assert t[2..] == a[2..] + ("\n" + b);
      }
      Regroup(two, Marks(a[2..], s), newline, rest);
    } else if TakesTwo(t, s.lex) {
      DollarAtTheEnd(a, b, s);
    } else {
      assert t[1..] == a[1..] + ("\n" + b);
      MarksAcrossNewline(a[1..], b, AfterChar(a[0], s));
      Regroup(CharMarks(a[0], s.lex), Marks(a[1..], AfterChar(a[0], s)), newline, rest);
    }
  }

  // ---------------------------------------------------------------- whitespace around a line

  lemma {:induction false} BlankMarks(ws: string, s: State)
    requires Blank(ws) && ws != ""
    ensures if s.lex == Code then Marks(ws, s) == [] else Marks(ws, s) != [] && Marks(ws, s)[0] == Inside(ws[0])
    ensures !Dangles(ws, s)
  {
    NoBlankQuotes(ws[0]);
    if |ws| > 1 {
      BlankMarks(ws[1..], s);
    }
  }

  /** Whitespace at the end of a text adds to its literals exactly when it ends inside one. */
  lemma {:induction false} BlankEnd(t: string, ws: string, s: State)
    requires Blank(ws) && ws != ""
    ensures Marks(t, s) <= Marks(t + ws, s)
    ensures EndsOpen(t, s) ==> |Marks(t, s)| < |Marks(t + ws, s)| && Marks(t + ws, s)[|Marks(t, s)|] == Inside(ws[0])
    ensures !EndsOpen(t, s) ==> Marks(t + ws, s) == Marks(t, s) && !EndsOpen(t + ws, s)
    decreases |t|
  {
    if t == "" {
      assert t + ws == ws;
      BlankMarks(ws, s);
      ScanBlank(ws, s);
    } else if TakesTwo(t, s.lex) {
      assert (t + ws)[2..] == t[2..] + ws;
      BlankEnd(t[2..], ws, s);
    } else if TakesTwo(t + ws, s.lex) {
      assert t[1..] == "" && (t + ws)[2..] == ws[1..];
      NoBlankQuotes(ws[0]);
    } else {
      assert (t + ws)[1..] == t[1..] + ws;
      BlankEnd(t[1..], ws, AfterChar(t[0], s));
    }
  }

  lemma {:induction false} BlankStart(ws: string, t: string, s: State)
    requires Blank(ws) && s.lex == Code
    ensures Marks(ws + t, s) == Marks(t, s) && (EndsOpen(ws + t, s) <==> EndsOpen(t, s))
  {
    if ws == "" {
      assert ws + t == t;
    } else {
      NoBlankQuotes(ws[0]);
      assert (ws + t)[1..] == ws[1..] + t;
      BlankStart(ws[1..], t, s);
    }
  }

  /** A formatted line has the literals of the line without its trailing whitespace. */
  lemma {:induction false} LineMarks(line: string, s: State)
    ensures var o, e := Line(line, s), TrimEnd(line);
            Marks(o, s) == Marks(e, s) && (EndsOpen(o, s) <==> EndsOpen(e, s))
  {
    if s.lex == Code {
      var e, t := TrimEnd(line), Trim(line);
      TrimStartParts(e);
      assert e == e[..|e| - |t|] + t;
      BlankStart(e[..|e| - |t|], t, s);
      if t != "" {
        BlankStart(Spaces(4 * Level(t, s)), t, s);
      }
    }
  }

  // ---------------------------------------------------------------- all lines

  /** No whitespace at the line's end belongs to a literal. */
  predicate Safe(line: string, s: State) {
    TrimEnd(line) == line || !EndsOpen(TrimEnd(line), s)
  }

  predicate AllSafe(lines: seq<string>, s: State) {
    lines == [] || (Safe(lines[0], s) && AllSafe(lines[1..], Scan(lines[0], s)))
  }

  lemma {:induction false} FirstLine(lines: seq<string>, s: State)
    requires lines != []
    ensures Marks(Unlines(lines), s)
            == Marks(lines[0], s) + NewlineMark(lines[0], s) + Marks(Unlines(lines[1..]), Scan(lines[0], s))
  {
    assert lines[0] + "\n" + Unlines(lines[1..]) == lines[0] + ("\n" + Unlines(lines[1..]));
    MarksAcrossNewline(lines[0], Unlines(lines[1..]), s);
  }

  lemma {:induction false} SafeLineSame(line: string, s: State)
    requires Safe(line, s)
    ensures Marks(Line(line, s), s) + NewlineMark(Line(line, s), s) == Marks(line, s) + NewlineMark(line, s)
  {
    LineMarks(line, s);
    TrimEndParts(line);
    var e := TrimEnd(line);
    if e != line {
      assert line == e + line[|e|..];
      BlankEnd(e, line[|e|..], s);
    }
  }

  lemma {:induction false} SafeLinesSame(lines: seq<string>, s: State)
    requires AllSafe(lines, s)
    ensures Marks(Unlines(Lines(lines, s)), s) == Marks(Unlines(lines), s)
  {
    if lines != [] {
      SafeLineSame(lines[0], s);
      LineFixed(lines[0], s);
      SafeLinesSame(lines[1..], Scan(lines[0], s));
      FirstLine(lines, s);
      FirstLine(Lines(lines, s), s);
    }
  }

  /** The first line that is not safe leaves a newline in a literal where the whitespace was. */
  lemma {:induction false} UnsafeDiffers(lines: seq<string>, s: State) returns (p: nat)
    requires !AllSafe(lines, s) && forall l :: l in lines ==> '\n' !in l
    ensures var was, now := Marks(Unlines(lines), s), Marks(Unlines(Lines(lines, s)), s);
            p < |was| && p < |now| && was[p] != Inside('\n') && now[p] == Inside('\n')
  {
    FirstLine(lines, s);
    FirstLine(Lines(lines, s), s);
    LineFixed(lines[0], s);
    if Safe(lines[0], s) {
      SafeLineSame(lines[0], s);
      p := UnsafeDiffers(lines[1..], Scan(lines[0], s));
      p := p + |Marks(lines[0], s) + NewlineMark(lines[0], s)|;
    } else {
      var e := TrimEnd(lines[0]);
      TrimEndParts(lines[0]);
      LineMarks(lines[0], s);
      assert lines[0] == e + lines[0][|e|..];
      BlankEnd(e, lines[0][|e|..], s);
      p := |Marks(e, s)|;
      assert lines[0][|e|] in lines[0];
    }
  }

  // ---------------------------------------------------------------- the end of the text

  lemma {:induction false} LinesSplit(a: seq<string>, b: seq<string>, s: State)
    ensures Marks(Unlines(a + b), s) == Marks(Unlines(a), s) + Marks(Unlines(b), StateAt(a, s, |a|))
    ensures StateAt(a + b, s, |a + b|) == StateAt(b, StateAt(a, s, |a|), |b|)
  {
    if a == [] {
      assert a + b == b;
    } else {
      assert (a + b)[0] == a[0] && (a + b)[1..] == a[1..] + b;
      LinesSplit(a[1..], b, Scan(a[0], s));
      FirstLine(a, s);
      FirstLine(a + b, s);
    }
  }

  lemma {:induction false} EmptyLines(lines: seq<string>, s: State)
    requires forall i :: 0 <= i < |lines| ==> lines[i] == ""
    ensures Marks(Unlines(lines), s) == if s.lex == Code then [] else seq(|lines|, _ => Inside('\n'))
    ensures StateAt(lines, s, |lines|) == s
  {
    if lines != [] {
      EmptyLines(lines[1..], s);
      FirstLine(lines, s);
    }
  }

  lemma {:induction false} DanglingEnd(t: string, s: State)
    requires Dangles(t, s)
    ensures t != "" && t[|t| - 1] == '$'
    decreases |t|
  {
    if TakesTwo(t, s.lex) {
      DanglingEnd(t[2..], s);
    } else if |t| > 1 {
      DanglingEnd(t[1..], AfterChar(t[0], s));
    }
  }

  /** The state after the last line, and the literals of the text and of its lines. */
  lemma {:induction false} WholeText(src: string)
    ensures Marks(Unlines(Split(src)), START) == Marks(src, START) + NewlineMark(src, START)
    ensures StateAt(Split(src), START, |Split(src)|) == Scan(src, START)
  {
    var ls := Split(src);
    UnlinesSplit(src);
    assert src + "\n" == src + ("\n" + "");
    MarksAcrossNewline(src, "", START);
    ScanAcrossNewline(src, "", START);
    LineStartsAgree(ls, START, |ls|);
    assert ls[..|ls|] == ls;
  }

  /** The literals of the output, and how those of the stripped lines end. */
  lemma {:induction false} Output(src: string)
    ensures var os := Lines(Split(src), START);
            var d := |os| - |Strip(os)|;
            Marks(Unlines(os), START) == Marks(Formatted(src), START)
              + if Scan(src, START).lex == Code then [] else seq(d, _ => Inside('\n'))
    ensures var os := Lines(Split(src), START); StateAt(Strip(os), START, |Strip(os)|) == Scan(src, START)
  {
    var ls := Split(src);
    var os := Lines(ls, START);
    var kept := Strip(os);
    assert os == kept + os[|kept|..];
    LinesSplit(kept, os[|kept|..], START);
    EmptyLines(os[|kept|..], StateAt(kept, START, |kept|));
    LinesFixed(ls, START, |ls|);
    WholeText(src);
  }

  /** The text ends with exactly one newline. */
  predicate OneNewlineAtEnd(src: string) {
    NewlineTail(src, 1) && !NewlineTail(src, 2)
  }

  lemma {:induction false} SafeAt(lines: seq<string>, s: State, k: nat)
    requires AllSafe(lines, s) && k < |lines|
    ensures Safe(lines[k], StateAt(lines, s, k))
  {
    if k > 0 {
      SafeAt(lines[1..], Scan(lines[0], s), k - 1);
    }
  }

  lemma {:induction false} StateAtNext(lines: seq<string>, s: State, k: nat)
    requires k < |lines|
    ensures StateAt(lines, s, k + 1) == Scan(lines[k], StateAt(lines, s, k))
  {
    if k > 0 {
      StateAtNext(lines[1..], Scan(lines[0], s), k - 1);
    }
  }

  /** A safe line that leads into a literal comes out empty exactly when it is empty. */
  lemma {:induction false} SafeOpenLine(line: string, s: State)
    requires Safe(line, s) && Scan(line, s).lex != Code
    ensures Line(line, s) == "" <==> line == ""
  {
    TrimEndParts(line);
    var e := TrimEnd(line);
    assert line == e + line[|e|..];
    ScanIgnoresBlankEnd(e, line[|e|..], s);
    TrimOfBlank(line);
    if s.lex == Code && Trim(line) == "" {
      ScanBlank(line, s);
    }
  }

  /** With a text that ends in an open string or comment, one line is stripped exactly when the text ends
      with one newline. */
  lemma {:induction false} OneStripped(src: string)
    requires AllSafe(Split(src), START) && Scan(src, START).lex != Code
    ensures var os := Lines(Split(src), START); |os| - |Strip(os)| == 1 <==> OneNewlineAtEnd(src)
  {
    var ls := Split(src);
    var n := |ls|;
    var os, u := Lines(ls, START), Unlines(ls);
    WholeText(src);
    UnlinesSplit(src);
    EndOfUnlines(ls);
    StateAtNext(ls, START, n - 1);
    SafeAt(ls, START, n - 1);
    LineAt(ls, START, n - 1);
    SafeOpenLine(ls[n - 1], StateAt(ls, START, n - 1));
    assert NewlineTail(u, 2) <==> NewlineTail(src, 1);
    if n > 1 && ls[n - 1] == "" {
      assert src == Unlines(ls[..n - 1]);
      EndOfUnlines(ls[..n - 1]);
      StateAtNext(ls, START, n - 2);
      SafeAt(ls, START, n - 2);
      LineAt(ls, START, n - 2);
      SafeOpenLine(ls[n - 2], StateAt(ls, START, n - 2));
      assert NewlineTail(src, 2) <==> n > 2 && ls[n - 2] == "";
    }
  }

  lemma {:induction false} SurviveWhenSafe(src: string)
    requires AllSafe(Split(src), START)
    ensures Marks(Formatted(src), START) == Marks(src, START) <==> (EndsOpen(src, START) ==> OneNewlineAtEnd(src))
  {
    WholeText(src);
    Output(src);
    SafeLinesSame(Split(src), START);
    var was, now := Marks(src, START), Marks(Formatted(src), START);
    assert now + [] == now && was + [] == was;
    if Scan(src, START).lex != Code {
      OneStripped(src);
      var d := |Split(src)| - |Strip(Lines(Split(src), START))|;
      assert |was| + 1 == |now| + d;
      if d == 1 {
        assert was == (was + [Inside('\n')])[..|was|] == now;
      }
    } else if Dangles(src, START) {
      DanglingEnd(src, START);
      assert |now| == |was| + 1;
    }
  }

  lemma {:induction false} LostWhenUnsafe(src: string)
    requires !AllSafe(Split(src), START)
    ensures Marks(Formatted(src), START) != Marks(src, START)
  {
    WholeText(src);
    Output(src);
    var p := UnsafeDiffers(Split(src), START);
  }

  /** The formatter keeps the text of every string, comment and character literal exactly when no
      whitespace at a line's end belongs to a literal, and a text that ends in an open literal ends with
      one newline. */
  lemma {:induction false} LiteralsSurviveIff(src: string)
    ensures Marks(Formatted(src), START) == Marks(src, START)
            <==> AllSafe(Split(src), START) && (EndsOpen(src, START) ==> OneNewlineAtEnd(src))
  {
    if AllSafe(Split(src), START) {
      SurviveWhenSafe(src);
    } else {
      LostWhenUnsafe(src);
    }
  }
}

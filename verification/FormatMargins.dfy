/** Source > Format: the margin of every line that starts in code. */
module FormatMargins {
  import opened Format
  import opened Text
  import Reading

  const OPENERS := "[({"
  const CLOSERS := "])}"

  // ---------------------------------------------------------------- the depth, read off the text

  function ModeOf(lex: Lex): Reading.Mode {
    match lex case Code => Reading.Code case Str => Reading.Str case Comment => Reading.Comment
  }

  /** The mode of a scan that has ended in `lex`, a `$` at the very end still waiting for its character. */
  predicate SameMode(m: Reading.Mode, lex: Lex) {
    m == ModeOf(lex) || (m == Reading.Char && lex == Code)
  }

  function Max(a: int, b: int): int {
    if a < b then b else a
  }

  /** The greatest excess over all ends of `t`, the empty one included. */
  function Peak(m: Reading.Mode, t: string): int
    decreases |t|
  {
    if t == "" then 0
    else Max(Reading.Excess(m, t, OPENERS, CLOSERS), Peak(Reading.Then(m, t[0]), t[1..]))
  }

  /** Two characters read together, or the last one, are read the same one at a time. */
  lemma {:induction false} TwoAreRead(t: string, s: State)
    requires TakesTwo(t, s.lex)
    ensures var m := ModeOf(s.lex);
            && Reading.Then(Reading.Then(m, t[0]), t[1]) == m
            && Reading.Read(m, t) == Reading.Read(m, t[2..])
            && Reading.Excess(m, t, OPENERS, CLOSERS) == Reading.Excess(m, t[2..], OPENERS, CLOSERS)
            && Peak(m, t) == Max(Reading.Excess(m, t, OPENERS, CLOSERS), Peak(m, t[2..]))
  {
    assert t[1..][1..] == t[2..];
    var m := ModeOf(s.lex);
    var between := Reading.Then(m, t[0]);
    assert Reading.Excess(between, t[1..], OPENERS, CLOSERS) == Reading.Excess(m, t[2..], OPENERS, CLOSERS);
  }

  lemma {:induction false} OneIsRead(t: string, s: State)
    requires t != "" && !TakesTwo(t, s.lex)
    ensures var m, now := ModeOf(s.lex), AfterChar(t[0], s);
            && (if s.lex == Code && t[0] == '$' then |t| == 1 else Reading.Then(m, t[0]) == ModeOf(now.lex))
            && (s.lex != Code ==> now.depth == s.depth)
            && (s.lex == Code ==> now.depth == Max(0, s.depth + Reading.Weight(t[0], OPENERS, CLOSERS)))
  {
  }

  /** A scan's state: its mode is the reading's, and its depth the greatest excess over the ends of the
      text, the depth at the start counting with the whole of it. */
  lemma {:induction false} ScanIsReading(t: string, s: State)
    ensures var m := ModeOf(s.lex);
            && SameMode(Reading.Read(m, t), Scan(t, s).lex)
            && Scan(t, s).depth == Max(s.depth + Reading.Excess(m, t, OPENERS, CLOSERS), Peak(m, t))
    decreases |t|
  {
    if t != "" {
      if TakesTwo(t, s.lex) {
        TwoAreRead(t, s);
        ScanIsReading(t[2..], s);
      } else {
        OneIsRead(t, s);
        ScanIsReading(t[1..], AfterChar(t[0], s));
      }
    }
  }

  /** `d` is the greatest excess of openers over closers, outside literals, over all ends of `text`. */
  ghost predicate GreatestExcess(text: string, d: int) {
    && (forall k :: 0 <= k <= |text| ==> Reading.ExcessFrom(text, k, OPENERS, CLOSERS) <= d)
    && (exists k :: 0 <= k <= |text| && Reading.ExcessFrom(text, k, OPENERS, CLOSERS) == d)
  }

  lemma {:induction false} PeakIsGreatest(before: string, t: string)
    ensures var text, peak := before + t, Peak(Reading.Read(Reading.Code, before), t);
            && (forall k :: |before| <= k <= |text| ==> Reading.ExcessFrom(text, k, OPENERS, CLOSERS) <= peak)
            && (exists k :: |before| <= k <= |text| && Reading.ExcessFrom(text, k, OPENERS, CLOSERS) == peak)
    decreases |t|
  {
    var text := before + t;
    assert text[..|before|] == before && text[|before|..] == t;
    if t == "" {
      assert Reading.ExcessFrom(text, |before|, OPENERS, CLOSERS) == 0;
    } else {
      var next := before + [t[0]];
      assert next + t[1..] == text;
      assert [t[0]][1..] == "";
      Reading.ReadSplit(Reading.Code, before, [t[0]], OPENERS, CLOSERS);
      PeakIsGreatest(next, t[1..]);
      assert Reading.ExcessFrom(text, |before|, OPENERS, CLOSERS)
             == Reading.Excess(Reading.Read(Reading.Code, before), t, OPENERS, CLOSERS);
    }
  }

  // ---------------------------------------------------------------- the closers a line starts with

  /** The longest start of `t` made of closers, spaces and tabs has `n` characters. */
  predicate LeadingRun(t: string, n: nat) {
    && n <= |t|
    && (forall i :: 0 <= i < n ==> t[i] in "])} \t")
    && (n < |t| ==> t[n] !in "])} \t")
  }

  function Closers(t: string): nat {
    if t == "" then 0 else Closers(t[..|t| - 1]) + if t[|t| - 1] in CLOSERS then 1 else 0
  }

  lemma {:induction false} ClosersFront(t: string)
    requires t != ""
    ensures Closers(t) == (if t[0] in CLOSERS then 1 else 0) + Closers(t[1..])
  {
    if |t| > 1 {
      ClosersFront(t[..|t| - 1]);
      assert t[..|t| - 1][1..] == t[1..][..|t| - 2];
    } else {
      assert t[..0] == "" && t[1..] == "";
    }
  }

  lemma {:induction false} LeadingClosersCount(t: string) returns (n: nat)
    ensures LeadingRun(t, n) && Closers(t[..n]) == LeadingClosers(t)
  {
    if t == "" || t[0] !in "])} \t" {
      n := 0;
      assert t[..0] == "";
    } else {
      n := LeadingClosersCount(t[1..]);
      n := n + 1;
      assert t[..n][1..] == t[1..][..n - 1];
      ClosersFront(t[..n]);
    }
  }

  // ---------------------------------------------------------------- the margin

  /** `out` is `n` spaces and then `line`. */
  predicate Indented(out: string, n: nat, line: string) {
    n <= |out| && (forall i :: 0 <= i < n ==> out[i] == ' ') && out[n..] == line
  }

  lemma {:induction false} CodeLineIsIndented(line: string, s: State)
    requires s.lex == Code && Trim(line) != ""
    ensures Indented(Line(line, s), 4 * Max(0, s.depth - LeadingClosers(Trim(line))), Trim(line))
  {
  }

  lemma {:induction false} LineMargin(line: string, s: State, out: string, depth: int, run: nat)
    requires !Blank(line) && out == Line(line, s) && depth == s.depth
    requires run <= |Trim(line)| && LeadingClosers(Trim(line)) == Closers(Trim(line)[..run])
    ensures s.lex == Code ==> Indented(out, 4 * Max(0, depth - Closers(Trim(line)[..run])), Trim(line))
  {
    TrimOfBlank(line);
    if s.lex == Code {
      CodeLineIsIndented(line, s);
    }
  }

  lemma {:induction false} DepthBefore(ls: seq<string>, k: nat)
    requires k <= |ls|
    ensures var before, s := Unlines(ls[..k]), StateAt(ls, START, k);
            s.depth == Peak(Reading.Code, before) && SameMode(Reading.Read(Reading.Code, before), s.lex)
  {
    LineStartsAgree(ls, START, k);
    ScanIsReading(Unlines(ls[..k]), START);
    PeakAtLeastWhole(Unlines(ls[..k]));
  }

  lemma {:induction false} OutputLine(src: string, k: nat)
    requires k < |Split(Formatted(src))| - 1 && k < |Split(src)|
    ensures Split(Formatted(src))[k] == Line(Split(src)[k], StateAt(Split(src), START, k))
  {
    OutputLines(src);
    LineAt(Split(src), START, k);
  }

  lemma {:induction false} PeakAtLeastWhole(t: string)
    ensures Peak(Reading.Code, t) >= Reading.Excess(Reading.Code, t, OPENERS, CLOSERS)
  {
  }

  /** In the output of every text, every line that is kept, is not blank and starts in code has a margin
      of four spaces for each level: the greatest excess of opening over closing brackets outside
      literals over the ends of the text before the line, less the closing brackets the line starts
      with. */
  lemma {:induction false} MarginIsDepth(src: string, k: nat) returns (depth: int, run: nat)
    requires k < |Split(Formatted(src))| - 1 && k < |Split(src)| && !Blank(Split(src)[k])
    ensures var line, before := Trim(Split(src)[k]), Unlines(Split(src)[..k]);
            && GreatestExcess(before, depth) && LeadingRun(line, run)
            && (Reading.Read(Reading.Code, before) == Reading.Code ==>
                  Indented(Split(Formatted(src))[k], 4 * Max(0, depth - Closers(line[..run])), line))
  {
    var ls := Split(src);
    var before := Unlines(ls[..k]);
    DepthBefore(ls, k);
    PeakIsGreatest("", before);
    assert "" + before == before;
    depth := Peak(Reading.Code, before);
    run := LeadingClosersCount(Trim(ls[k]));
    OutputLine(src, k);
    LineMargin(ls[k], StateAt(ls, START, k), Split(Formatted(src))[k], depth, run);
  }
}

/** Smalltalk text read one character at a time: in code, in a string, in a comment, or on the character
    after a `$`. A doubled quote closes a literal and opens the next. */
module Reading {

  datatype Mode = Code | Str | Comment | Char

  function Then(m: Mode, c: char): Mode {
    match m
    case Code => if c == '\'' then Str else if c == '"' then Comment else if c == '$' then Char else Code
    case Str => if c == '\'' then Code else Str
    case Comment => if c == '"' then Code else Comment
    case Char => Code
  }

  /** The mode after reading `t` in mode `m`. */
  function Read(m: Mode, t: string): Mode
    decreases |t|
  {
    if t == "" then m else Read(Then(m, t[0]), t[1..])
  }

  function Weight(c: char, openers: string, closers: string): int {
    if c in openers then 1 else if c in closers then -1 else 0
  }

  /** Opening less closing brackets among the characters of `t` that are read in code. */
  function Excess(m: Mode, t: string, openers: string, closers: string): int
    decreases |t|
  {
    if t == "" then 0
    else (if m == Code then Weight(t[0], openers, closers) else 0) + Excess(Then(m, t[0]), t[1..], openers, closers)
  }

  /** The excess of the part of `t` from `k` on, when all of `t` is read from code. */
  function ExcessFrom(t: string, k: nat, openers: string, closers: string): int
    requires k <= |t|
  {
    Excess(Read(Code, t[..k]), t[k..], openers, closers)
  }

  lemma {:induction false} ReadSplit(m: Mode, a: string, b: string, openers: string, closers: string)
    ensures Read(m, a + b) == Read(Read(m, a), b)
    ensures Excess(m, a + b, openers, closers)
            == Excess(m, a, openers, closers) + Excess(Read(m, a), b, openers, closers)
    decreases |a|
  {
    if a == "" {
      assert a + b == b;
    } else {
      assert (a + b)[0] == a[0] && (a + b)[1..] == a[1..] + b;
      ReadSplit(Then(m, a[0]), a[1..], b, openers, closers);
    }
  }
}

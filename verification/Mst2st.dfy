/** The class-dialect translator's scanner: it walks brackets, stepping over strings, comments and
    character literals as single atoms. */
module Mst2st {
  import opened Options
  import Reading

  // ---------------------------------------------------------------- atoms

  /** Just past the string whose inside starts at `i`; one past the text's end plus one when it never
      ends. */
  function StringEnd(s: string, i: nat): (j: nat)
    requires i <= |s|
    ensures i < j <= |s| + 1
    decreases |s| - i
  {
    if i == |s| then |s| + 1
    else if s[i] != '\'' then StringEnd(s, i + 1)
    else if i + 1 < |s| && s[i + 1] == '\'' then StringEnd(s, i + 2)
    else i + 1
  }

  /** The next double quote, or the end. */
  function CommentEnd(s: string, i: nat): (j: nat)
    requires i <= |s|
    ensures i <= j <= |s|
    decreases |s| - i
  {
    if i < |s| && s[i] != '"' then CommentEnd(s, i + 1) else i
  }

  function AtomEnd(s: string, i: nat): (j: nat)
    requires i < |s|
    ensures i < j <= |s| + 1
  {
    if s[i] == '\'' then StringEnd(s, i + 1)
    else if s[i] == '"' then CommentEnd(s, i + 1) + 1
    else if s[i] == '$' then i + 2
    else i + 1
  }

  method SkipAtom(s: string, start: nat) returns (end: nat)
    requires start < |s|
    ensures end == AtomEnd(s, start)
  {
    var i, c := start, s[start];
    if c == '\'' {
      i := i + 1;
      while i < |s|
        invariant start < i <= |s|
        invariant StringEnd(s, i) == StringEnd(s, start + 1)
      {
        if s[i] == '\'' {
          if i + 1 < |s| && s[i + 1] == '\'' {
            i := i + 2;
            continue;
          }
          return i + 1;
        }
        i := i + 1;
      }
    } else if c == '"' {
      i := i + 1;
      while i < |s| && s[i] != '"'
        invariant start < i <= |s|
        invariant CommentEnd(s, i) == CommentEnd(s, start + 1)
      {
        i := i + 1;
      }
      return i + 1;
    } else if c == '$' {
      return i + 2;
    }
    return i + 1;
  }

  /** Quotes among the first characters of `s`. */
  function Quotes(s: string, n: nat): nat
    requires n <= |s|
  {
    if n == 0 then 0 else Quotes(s, n - 1) + if s[n - 1] == '\'' then 1 else 0
  }

  /** A string that started at `i` could end at `j`: its quotes pair up and no quote follows. */
  predicate QuotesPairUp(s: string, i: nat, j: nat)
    requires i <= j <= |s|
  {
    (Quotes(s, j) - Quotes(s, i)) % 2 == 0 && (j < |s| ==> s[j] != '\'')
  }

  /** A string atom ends at the first place where its quotes pair up and no quote follows, and runs off
      the text when there is none. */
  lemma {:induction false} StringEndIsFirstPairing(s: string, start: nat, i: nat)
    requires start < i <= |s| && (Quotes(s, i) - Quotes(s, start)) % 2 == 1
    requires forall k :: start < k < i ==> !QuotesPairUp(s, start, k)
    ensures var j := StringEnd(s, i);
            && (forall k :: start < k < j && k <= |s| ==> !QuotesPairUp(s, start, k))
            && (j <= |s| ==> QuotesPairUp(s, start, j))
    decreases |s| - i
  {
    if i < |s| {
      if s[i] != '\'' {
        StringEndIsFirstPairing(s, start, i + 1);
      } else if i + 1 < |s| && s[i + 1] == '\'' {
        assert Quotes(s, i + 1) == Quotes(s, i) + 1 && Quotes(s, i + 2) == Quotes(s, i + 1) + 1;
        StringEndIsFirstPairing(s, start, i + 2);
      }
    }
  }

  // ---------------------------------------------------------------- brackets

  /** Where the walk goes from `i`. */
  function Next(s: string, i: nat): (j: nat)
    requires i < |s|
    ensures i < j <= |s| + 1
  {
    if s[i] in "'\"$" then AtomEnd(s, i) else i + 1
  }

  /** The walk from `i` lands on `j`. */
  predicate Reaches(s: string, i: nat, j: nat)
    decreases |s| + 1 - i
  {
    i == j || (i < |s| && Reaches(s, Next(s, i), j))
  }

  function Weight(c: char): int {
    if c == '[' then 1 else if c == ']' then -1 else 0
  }

  /** Opening less closing brackets the walk passes between `i` and `j`: those outside atoms. */
  function Net(s: string, i: nat, j: nat): int
    requires Reaches(s, i, j)
    decreases |s| + 1 - i
  {
    if i == j then 0 else Weight(s[i]) + Net(s, Next(s, i), j)
  }

  /** The walk is at `i` with `depth` open; where it first closes back to zero. */
  function Matching(s: string, i: nat, depth: int): Option<nat>
    decreases |s| + 1 - i
  {
    if i >= |s| then None
    else if s[i] == ']' && depth == 1 then Some(i + 1)
    else Matching(s, Next(s, i), depth + Weight(s[i]))
  }

  /** `find_matching`; `None` is its ValueError. */
  method FindMatching(s: string, start: nat) returns (end: Option<nat>)
    ensures end == Matching(s, start, 0)
  {
    var i, depth := start, 0;
    while i < |s|
      invariant Matching(s, i, depth) == Matching(s, start, 0)
      decreases |s| + 1 - i
    {
      var c := s[i];
      if c in "'\"$" {
        i := SkipAtom(s, i);
        continue;
      }
      if c == '[' {
        depth := depth + 1;
      } else if c == ']' {
        depth := depth - 1;
        if depth == 0 {
          return Some(i + 1);
        }
      }
      i := i + 1;
    }
    return None;
  }

  /** From `depth > 0` the result is the first place the walk reaches with as many brackets closed as
      were open, and there is none exactly when every place it reaches leaves some open. */
  lemma {:induction false} MatchingIsFirstBalance(s: string, i: nat, depth: int)
    requires depth > 0
    ensures match Matching(s, i, depth)
            case Some(j) =>
              && i < j <= |s| && Reaches(s, i, j) && depth + Net(s, i, j) == 0
              && (forall k: nat :: k < j && Reaches(s, i, k) ==> depth + Net(s, i, k) > 0)
            case None => forall k :: Reaches(s, i, k) ==> depth + Net(s, i, k) > 0
    decreases |s| + 1 - i
  {
    if i < |s| {
      var n, d := Next(s, i), depth + Weight(s[i]);
      if d == 0 {
        assert Reaches(s, n, n);
      } else {
        MatchingIsFirstBalance(s, n, d);
      }
      forall k | Reaches(s, i, k) && k != i
        ensures Reaches(s, n, k) && Net(s, i, k) == Weight(s[i]) + Net(s, n, k)
      {
      }
      ReachesForward(s, n);
    }
  }

  lemma {:induction false} ReachesForward(s: string, i: nat)
    ensures forall k :: Reaches(s, i, k) ==> i <= k
    decreases |s| + 1 - i
  {
    if i < |s| {
      ReachesForward(s, Next(s, i));
    }
  }

  /** From an opening bracket, `find_matching` answers the end of the shortest prefix whose brackets
      balance outside strings, comments and character literals, and raises exactly when none does. */
  lemma {:induction false} FindsShortestBalancedPrefix(s: string, i: nat)
    requires i < |s| && s[i] == '['
    ensures match Matching(s, i, 0)
            case Some(j) =>
              && i < j <= |s| && Reaches(s, i, j) && Net(s, i, j) == 0
              && (forall k: nat :: i < k < j && Reaches(s, i, k) ==> Net(s, i, k) > 0)
            case None => forall k :: i < k && Reaches(s, i, k) ==> Net(s, i, k) > 0
  {
    MatchingIsFirstBalance(s, i + 1, 1);
    forall k | Reaches(s, i, k) && i < k ensures Reaches(s, i + 1, k) && Net(s, i, k) == 1 + Net(s, i + 1, k) {
    }
    assert forall k :: Reaches(s, i + 1, k) ==> Reaches(s, i, k);
    ReachesForward(s, i + 1);
  }

  // ---------------------------------------------------------------- one character at a time

  /** The reading is at `i` in mode `m` with `depth` open; where it first closes back to zero. */
  function FirstBalance(s: string, i: nat, m: Reading.Mode, depth: int): Option<nat>
    decreases |s| - i
  {
    if i >= |s| then None
    else
      var now := depth + if m == Reading.Code then Reading.Weight(s[i], "[", "]") else 0;
      if now == 0 then Some(i + 1) else FirstBalance(s, i + 1, Reading.Then(m, s[i]), now)
  }

  /** Nothing in a string counts, and a doubled quote leads back into it. */
  lemma {:induction false} StringIsRead(s: string, i: nat, depth: int)
    requires i <= |s| && depth > 0
    ensures FirstBalance(s, i, Reading.Str, depth) == FirstBalance(s, StringEnd(s, i), Reading.Code, depth)
    decreases |s| - i
  {
    if i < |s| {
      if s[i] != '\'' {
        StringIsRead(s, i + 1, depth);
      } else if i + 1 < |s| && s[i + 1] == '\'' {
        StringIsRead(s, i + 2, depth);
      }
    }
  }

  lemma {:induction false} CommentIsRead(s: string, i: nat, depth: int)
    requires i <= |s| && depth > 0
    ensures FirstBalance(s, i, Reading.Comment, depth) == FirstBalance(s, CommentEnd(s, i) + 1, Reading.Code, depth)
    decreases |s| - i
  {
    if i < |s| && s[i] != '"' {
      CommentIsRead(s, i + 1, depth);
    }
  }

  /** The walk over atoms finds what the reading finds. */
  lemma {:induction false} WalkIsReading(s: string, i: nat, depth: int)
    requires depth > 0
    ensures Matching(s, i, depth) == FirstBalance(s, i, Reading.Code, depth)
    decreases |s| + 1 - i
  {
    if i < |s| {
      if s[i] == '\'' {
        StringIsRead(s, i + 1, depth);
      } else if s[i] == '"' {
        CommentIsRead(s, i + 1, depth);
      } else if s[i] == '$' {
        assert FirstBalance(s, i, Reading.Code, depth) == FirstBalance(s, i + 1, Reading.Char, depth);
      }
      if !(s[i] == ']' && depth == 1) {
        WalkIsReading(s, Next(s, i), depth + Weight(s[i]));
      }
    }
  }

  /** The reading from `i` is in code at `j`, with as many closing as opening brackets read in code. */
  predicate BalancedAt(s: string, i: nat, j: nat) {
    && i < j <= |s|
    && Reading.Read(Reading.Code, s[i..j]) == Reading.Code
    && Reading.Excess(Reading.Code, s[i..j], "[", "]") == 0
  }

  lemma {:induction false} OneMoreRead(s: string, i: nat, k: nat)
    requires i <= k < |s|
    ensures var m := Reading.Read(Reading.Code, s[i..k]);
            && Reading.Read(Reading.Code, s[i..k + 1]) == Reading.Then(m, s[k])
            && Reading.Excess(Reading.Code, s[i..k + 1], "[", "]")
               == Reading.Excess(Reading.Code, s[i..k], "[", "]")
                + if m == Reading.Code then Reading.Weight(s[k], "[", "]") else 0
  {
    assert s[i..k + 1] == s[i..k] + [s[k]] && [s[k]][1..] == "";
    Reading.ReadSplit(Reading.Code, s[i..k], [s[k]], "[", "]");
  }

  lemma {:induction false} FirstBalanceIsLeast(s: string, i: nat, k: nat)
    requires i <= k <= |s|
    requires Reading.Excess(Reading.Code, s[i..k], "[", "]") > 0
    requires forall j :: i < j <= k ==> !BalancedAt(s, i, j)
    ensures var m, depth := Reading.Read(Reading.Code, s[i..k]), Reading.Excess(Reading.Code, s[i..k], "[", "]");
            match FirstBalance(s, k, m, depth)
            case Some(j) => BalancedAt(s, i, j) && forall j' :: i < j' < j ==> !BalancedAt(s, i, j')
            case None => forall j :: !BalancedAt(s, i, j)
    decreases |s| - k
  {
    if k < |s| {
      OneMoreRead(s, i, k);
      if Reading.Excess(Reading.Code, s[i..k + 1], "[", "]") != 0 {
        FirstBalanceIsLeast(s, i, k + 1);
      }
    }
  }

  /** From an opening bracket the answer is the least end at which the text, read character by character,
      is back in code with as many closing as opening brackets read in code, and there is none exactly
      when there is no such end. */
  lemma {:induction false} MatchesTheReading(s: string, i: nat)
    requires i < |s| && s[i] == '['
    ensures match Matching(s, i, 0)
            case Some(j) => BalancedAt(s, i, j) && forall j' :: i < j' < j ==> !BalancedAt(s, i, j')
            case None => forall j :: !BalancedAt(s, i, j)
  {
    OneMoreRead(s, i, i);
    assert s[i..i] == "";
    WalkIsReading(s, i + 1, 1);
    FirstBalanceIsLeast(s, i, i + 1);
  }
}

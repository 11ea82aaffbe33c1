/** Leftmost, ordered, backtracking matching, as ECMAScript regular expressions without captures do it.
    Subjects are sequences of UTF-16 code units, or of code points. */
module Regex {

  datatype CharClass = Exactly(n: int) | Except(n: int) | Digit | IdentStart | Word

  predicate InClass(c: CharClass, n: int) {
    match c
    case Exactly(m) => n == m
    case Except(m) => n != m
    case Digit => 48 <= n <= 57
    case IdentStart => 65 <= n <= 90 || 97 <= n <= 122 || n == 95
    case Word => 48 <= n <= 57 || 65 <= n <= 90 || 97 <= n <= 122 || n == 95
  }

  datatype Pattern =
    | Unit(c: CharClass)
    | Cat(a: Pattern, b: Pattern)
    | Either(a: Pattern, b: Pattern)
    | Maybe(a: Pattern)      // greedy
    | Star(a: Pattern)       // greedy
    | Boundary             // \b

  predicate WordAt(s: seq<int>, i: int) {
    0 <= i < |s| && InClass(Word, s[i])
  }

  predicate InRange(ends: seq<nat>, low: nat, high: nat) {
    forall k :: 0 <= k < |ends| ==> low <= ends[k] <= high
  }

  /** The ends of all ways to match at `i`, in the order backtracking tries them: the first is the
      match, and there is no match exactly when there is none. */
  function Ends(r: Pattern, s: seq<int>, i: nat): (ends: seq<nat>)
    requires i <= |s|
    ensures InRange(ends, i, |s|)
    decreases r, |s| - i, 0
  {
    match r
    case Unit(c) => if i < |s| && InClass(c, s[i]) then [i + 1] else []
    case Cat(a, b) => EndsAfter(b, s, i, Ends(a, s, i))
    case Either(a, b) => Ends(a, s, i) + Ends(b, s, i)
    case Maybe(a) => Ends(a, s, i) + [i]
    case Star(a) =>
      var once := Beyond(Ends(a, s, i), i, |s|);
      (if once == [] then [] else assert i + 1 <= once[0]; EndsAfter(r, s, i + 1, once)) + [i]
    case Boundary => if WordAt(s, i - 1) != WordAt(s, i) then [i] else []
  }

  /** The ends of matching at each of `starts` in turn. */
  function EndsAfter(r: Pattern, s: seq<int>, low: nat, starts: seq<nat>): (ends: seq<nat>)
    requires low <= |s| && InRange(starts, low, |s|)
    ensures InRange(ends, low, |s|)
    decreases r, |s| - low, |starts|
  {
    if starts == [] then [] else Ends(r, s, starts[0]) + EndsAfter(r, s, low, starts[1..])
  }

  /** An iteration of a star that consumes nothing is not taken. */
  function Beyond(ends: seq<nat>, i: nat, high: nat): (r: seq<nat>)
    requires InRange(ends, i, high)
    ensures InRange(r, i + 1, high)
  {
    if ends == [] then [] else (if ends[0] > i then [ends[0]] else []) + Beyond(ends[1..], i, high)
  }

  // ---------------------------------------------------------------- runs

  /** The end of the longest run of `c` from `i`. */
  function RunEnd(c: CharClass, s: seq<int>, i: nat): (j: nat)
    requires i <= |s|
    ensures i <= j <= |s|
    decreases |s| - i
  {
    if i < |s| && InClass(c, s[i]) then RunEnd(c, s, i + 1) else i
  }

  lemma {:induction false} RunIsMaximal(c: CharClass, s: seq<int>, i: nat)
    requires i <= |s|
    ensures var j := RunEnd(c, s, i);
            && (forall k :: i <= k < j ==> InClass(c, s[k]))
            && (j < |s| ==> !InClass(c, s[j]))
    decreases |s| - i
  {
    if i < |s| && InClass(c, s[i]) {
      RunIsMaximal(c, s, i + 1);
    }
  }

  /** `high, high - 1, .., low`. */
  function Down(high: nat, low: nat): (r: seq<nat>)
    requires low <= high
    ensures InRange(r, low, high)
    ensures r != [] && r[0] == high
  {
    if high == low then [low] else [high] + Down(high - 1, low)
  }

  lemma {:induction false} DownAppend(high: nat, low: nat)
    requires low < high
    ensures Down(high, low + 1) + [low] == Down(high, low)
  {
    if high == low + 1 {
      assert Down(high, low) == [high] + [low];
    } else {
      DownAppend(high - 1, low);
      assert Down(high, low + 1) + [low] == [high] + (Down(high - 1, low + 1) + [low]);
    }
  }

  /** A greedy star gives back its run one unit at a time. */
  lemma {:induction false} StarIsRun(c: CharClass, s: seq<int>, i: nat)
    requires i <= |s|
    ensures Ends(Star(Unit(c)), s, i) == Down(RunEnd(c, s, i), i)
    decreases |s| - i
  {
    var r := Star(Unit(c));
    if i < |s| && InClass(c, s[i]) {
      StarIsRun(c, s, i + 1);
      var once := Beyond(Ends(Unit(c), s, i), i, |s|);
      assert Ends(Unit(c), s, i)[1..] == [];
      assert Beyond([], i, |s|) == [];
      assert once == [i + 1];
      assert EndsAfter(r, s, i + 1, once) == Ends(r, s, i + 1) + EndsAfter(r, s, i + 1, []);
      DownAppend(RunEnd(c, s, i), i);
    } else {
      assert Ends(Unit(c), s, i) == [];
    }
  }

  /** When `r` matches nowhere below the top of a run, only the top counts. */
  lemma {:induction false} OnlyFromTop(r: Pattern, s: seq<int>, low: nat, high: nat)
    requires low <= high <= |s|
    requires forall e :: low <= e < high ==> Ends(r, s, e) == []
    ensures EndsAfter(r, s, low, Down(high, low)) == Ends(r, s, high)
    decreases high
  {
    NowhereBelow(r, s, low, low, high);
  }

  lemma {:induction false} EndsAfterCons(r: Pattern, s: seq<int>, low: nat, e: nat, starts: seq<nat>)
    requires low <= e <= |s| && InRange([e] + starts, low, |s|) && InRange(starts, low, |s|)
    ensures EndsAfter(r, s, low, [e] + starts) == Ends(r, s, e) + EndsAfter(r, s, low, starts)
  {
    assert ([e] + starts)[1..] == starts;
  }

  lemma {:induction false} NowhereBelow(r: Pattern, s: seq<int>, from: nat, low: nat, high: nat)
    requires from <= low <= high <= |s|
    requires forall e :: low <= e < high ==> Ends(r, s, e) == []
    ensures EndsAfter(r, s, from, Down(high, low)) == Ends(r, s, high)
    decreases high
  {
    if low < high {
      NowhereBelow(r, s, from, low, high - 1);
      EndsAfterCons(r, s, from, high, Down(high - 1, low));
    } else {
      OneStart(r, s, from, high);
    }
  }

  lemma {:induction false} OneStart(r: Pattern, s: seq<int>, low: nat, e: nat)
    requires low <= e <= |s|
    ensures EndsAfter(r, s, low, [e]) == Ends(r, s, e)
  {
    assert EndsAfter(r, s, low, []) == [];
  }

  lemma {:induction false} CatAtUnit(c: CharClass, b: Pattern, s: seq<int>, i: nat)
    requires i <= |s|
    ensures Ends(Cat(Unit(c), b), s, i) == if i < |s| && InClass(c, s[i]) then Ends(b, s, i + 1) else []
  {
    if i < |s| && InClass(c, s[i]) {
      SameStarts(b, s, i, i + 1, [i + 1]);
      OneStart(b, s, i + 1, i + 1);
    }
  }

  lemma {:induction false} CatAtBoundary(b: Pattern, s: seq<int>, i: nat)
    requires i <= |s|
    ensures Ends(Cat(Boundary, b), s, i) == if WordAt(s, i - 1) != WordAt(s, i) then Ends(b, s, i) else []
  {
    if WordAt(s, i - 1) != WordAt(s, i) {
      OneStart(b, s, i, i);
    }
  }

  lemma {:induction false} SameStarts(r: Pattern, s: seq<int>, low: nat, low': nat, starts: seq<nat>)
    requires low <= low' <= |s| && InRange(starts, low', |s|)
    ensures EndsAfter(r, s, low, starts) == EndsAfter(r, s, low', starts)
    decreases |starts|
  {
    if starts != [] {
      SameStarts(r, s, low, low', starts[1..]);
    }
  }

  /** A run of `c` closed by a unit that `c` excludes: no unit of the run can be the closing one. */
  lemma {:induction false} RunThenClose(c: CharClass, d: CharClass, s: seq<int>, i: nat)
    requires i <= |s| && forall n :: InClass(c, n) ==> !InClass(d, n)
    ensures var j := RunEnd(c, s, i);
            Ends(Cat(Star(Unit(c)), Unit(d)), s, i) == if j < |s| && InClass(d, s[j]) then [j + 1] else []
  {
    var j := RunEnd(c, s, i);
    StarIsRun(c, s, i);
    RunIsMaximal(c, s, i);
    forall e | i <= e < j ensures Ends(Unit(d), s, e) == [] {
      assert InClass(c, s[e]);
    }
    OnlyFromTop(Unit(d), s, i, j);
  }

  lemma {:induction false} EndsAfterAppend(r: Pattern, s: seq<int>, low: nat, a: seq<nat>, b: seq<nat>)
    requires low <= |s| && InRange(a, low, |s|) && InRange(b, low, |s|)
    ensures EndsAfter(r, s, low, a + b) == EndsAfter(r, s, low, a) + EndsAfter(r, s, low, b)
    decreases |a|
  {
    if a == [] {
      assert a + b == b;
    } else {
      assert (a + b)[1..] == a[1..] + b;
      EndsAfterAppend(r, s, low, a[1..], b);
    }
  }
}

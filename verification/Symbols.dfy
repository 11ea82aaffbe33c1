/** Completion by prefix: a binary search into a sorted list against a plain filter of all of it.
    Strings are ordered by code point, which is the order of their UTF-8 bytes. */
module Symbols {

  predicate Less(a: string, b: string) {
    b != "" && (a == "" || a[0] < b[0] || (a[0] == b[0] && Less(a[1..], b[1..])))
  }

  predicate Sorted(list: seq<string>) {
    forall i, j :: 0 <= i < j < |list| ==> !Less(list[j], list[i])
  }

  /** Every string of the list that starts with `prefix`. */
  function Matching(list: seq<string>, prefix: string): seq<string> {
    if list == [] then [] else (if prefix <= list[0] then [list[0]] else []) + Matching(list[1..], prefix)
  }

  function Capped(list: seq<string>, max: nat): seq<string> {
    if |list| <= max then list else list[..max]
  }

  // ---------------------------------------------------------------- order and prefixes

  lemma {:induction false} BelowThePrefix(s: string, prefix: string)
    requires Less(s, prefix)
    ensures !(prefix <= s)
  {
    if s != "" && s[0] == prefix[0] {
      BelowThePrefix(s[1..], prefix[1..]);
    }
  }

  /** Strings that share a prefix are contiguous. */
  lemma {:induction false} BetweenSharesThePrefix(a: string, b: string, prefix: string)
    requires !Less(a, prefix) && !Less(b, a) && prefix <= b
    ensures prefix <= a
  {
    if prefix != "" {
      BetweenSharesThePrefix(a[1..], b[1..], prefix[1..]);
      assert prefix == [prefix[0]] + prefix[1..] && a == [a[0]] + a[1..];
    }
  }

  lemma {:induction false} LessIsTransitive(a: string, b: string, c: string)
    requires !Less(b, a) && Less(b, c)
    ensures Less(a, c)
  {
    if a != "" && b != "" && a[0] == b[0] == c[0] {
      LessIsTransitive(a[1..], b[1..], c[1..]);
    }
  }

  // ---------------------------------------------------------------- the search

  /** `slice::partition_point` for "below `prefix`". */
  method PartitionPoint(sorted: seq<string>, prefix: string) returns (point: nat)
    requires Sorted(sorted)
    ensures point <= |sorted|
    ensures forall i :: 0 <= i < point ==> Less(sorted[i], prefix)
    ensures forall i :: point <= i < |sorted| ==> !Less(sorted[i], prefix)
  {
    var high := |sorted|;
    point := 0;
    while point < high
      invariant point <= high <= |sorted|
      invariant forall i :: 0 <= i < point ==> Less(sorted[i], prefix)
      invariant forall i :: high <= i < |sorted| ==> !Less(sorted[i], prefix)
    {
      var mid := (point + high) / 2;
      if Less(sorted[mid], prefix) {
        forall i | 0 <= i <= mid ensures Less(sorted[i], prefix) {
          if i < mid { LessIsTransitive(sorted[i], sorted[mid], prefix); }
        }
        point := mid + 1;
      } else {
        forall i | mid <= i < |sorted| ensures !Less(sorted[i], prefix) {
          if mid < i && Less(sorted[i], prefix) { LessIsTransitive(sorted[mid], sorted[i], prefix); }
        }
        high := mid;
      }
    }
  }

  lemma {:induction false} MatchingAppend(a: seq<string>, b: seq<string>, prefix: string)
    ensures Matching(a + b, prefix) == Matching(a, prefix) + Matching(b, prefix)
  {
    if a == [] {
      assert a + b == b;
    } else {
      MatchingAppend(a[1..], b, prefix);
      assert (a + b)[0] == a[0] && (a + b)[1..] == a[1..] + b;
      var first := if prefix <= a[0] then [a[0]] else [];
      assert first + (Matching(a[1..], prefix) + Matching(b, prefix))
             == first + Matching(a[1..], prefix) + Matching(b, prefix);
    }
  }

  lemma {:induction false} NoneMatch(list: seq<string>, prefix: string)
    requires forall i :: 0 <= i < |list| ==> !(prefix <= list[i])
    ensures Matching(list, prefix) == []
  {
    if list != [] {
      NoneMatch(list[1..], prefix);
    }
  }

  lemma {:induction false} AllMatch(list: seq<string>, prefix: string)
    requires forall i :: 0 <= i < |list| ==> prefix <= list[i]
    ensures Matching(list, prefix) == list
  {
    if list != [] {
      AllMatch(list[1..], prefix);
      assert list == [list[0]] + list[1..];
    }
  }

  lemma {:induction false} MiddleMatches(a: seq<string>, b: seq<string>, c: seq<string>, prefix: string)
    requires forall i :: 0 <= i < |a| ==> !(prefix <= a[i])
    requires forall i :: 0 <= i < |b| ==> prefix <= b[i]
    requires forall i :: 0 <= i < |c| ==> !(prefix <= c[i])
    ensures Matching(a + (b + c), prefix) == b
  {
    NoneMatch(a, prefix);
    AllMatch(b, prefix);
    NoneMatch(c, prefix);
    MatchingAppend(b, c, prefix);
    MatchingAppend(a, b + c, prefix);
  }

  /** A list cut where it reaches the prefix and again where it leaves it: the middle is what matches. */
  lemma {:induction false} MatchingIsTheRun(sorted: seq<string>, prefix: string, from: nat, to: nat)
    requires Sorted(sorted) && from <= to <= |sorted|
    requires forall i :: 0 <= i < from ==> Less(sorted[i], prefix)
    requires forall i :: from <= i < |sorted| ==> !Less(sorted[i], prefix)
    requires forall i :: from <= i < to ==> prefix <= sorted[i]
    requires to < |sorted| ==> !(prefix <= sorted[to])
    ensures Matching(sorted, prefix) == sorted[from..to]
  {
    forall i | 0 <= i < from ensures !(prefix <= sorted[..from][i]) {
      BelowThePrefix(sorted[i], prefix);
    }
    forall i | 0 <= i < |sorted| - to ensures !(prefix <= sorted[to..][i]) {
      if i > 0 && prefix <= sorted[to + i] {
        BetweenSharesThePrefix(sorted[to], sorted[to + i], prefix);
      }
    }
    MiddleMatches(sorted[..from], sorted[from..to], sorted[to..], prefix);
    assert sorted == sorted[..from] + (sorted[from..to] + sorted[to..]);
  }

  /** Binary search, then take while the prefix holds, up to `max`: the first `max` of a full filter. */
  method PrefixFilter(sorted: seq<string>, prefix: string, max: nat) returns (found: seq<string>)
    requires Sorted(sorted)
    ensures found == Capped(Matching(sorted, prefix), max)
  {
    var start := PartitionPoint(sorted, prefix);
    var i := start;
    while i < |sorted| && prefix <= sorted[i] && i - start < max
      invariant start <= i <= |sorted| && i - start <= max
      invariant forall k :: start <= k < i ==> prefix <= sorted[k]
    {
      i := i + 1;
    }
    found := sorted[start..i];
    ghost var to := i;
    while to < |sorted| && prefix <= sorted[to]
      invariant i <= to <= |sorted|
      invariant forall k :: start <= k < to ==> prefix <= sorted[k]
    {
      to := to + 1;
    }
    MatchingIsTheRun(sorted, prefix, start, to);
    assert i - start < max ==> to == i;
  }
}

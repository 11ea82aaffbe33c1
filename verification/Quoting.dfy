/** Smalltalk string literals: the escaper that writes one and the three hand-written readers that take
    one apart (the formatter's lexer, the translator's atom skipper, the asm pragma extractor). */
module Quoting {
  import opened Options
  import Format
  import Mst2st

  // ---------------------------------------------------------------- the escaper

  /** `str::replace` of one character. */
  function Replace(s: string, c: char, with: string): string {
    if s == "" then "" else (if s[0] == c then with else [s[0]]) + Replace(s[1..], c, with)
  }

  function EscapeSt(s: string): string {
    Replace(Replace(Replace(s, '\'', "''"), '\n', " "), '\r', " ")
  }

  function FlatChar(c: char): char {
    if c == '\n' || c == '\r' then ' ' else c
  }

  /** `s` with each newline and carriage return replaced by a space. */
  function Flattened(s: string): string {
    seq(|s|, i requires 0 <= i < |s| => FlatChar(s[i]))
  }

  /** What one character is escaped to. */
  function Escaped(c: char): string {
    if c == '\'' then "''" else [FlatChar(c)]
  }

  lemma {:induction false} ReplaceAppend(a: string, b: string, c: char, with: string)
    ensures Replace(a + b, c, with) == Replace(a, c, with) + Replace(b, c, with)
  {
    if a == "" {
      assert a + b == b;
    } else {
      ReplaceAppend(a[1..], b, c, with);
      assert (a + b)[0] == a[0] && (a + b)[1..] == a[1..] + b;
      var first := if a[0] == c then with else [a[0]];
      assert first + (Replace(a[1..], c, with) + Replace(b, c, with))
             == first + Replace(a[1..], c, with) + Replace(b, c, with);
    }
  }

  lemma {:induction false} EscapeStFront(s: string)
    requires s != ""
    ensures EscapeSt(s) == Escaped(s[0]) + EscapeSt(s[1..])
  {
    var c := if s[0] == '\'' then "''" else [s[0]];
    var quoted := Replace(s[1..], '\'', "''");
    ReplaceAppend(c, quoted, '\n', " ");
    ReplaceAppend(Replace(c, '\n', " "), Replace(quoted, '\n', " "), '\r', " ");
    if s[0] == '\'' {
      assert "''"[1..] == "'";
    }
  }

  // ---------------------------------------------------------------- the extractor

  const TAG := "<asm:"

  /** Where `what` first occurs, as `str::find`. */
  function Find(s: string, what: string): Option<nat> {
    if what <= s then Some(0)
    else if s == "" then None
    else match Find(s[1..], what) case None => None case Some(k) => Some(k + 1)
  }

  lemma {:induction false} FindIsFirst(s: string, what: string)
    ensures match Find(s, what)
            case Some(k) => k <= |s| && what <= s[k..] && forall i: nat :: i < k ==> !(what <= s[i..])
            case None => forall i: nat :: i <= |s| ==> !(what <= s[i..])
  {
    if !(what <= s) && s != "" {
      FindIsFirst(s[1..], what);
      forall i: nat | 0 < i <= |s| ensures s[i..] == s[1..][i - 1..] {
      }
      match Find(s[1..], what) {
        case None =>
          forall i: nat | i <= |s| ensures !(what <= s[i..]) {
            if i > 0 { assert s[i..] == s[1..][i - 1..]; }
          }
        case Some(k) =>
          forall i: nat | i < k + 1 ensures !(what <= s[i..]) {
            if i > 0 { assert s[i..] == s[1..][i - 1..]; }
          }
      }
    }
  }

  /** What a literal's text `t`, read from just past its opening quote, stands for, after `out`; `None`
      when it is not closed. */
  function Decoded(t: string, out: string): Option<string>
    decreases |t|
  {
    if t == "" then None
    else if t[0] != '\'' then Decoded(t[1..], out + [t[0]])
    else if |t| > 1 && t[1] == '\'' then Decoded(t[2..], out + "'")
    else Some(out)
  }

  lemma {:induction false} DecodedSkips(t: string, k: nat, out: string)
    requires k <= |t| && forall i :: 0 <= i < k ==> t[i] != '\''
    ensures Decoded(t, out) == Decoded(t[k..], out + t[..k])
  {
    if k == 0 {
      assert t[0..] == t && out + t[..0] == out;
    } else {
      DecodedSkips(t[1..], k - 1, out + [t[0]]);
      assert t[1..][k - 1..] == t[k..];
      assert out + [t[0]] + t[1..][..k - 1] == out + t[..k];
    }
  }

  lemma {:induction false} NoQuoteNeverCloses(t: string, out: string)
    requires forall i :: 0 <= i < |t| ==> t[i] != '\''
    ensures Decoded(t, out) == None
  {
    DecodedSkips(t, |t|, out);
  }

  /** The pragma's text: the first literal after the first tag. */
  function Pragma(source: string): Option<string> {
    match Find(source, TAG)
    case None => None
    case Some(start) =>
      FindIsFirst(source, TAG);
      var after := source[start + |TAG|..];
      match Find(after, "'")
      case None => None
      case Some(quote) =>
        FindIsFirst(after, "'");
        Decoded(after[quote + 1..], "")
  }

  lemma {:induction false} FindQuote(t: string)
    ensures match Find(t, "'")
            case Some(k) => k < |t| && t[k] == '\'' && forall i :: 0 <= i < k ==> t[i] != '\''
            case None => forall i :: 0 <= i < |t| ==> t[i] != '\''
  {
    FindIsFirst(t, "'");
    forall i: nat | i < |t| && t[i] == '\'' ensures "'" <= t[i..] {
      assert t[i..][..1] == "'";
    }
  }

  method ExtractAsmPragma(source: string) returns (text: Option<string>)
    ensures text == Pragma(source)
  {
    var start := Find(source, TAG);
    if start.None? { return None; }
    FindIsFirst(source, TAG);
    var after := source[start.value + |TAG|..];
    var quote := Find(after, "'");
    if quote.None? { return None; }
    FindQuote(after);
    var body := after[quote.value + 1..];
    var out, rest := "", body;
    while true
      invariant Decoded(rest, out) == Decoded(body, "")
      decreases |rest|
    {
      var i := Find(rest, "'");
      FindQuote(rest);
      if i.None? {
        NoQuoteNeverCloses(rest, out);
        return None;
      }
      DecodedSkips(rest, i.value, out);
      out := out + rest[..i.value];
      assert rest[i.value..][1..] == rest[i.value + 1..];
      rest := rest[i.value + 1..];
      if "'" <= rest {
        out := out + "'";
        rest := rest[1..];
      } else {
        return Some(out);
      }
    }
  }

  // ---------------------------------------------------------------- agreement

  /** On every text the three readers agree where a literal ends, and whether it does. */
  lemma {:induction false} ReadersAgree(t: string, i: nat, depth: nat, out: string)
    requires i <= |t|
    ensures var end := Mst2st.StringEnd(t, i);
            if end <= |t| then
              && Format.Scan(t[i..], Format.State(Format.Str, depth))
                 == Format.Scan(t[end..], Format.State(Format.Code, depth))
              && Decoded(t[i..], out).Some?
            else
              && Format.Scan(t[i..], Format.State(Format.Str, depth)) == Format.State(Format.Str, depth)
              && Decoded(t[i..], out) == None
    decreases |t| - i
  {
    if i < |t| {
      assert t[i..][1..] == t[i + 1..];
      if t[i] != '\'' {
        ReadersAgree(t, i + 1, depth, out + [t[i]]);
      } else if i + 1 < |t| && t[i + 1] == '\'' {
        assert t[i..][2..] == t[i + 2..];
        ReadersAgree(t, i + 2, depth, out + "'");
      }
    }
  }

  predicate StartsWithQuote(t: string) {
    t != "" && t[0] == '\''
  }

  /** An escaped string's inside is passed over exactly, and decodes to the flattened string. */
  lemma {:induction false} EscapedInside(t: string, i: nat, s: string, rest: string, out: string)
    requires i <= |t| && t[i..] == EscapeSt(s) + "'" + rest
    ensures !StartsWithQuote(rest) ==>
              && Mst2st.StringEnd(t, i) == i + |EscapeSt(s)| + 1
              && Decoded(t[i..], out) == Some(out + Flattened(s))
    ensures StartsWithQuote(rest) ==> Mst2st.StringEnd(t, i) > i + |EscapeSt(s)| + 1
    decreases |s|
  {
    if s == "" {
      assert t[i..] == "'" + rest;
      assert t[i] == t[i..][0];
      if rest != "" {
        assert t[i + 1] == t[i..][1];
      }
      assert out + Flattened(s) == out;
    } else {
      EscapeStFront(s);
      var n := |Escaped(s[0])|;
      assert t[i..] == Escaped(s[0]) + (EscapeSt(s[1..]) + "'" + rest);
      assert t[i + n..] == t[i..][n..] == EscapeSt(s[1..]) + "'" + rest;
      assert t[i] == t[i..][0] && (n == 2 ==> t[i + 1] == t[i..][1]);
      EscapedInside(t, i + n, s[1..], rest, out + [FlatChar(s[0])]);
      assert out + [FlatChar(s[0])] + Flattened(s[1..]) == out + Flattened(s);
    }
  }

  lemma {:induction false} Cuts(before: string, inside: string, rest: string)
    ensures var literal := "'" + inside + "'";
            var t := before + literal + rest;
            && t[|before|] == '\'' && t[|before| + 1..] == inside + "'" + rest
            && (literal + rest)[0] == '\'' && (literal + rest)[1..] == literal[1..] + rest == inside + "'" + rest
            && t[|before| + |literal|..] == rest
  {
  }

  /** One escape, three readers: a quoted, escaped string is one literal exactly when no quote follows
      it. The skipper then lands just past it, the lexer is back in code there with its depth unchanged,
      and the extractor gives the string back with its newlines flattened. */
  lemma {:induction false} OneEscapeThreeReaders(before: string, s: string, rest: string, depth: nat)
    ensures var literal := "'" + EscapeSt(s) + "'";
            var t := before + literal + rest;
            && (Mst2st.AtomEnd(t, |before|) == |before| + |literal| <==> !StartsWithQuote(rest))
            && (!StartsWithQuote(rest) ==>
                  && Format.Scan(literal + rest, Format.State(Format.Code, depth))
                     == Format.Scan(rest, Format.State(Format.Code, depth))
                  && Decoded(literal[1..] + rest, "") == Some(Flattened(s)))
  {
    var literal := "'" + EscapeSt(s) + "'";
    var t := before + literal + rest;
    var i := |before| + 1;
    Cuts(before, EscapeSt(s), rest);
    EscapedInside(t, i, s, rest, "");
    ReadersAgree(t, i, depth, "");
    if !StartsWithQuote(rest) {
      assert "" + Flattened(s) == Flattened(s);
    }
  }

  /** Cut anywhere between two characters of the original string, the lexer is still inside. */
  lemma {:induction false} StillInside(s: string, depth: nat)
    ensures Format.Scan(EscapeSt(s), Format.State(Format.Str, depth)) == Format.State(Format.Str, depth)
  {
    if s != "" {
      EscapeStFront(s);
      assert EscapeSt(s)[|Escaped(s[0])|..] == EscapeSt(s[1..]);
      if s[0] == '\'' {
        assert EscapeSt(s)[0] == EscapeSt(s)[1] == '\'';
      }
      StillInside(s[1..], depth);
    }
  }

  lemma {:induction false} TagInHead(before: string, tail: string, i: nat)
    requires i < |before|
    ensures TAG <= (before + TAG + tail)[i..] ==> TAG <= (before + TAG[..4])[i..]
  {
    var source, head := before + TAG + tail, before + TAG[..4];
    assert source[..|head|] == head;
    assert head[i..i + 5] == source[i..i + 5];
    assert head[i..][..5] == head[i..i + 5] && source[i..][..5] == source[i..i + 5];
  }

  lemma {:induction false} FindTag(before: string, tail: string)
    requires Find(before + TAG[..4], TAG) == None
    ensures Find(before + TAG + tail, TAG) == Some(|before|)
  {
    var source, head := before + TAG + tail, before + TAG[..4];
    FindIsFirst(source, TAG);
    FindIsFirst(head, TAG);
    assert source[|before|..] == TAG + tail;
    forall i: nat | i < |before| ensures !(TAG <= source[i..]) {
      TagInHead(before, tail, i);
    }
  }

  lemma {:induction false} FindLiteral(gap: string, s: string, rest: string)
    requires forall i :: 0 <= i < |gap| ==> gap[i] != '\''
    ensures var tail := gap + ("'" + EscapeSt(s) + "'" + rest);
            Find(tail, "'") == Some(|gap|) && tail[|gap| + 1..] == EscapeSt(s) + "'" + rest
  {
    var tail := gap + ("'" + EscapeSt(s) + "'" + rest);
    FindQuote(tail);
    assert tail[|gap|] == '\'';
    assert forall i :: 0 <= i < |gap| ==> tail[i] == gap[i];
  }

  /** A pragma holding an escaped string is extracted from any source in which its tag comes first. */
  lemma {:induction false} PragmaRoundTrip(before: string, gap: string, s: string, rest: string)
    requires Find(before + TAG[..4], TAG) == None
    requires forall i :: 0 <= i < |gap| ==> gap[i] != '\''
    requires !StartsWithQuote(rest)
    ensures Pragma(before + TAG + (gap + ("'" + EscapeSt(s) + "'" + rest))) == Some(Flattened(s))
  {
    var tail := gap + ("'" + EscapeSt(s) + "'" + rest);
    FindTag(before, tail);
    assert (before + TAG + tail)[|before| + |TAG|..] == tail;
    FindLiteral(gap, s, rest);
    EscapedInside(tail, |gap| + 1, s, rest, "");
    assert "" + Flattened(s) == Flattened(s);
  }
}

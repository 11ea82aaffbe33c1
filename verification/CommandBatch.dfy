/** The canvas's drawing-command batch: `[["op", arg, ...], ...]`, read by a hand-rolled parser that
    never fails and stops at what it does not know. Every character the parser looks for is ASCII, so
    reading characters here is reading bytes there. */
module CommandBatch {
  import opened Options

  datatype Arg = Str(text: string) | Num(value: int)

  datatype Op = Op(name: string, args: seq<Arg>)

  predicate IsSpace(c: char) {
    c == ' ' || c == '\n' || c == '\r' || c == '\t'
  }

  predicate IsDigit(c: char) {
    '0' <= c <= '9'
  }

  // ---------------------------------------------------------------- what is read from a text

  function SkipSpace(t: string): (rest: string)
    ensures |rest| <= |t|
  {
    if t != "" && IsSpace(t[0]) then SkipSpace(t[1..]) else t
  }

  /** The text before the next double quote, or all of it. */
  function UntilQuote(t: string): (text: string)
    ensures |text| <= |t| && (|text| < |t| ==> t[|text|] == '"')
  {
    if t == "" || t[0] == '"' then "" else [t[0]] + UntilQuote(t[1..])
  }

  /** What follows the string whose inside `t` starts with; an unclosed one takes everything. */
  function AfterString(t: string): (rest: string)
    ensures |rest| <= |t|
  {
    var n := |UntilQuote(t)|;
    if n < |t| then t[n + 1..] else ""
  }

  function Digits(t: string): (digits: string)
    ensures |digits| <= |t|
  {
    if t == "" || !IsDigit(t[0]) then "" else [t[0]] + Digits(t[1..])
  }

  function Unsigned(digits: string): int {
    if digits == "" then 0 else 10 * Unsigned(digits[..|digits| - 1]) + (digits[|digits| - 1] as int - '0' as int)
  }

  predicate HasSign(t: string) {
    t != "" && (t[0] == '-' || t[0] == '+')
  }

  /** A number and what follows it. A sign with no digit is used up although it is no number. */
  function ReadNum(t: string): (r: (Option<int>, string))
    ensures |r.1| <= |t| && (r.0.Some? ==> |r.1| < |t|)
  {
    var body := if HasSign(t) then t[1..] else t;
    var digits := Digits(body);
    (if digits == "" then None else if t[0] == '-' then Some(-Unsigned(digits)) else Some(Unsigned(digits)),
     body[|digits|..])
  }

  function SkipComma(t: string): (rest: string)
    ensures |rest| <= |t|
  {
    if t != "" && t[0] == ',' then SkipSpace(t[1..]) else t
  }

  /** One argument and what follows it. */
  function ReadArg(t: string): (r: (Option<Arg>, string))
    ensures |r.1| <= |t| && (r.0.Some? ==> |r.1| < |t|)
  {
    if t != "" && t[0] == '"' then (Some(Str(UntilQuote(t[1..]))), AfterString(t[1..]))
    else
      var (n, rest) := ReadNum(t);
      (match n case Some(v) => Some(Num(v)) case None => None, rest)
  }

  function ReadArgs(t: string): (r: (seq<Arg>, string))
    ensures |r.1| <= |t|
    decreases |t|
  {
    var u := SkipSpace(t);
    if u == "" || u[0] == ']' then ([], u)
    else
      var (arg, rest) := ReadArg(SkipComma(u));
      match arg
      case None => ([], rest)
      case Some(a) => var (more, end) := ReadArgs(rest); ([a] + more, end)
  }

  function CloseOp(t: string): (rest: string)
    ensures |rest| <= |t|
  {
    var u := SkipSpace(t);
    if u != "" && u[0] == ']' then u[1..] else u
  }

  function ReadOps(t: string): seq<Op>
    decreases |t|
  {
    var u := SkipSpace(t);
    if u == "" || u[0] == ']' then []
    else if u[0] == ',' then ReadOps(u[1..])
    else if u[0] != '[' then []
    else
      var v := SkipSpace(u[1..]);
      if v == "" || v[0] != '"' then []
      else
        var (args, rest) := ReadArgs(AfterString(v[1..]));
        [Op(UntilQuote(v[1..]), args)] + ReadOps(CloseOp(rest))
  }

  function Parsed(t: string): seq<Op> {
    var u := SkipSpace(t);
    ReadOps(if u != "" && u[0] == '[' then u[1..] else u)
  }

  // ---------------------------------------------------------------- the parser

  method SkipWs(s: string, start: nat) returns (i: nat)
    requires start <= |s|
    ensures start <= i <= |s| && s[i..] == SkipSpace(s[start..])
  {
    i := start;
    while i < |s| && IsSpace(s[i])
      invariant start <= i <= |s| && SkipSpace(s[i..]) == SkipSpace(s[start..])
    {
      assert s[i..][1..] == s[i + 1..];
      i := i + 1;
    }
  }

  lemma {:induction false} Suffix(s: string, i: nat, n: nat)
    requires i + n <= |s|
    ensures s[i..][n..] == s[i + n..]
  {
  }

  lemma {:induction false} Regroup<T>(a: seq<T>, x: T, b: seq<T>)
    ensures a + ([x] + b) == a + [x] + b
  {
  }

  lemma {:induction false} QuoteStep(s: string, start: nat, i: nat)
    requires start <= i < |s| && s[i] != '"'
    ensures s[start..i] + UntilQuote(s[i..]) == s[start..i + 1] + UntilQuote(s[i + 1..])
  {
    Suffix(s, i, 1);
    Regroup(s[start..i], s[i], UntilQuote(s[i + 1..]));
    assert s[start..i] + [s[i]] == s[start..i + 1];
  }

  lemma {:induction false} DigitStep(s: string, start: nat, i: nat)
    requires start <= i < |s| && IsDigit(s[i])
    ensures s[start..i] + Digits(s[i..]) == s[start..i + 1] + Digits(s[i + 1..])
  {
    Suffix(s, i, 1);
    Regroup(s[start..i], s[i], Digits(s[i + 1..]));
    assert s[start..i] + [s[i]] == s[start..i + 1];
  }

  method FindQuote(s: string, start: nat) returns (i: nat)
    requires start <= |s|
    ensures start <= i <= |s| && UntilQuote(s[start..]) == s[start..i] && (i < |s| ==> s[i] == '"')
  {
    i := start;
    while i < |s| && s[i] != '"'
      invariant start <= i <= |s|
      invariant UntilQuote(s[start..]) == s[start..i] + UntilQuote(s[i..])
    {
      QuoteStep(s, start, i);
      i := i + 1;
    }
  }

  method SkipDigits(s: string, start: nat) returns (i: nat)
    requires start <= |s|
    ensures start <= i <= |s| && Digits(s[start..]) == s[start..i]
  {
    i := start;
    while i < |s| && IsDigit(s[i])
      invariant start <= i <= |s|
      invariant Digits(s[start..]) == s[start..i] + Digits(s[i..])
    {
      DigitStep(s, start, i);
      i := i + 1;
    }
  }

  method ReadString(s: string, start: nat) returns (text: Option<string>, i: nat)
    requires start <= |s|
    ensures start <= i <= |s|
    ensures start == |s| || s[start] != '"' ==> text == None && i == start
    ensures start < |s| && s[start] == '"' ==>
              text == Some(UntilQuote(s[start + 1..])) && s[i..] == AfterString(s[start + 1..])
  {
    i := start;
    if i >= |s| || s[i] != '"' {
      return None, i;
    }
    i := i + 1;
    var from := i;
    i := FindQuote(s, i);
    text := Some(s[from..i]);
    if i < |s| {
      Suffix(s, from, i - from + 1);
      i := i + 1;
    }
  }

  method ReadNumber(s: string, start: nat) returns (n: Option<int>, i: nat)
    requires start <= |s|
    ensures start <= i <= |s| && (n, s[i..]) == ReadNum(s[start..])
  {
    i := start;
    if i < |s| && (s[i] == '-' || s[i] == '+') {
      Suffix(s, start, 1);
      i := i + 1;
    }
    var body := i;
    i := SkipDigits(s, i);
    Suffix(s, body, i - body);
    if i == body {
      return None, i;
    }
    n := Some(if s[start] == '-' then -Unsigned(s[body..i]) else Unsigned(s[body..i]));
  }

  method ReadArgument(s: string, start: nat) returns (arg: Option<Arg>, i: nat)
    requires start <= |s|
    ensures start <= i <= |s| && (arg, s[i..]) == ReadArg(SkipComma(s[start..]))
  {
    i := start;
    if i < |s| && s[i] == ',' {
      Suffix(s, i, 1);
      i := SkipWs(s, i + 1);
    }
    assert s[i..] == SkipComma(s[start..]);
    if i < |s| && s[i] == '"' {
      Suffix(s, i, 1);
      var text;
      text, i := ReadString(s, i);
      arg := Some(Str(text.value));
    } else {
      var n;
      n, i := ReadNumber(s, i);
      arg := match n case Some(v) => Some(Num(v)) case None => None;
    }
  }

  method ParseArgs(s: string, start: nat) returns (args: seq<Arg>, i: nat)
    requires start <= |s|
    ensures start <= i <= |s| && (args, s[i..]) == ReadArgs(s[start..])
  {
    args, i := [], start;
    ghost var all := ReadArgs(s[start..]);
    assert [] + all.0 == all.0;
    while true
      invariant start <= i <= |s|
      invariant all == (args + ReadArgs(s[i..]).0, ReadArgs(s[i..]).1)
      decreases |s| - i
    {
      ghost var t := s[i..];
      ArgsStep(t);
      i := SkipWs(s, i);
      if i >= |s| || s[i] == ']' {
        assert args + [] == args;
        return;
      }
      var arg;
      arg, i := ReadArgument(s, i);
      if arg.None? {
        assert args + [] == args;
        return;
      }
      Regroup(args, arg.value, ReadArgs(s[i..]).0);
      args := args + [arg.value];
    }
  }

  lemma {:induction false} ArgsStep(t: string)
    ensures var u := SkipSpace(t);
            var (arg, rest) := ReadArg(SkipComma(u));
            ReadArgs(t) == if u == "" || u[0] == ']' then ([], u)
                           else if arg.None? then ([], rest)
                           else ([arg.value] + ReadArgs(rest).0, ReadArgs(rest).1)
  {
  }

  lemma {:induction false} OpsStep(t: string)
    ensures var u := SkipSpace(t);
            var v := if u == "" then "" else SkipSpace(u[1..]);
            ReadOps(t) == if u == "" || u[0] == ']' then []
                          else if u[0] == ',' then ReadOps(u[1..])
                          else if u[0] != '[' || v == "" || v[0] != '"' then []
                          else
                            var (args, rest) := ReadArgs(AfterString(v[1..]));
                            [Op(UntilQuote(v[1..]), args)] + ReadOps(CloseOp(rest))
  {
  }

  method ParseOp(s: string, start: nat) returns (op: Option<Op>, i: nat)
    requires start <= |s|
    ensures start <= i <= |s|
    ensures var v := SkipSpace(s[start..]);
            if v == "" || v[0] != '"' then op == None
            else op == Some(Op(UntilQuote(v[1..]), ReadArgs(AfterString(v[1..])).0))
                 && s[i..] == CloseOp(ReadArgs(AfterString(v[1..])).1)
  {
    i := SkipWs(s, start);
    if i < |s| {
      Suffix(s, i, 1);
    }
    var name;
    name, i := ReadString(s, i);
    if name.None? {
      return None, i;
    }
    var args;
    args, i := ParseArgs(s, i);
    i := SkipWs(s, i);
    if i < |s| && s[i] == ']' {
      Suffix(s, i, 1);
      i := i + 1;
    }
    op := Some(Op(name.value, args));
  }

  /** One turn of the outer loop: stop, skip a comma, or read an operation. */
  method NextOp(s: string, start: nat) returns (more: bool, op: Option<Op>, i: nat)
    requires start <= |s|
    ensures start <= i <= |s| && (more ==> start < i)
    ensures ReadOps(s[start..])
            == if !more then [] else if op.None? then ReadOps(s[i..]) else [op.value] + ReadOps(s[i..])
  {
    OpsStep(s[start..]);
    i := SkipWs(s, start);
    if i >= |s| || s[i] == ']' {
      return false, None, i;
    }
    Suffix(s, i, 1);
    if s[i] == ',' {
      return true, None, i + 1;
    }
    if s[i] != '[' {
      return false, None, i;
    }
    op, i := ParseOp(s, i + 1);
    more := op.Some?;
  }

  method ParseOpsFrom(s: string, start: nat) returns (ops: seq<Op>)
    requires start <= |s|
    ensures ops == ReadOps(s[start..])
  {
    ops := [];
    var i := start;
    ghost var all := ReadOps(s[start..]);
    assert all == [] + all;
    while true
      invariant i <= |s|
      invariant all == ops + ReadOps(s[i..])
      decreases |s| - i
    {
      var more, op;
      more, op, i := NextOp(s, i);
      if !more {
        assert ops + [] == ops;
        return;
      }
      if op.Some? {
        Regroup(ops, op.value, ReadOps(s[i..]));
        ops := ops + [op.value];
      }
    }
  }

  method ParseOps(s: string) returns (ops: seq<Op>)
    ensures ops == Parsed(s)
  {
    assert s[0..] == s;
    var i := SkipWs(s, 0);
    if i < |s| && s[i] == '[' {
      Suffix(s, i, 1);
      i := i + 1;
    }
    ops := ParseOpsFrom(s, i);
  }

  // ---------------------------------------------------------------- written batches

  predicate AllSpace(ws: string) {
    forall i :: 0 <= i < |ws| ==> IsSpace(ws[i])
  }

  predicate QuoteFree(t: string) {
    forall i :: 0 <= i < |t| ==> t[i] != '"'
  }

  function Decimal(n: nat): (digits: string)
    ensures digits != ""
  {
    (if n < 10 then "" else Decimal(n / 10)) + [(n % 10 + '0' as int) as char]
  }

  function WriteNum(n: int, rest: string): string {
    var digits := Decimal(if n < 0 then -n else n);
    if n < 0 then "-" + (digits + rest) else digits + rest
  }

  /** An argument, then `rest`. */
  function WriteArg(a: Arg, rest: string): string {
    match a
    case Str(text) => "\"" + (text + ("\"" + rest))
    case Num(n) => WriteNum(n, rest)
  }

  /** An argument and the whitespace on either side of the comma before it. */
  datatype ArgText = ArgText(before: string, after: string, arg: Arg)

  predicate LegalArg(a: ArgText) {
    AllSpace(a.before) && AllSpace(a.after) && (a.arg.Str? ==> QuoteFree(a.arg.text))
  }

  predicate LegalArgs(args: seq<ArgText>) {
    forall i :: 0 <= i < |args| ==> LegalArg(args[i])
  }

  function WriteArgs(args: seq<ArgText>, rest: string): string {
    if args == [] then rest
    else args[0].before + ("," + (args[0].after + WriteArg(args[0].arg, WriteArgs(args[1..], rest))))
  }

  /** An operation and the whitespace before it, after its bracket, before its closing bracket and after
      that. */
  datatype OpText = OpText(lead: string, inner: string, name: string, args: seq<ArgText>, post: string, trail: string)

  predicate LegalOp(o: OpText) {
    && AllSpace(o.lead) && AllSpace(o.inner) && AllSpace(o.post) && AllSpace(o.trail)
    && QuoteFree(o.name) && LegalArgs(o.args)
  }

  predicate LegalOps(ops: seq<OpText>) {
    forall i :: 0 <= i < |ops| ==> LegalOp(ops[i])
  }

  function WriteOp(o: OpText, rest: string): string {
    o.lead + ("[" + (o.inner + ("\"" + (o.name + ("\"" + WriteArgs(o.args, o.post + ("]" + (o.trail + rest))))))))
  }

  /** The operations with a comma between each and the next, then `rest`. */
  function WriteOps(ops: seq<OpText>, rest: string): string {
    if ops == [] then rest
    else WriteOp(ops[0], if |ops| == 1 then rest else "," + WriteOps(ops[1..], rest))
  }

  function ArgsOf(args: seq<ArgText>): seq<Arg> {
    if args == [] then [] else [args[0].arg] + ArgsOf(args[1..])
  }

  function OpsOf(ops: seq<OpText>): seq<Op> {
    if ops == [] then [] else [Op(ops[0].name, ArgsOf(ops[0].args))] + OpsOf(ops[1..])
  }

  // ---------------------------------------------------------------- reading what was written

  predicate NoDigitFirst(t: string) {
    t == "" || !IsDigit(t[0])
  }

  lemma {:induction false} SkipSpaceOver(ws: string, t: string)
    requires AllSpace(ws)
    ensures SkipSpace(ws + t) == SkipSpace(t)
  {
    if ws == "" {
      assert ws + t == t;
    } else {
      SkipSpaceOver(ws[1..], t);
      assert (ws + t)[1..] == ws[1..] + t;
    }
  }

  lemma {:induction false} UntilQuoteOver(text: string, t: string)
    requires QuoteFree(text)
    ensures UntilQuote(text + ("\"" + t)) == text && AfterString(text + ("\"" + t)) == t
  {
    if text != "" {
      UntilQuoteOver(text[1..], t);
      assert (text + ("\"" + t))[1..] == text[1..] + ("\"" + t);
    }
    assert (text + ("\"" + t))[|text| + 1..] == t;
  }

  lemma {:induction false} DigitsOver(digits: string, t: string)
    requires (forall i :: 0 <= i < |digits| ==> IsDigit(digits[i])) && NoDigitFirst(t)
    ensures Digits(digits + t) == digits
  {
    if digits == "" {
      assert digits + t == t;
    } else {
      DigitsOver(digits[1..], t);
      assert (digits + t)[1..] == digits[1..] + t;
    }
  }

  lemma {:induction false} DecimalReads(n: nat)
    ensures Unsigned(Decimal(n)) == n
    ensures forall i :: 0 <= i < |Decimal(n)| ==> IsDigit(Decimal(n)[i])
  {
    var d := (n % 10 + '0' as int) as char;
    if n < 10 {
      assert Decimal(n) == [d] && [d][..0] == "";
    } else {
      DecimalReads(n / 10);
      assert Decimal(n)[..|Decimal(n)| - 1] == Decimal(n / 10);
    }
  }

  lemma {:induction false} PlainReads(digits: string, t: string)
    requires Digits(digits + t) == digits && digits != "" && NoDigitFirst(t) && IsDigit(digits[0])
    ensures ReadNum(digits + t) == (Some(Unsigned(digits)), t)
    ensures IsDigit((digits + t)[0])
  {
    assert (digits + t)[|digits|..] == t;
  }

  lemma {:induction false} MinusReads(digits: string, t: string)
    requires Digits(digits + t) == digits && digits != "" && NoDigitFirst(t)
    ensures ReadNum("-" + (digits + t)) == (Some(-Unsigned(digits)), t)
  {
    var text := "-" + (digits + t);
    assert text[1..] == digits + t;
    assert (digits + t)[|digits|..] == t;
  }

  lemma {:induction false} SignedReads(n: int, digits: string, t: string)
    requires (forall i :: 0 <= i < |digits| ==> IsDigit(digits[i])) && digits != "" && NoDigitFirst(t)
    requires Unsigned(digits) == if n < 0 then -n else n
    ensures var text := if n < 0 then "-" + (digits + t) else digits + t;
            ReadNum(text) == (Some(n), t) && (text[0] == '-' || IsDigit(text[0]))
  {
    DigitsOver(digits, t);
    if n < 0 {
      MinusReads(digits, t);
    } else {
      PlainReads(digits, t);
    }
  }

  lemma {:induction false} NumReads(n: int, t: string)
    requires NoDigitFirst(t)
    ensures var text := WriteNum(n, t);
            ReadNum(text) == (Some(n), t) && (text[0] == '-' || IsDigit(text[0]))
  {
    var m: nat := if n < 0 then -n else n;
    DecimalReads(m);
    SignedReads(n, Decimal(m), t);
  }

  lemma {:induction false} ArgReads(a: Arg, t: string)
    requires (a.Str? ==> QuoteFree(a.text)) && NoDigitFirst(t)
    ensures ReadArg(WriteArg(a, t)) == (Some(a), t)
    ensures !IsSpace(WriteArg(a, t)[0])
  {
    match a {
      case Str(text) =>
        assert WriteArg(a, t)[1..] == text + ("\"" + t);
        UntilQuoteOver(text, t);
      case Num(n) =>
        NumReads(n, t);
    }
  }

  /** Nothing here can be an argument or lead to one. */
  predicate EndsArgs(t: string) {
    t == "" || !(IsSpace(t[0]) || IsDigit(t[0]) || t[0] == ',' || t[0] == '"' || HasSign(t))
  }

  lemma {:induction false} SpaceThen(ws: string, t: string)
    requires AllSpace(ws) && NoDigitFirst(t)
    ensures NoDigitFirst(ws + t)
  {
    if ws != "" {
      assert IsSpace(ws[0]) && (ws + t)[0] == ws[0];
    } else {
      assert ws + t == t;
    }
  }

  lemma {:induction false} ArgsStart(args: seq<ArgText>, post: string, end: string)
    requires LegalArgs(args) && AllSpace(post) && EndsArgs(end)
    ensures NoDigitFirst(WriteArgs(args, post + end))
  {
    if args == [] {
      SpaceThen(post, end);
    } else {
      SpaceThen(args[0].before, "," + (args[0].after + WriteArg(args[0].arg, WriteArgs(args[1..], post + end))));
    }
  }

  lemma {:induction false} NothingToRead(end: string)
    requires EndsArgs(end)
    ensures SkipSpace(end) == end && (end != "" ==> ReadArg(SkipComma(end)) == (None, end))
  {
    if end != "" {
      assert end[|Digits(end)|..] == end;
    }
  }

  lemma {:induction false} ArgTextReads(a: ArgText, later: string)
    requires LegalArg(a) && NoDigitFirst(later)
    ensures ReadArgs(a.before + ("," + (a.after + WriteArg(a.arg, later))))
            == ([a.arg] + ReadArgs(later).0, ReadArgs(later).1)
  {
    var first := WriteArg(a.arg, later);
    ArgsStep(a.before + ("," + (a.after + first)));
    ArgReads(a.arg, later);
    SkipSpaceOver(a.before, "," + (a.after + first));
    SkipSpaceOver(a.after, first);
    assert ("," + (a.after + first))[1..] == a.after + first;
  }

  /** Written arguments are read up to where they end. */
  lemma {:induction false} ArgsRead(args: seq<ArgText>, post: string, end: string)
    requires LegalArgs(args) && AllSpace(post) && EndsArgs(end)
    ensures ReadArgs(WriteArgs(args, post + end)) == (ArgsOf(args), end)
  {
    if args == [] {
      ArgsStep(post + end);
      SkipSpaceOver(post, end);
      NothingToRead(end);
    } else {
      ArgsStart(args[1..], post, end);
      ArgTextReads(args[0], WriteArgs(args[1..], post + end));
      ArgsRead(args[1..], post, end);
    }
  }

  /** An operation read at its bracket. */
  lemma {:induction false} BracketReads(inner: string, name: string, args: string)
    requires AllSpace(inner) && QuoteFree(name)
    ensures ReadOps("[" + (inner + ("\"" + (name + ("\"" + args)))))
         == [Op(name, ReadArgs(args).0)] + ReadOps(CloseOp(ReadArgs(args).1))
  {
    var named := "\"" + (name + ("\"" + args));
    var bracketed := "[" + (inner + named);
    OpsStep(bracketed);
    assert bracketed[1..] == inner + named;
    SkipSpaceOver(inner, named);
    assert named[1..] == name + ("\"" + args);
    UntilQuoteOver(name, args);
  }

  lemma {:induction false} OpReads(o: OpText, rest: string)
    requires LegalOp(o)
    ensures ReadOps(WriteOp(o, rest)) == [Op(o.name, ArgsOf(o.args))] + ReadOps(o.trail + rest)
  {
    var close := "]" + (o.trail + rest);
    var args := WriteArgs(o.args, o.post + close);
    BracketReads(o.inner, o.name, args);
    SpaceReads(o.lead, "[" + (o.inner + ("\"" + (o.name + ("\"" + args)))));
    ArgsRead(o.args, o.post, close);
    assert close[1..] == o.trail + rest;
  }

  lemma {:induction false} SpaceReads(ws: string, t: string)
    requires AllSpace(ws)
    ensures ReadOps(ws + t) == ReadOps(t)
  {
    OpsStep(ws + t);
    OpsStep(t);
    SkipSpaceOver(ws, t);
  }

  /** Written operations are read, and then what follows them. */
  lemma {:induction false} OpsRead(ops: seq<OpText>, rest: string)
    requires LegalOps(ops)
    ensures ReadOps(WriteOps(ops, rest)) == OpsOf(ops) + ReadOps(rest)
  {
    if ops == [] {
      assert [] + ReadOps(rest) == ReadOps(rest);
    } else {
      var later := if |ops| == 1 then rest else "," + WriteOps(ops[1..], rest);
      OpReads(ops[0], later);
      SpaceReads(ops[0].trail, later);
      OpsRead(ops[1..], rest);
      if |ops| > 1 {
        CommaReads(WriteOps(ops[1..], rest));
      }
      Regroup([], Op(ops[0].name, ArgsOf(ops[0].args)), OpsOf(ops[1..]) + ReadOps(rest));
    }
  }

  lemma {:induction false} CommaReads(t: string)
    ensures ReadOps("," + t) == ReadOps(t)
  {
    OpsStep("," + t);
    assert ("," + t)[1..] == t;
  }

  /** Inside its outer bracket a batch is read from its first operation on. */
  lemma {:induction false} BatchOpens(lead: string, t: string)
    requires AllSpace(lead)
    ensures Parsed(lead + ("[" + t)) == ReadOps(t)
  {
    SkipSpaceOver(lead, "[" + t);
    assert ("[" + t)[1..] == t;
  }

  /** Parsing a written batch gives back its operations and arguments, for any whitespace between any
      two tokens and whatever follows the closing bracket. */
  lemma {:induction false} BatchRoundTrip(lead: string, ops: seq<OpText>, post: string, tail: string)
    requires AllSpace(lead) && LegalOps(ops) && AllSpace(post)
    ensures Parsed(lead + ("[" + WriteOps(ops, post + ("]" + tail)))) == OpsOf(ops)
  {
    BatchOpens(lead, WriteOps(ops, post + ("]" + tail)));
    OpsRead(ops, post + ("]" + tail));
    SpaceReads(post, "]" + tail);
    OpsStep("]" + tail);
    assert OpsOf(ops) + [] == OpsOf(ops);
  }

  /** An operation broken off by `end` where another argument or its bracket should be. */
  function WriteBroken(o: OpText, end: string): string {
    o.lead + ("[" + (o.inner + ("\"" + (o.name + ("\"" + WriteArgs(o.args, o.post + end))))))
  }

  /** Text the parser stops at. */
  predicate Unreadable(end: string) {
    EndsArgs(end) && (end == "" || (end[0] != ']' && end[0] != '['))
  }

  /** A malformed or cut-off batch gives everything before the place where it breaks: all whole
      operations and the last one with the arguments read so far. */
  lemma {:induction false} BrokenBatchKeepsWhatWasRead(lead: string, ops: seq<OpText>, o: OpText, end: string)
    requires AllSpace(lead) && LegalOps(ops) && LegalOp(o) && Unreadable(end)
    ensures Parsed(lead + ("[" + WriteOps(ops, "," + WriteBroken(o, end)))) == OpsOf(ops) + [Op(o.name, ArgsOf(o.args))]
  {
    BatchOpens(lead, WriteOps(ops, "," + WriteBroken(o, end)));
    OpsRead(ops, "," + WriteBroken(o, end));
    CommaReads(WriteBroken(o, end));
    var args := WriteArgs(o.args, o.post + end);
    SpaceReads(o.lead, "[" + (o.inner + ("\"" + (o.name + ("\"" + args)))));
    BracketReads(o.inner, o.name, args);
    ArgsRead(o.args, o.post, end);
    NothingToRead(end);
    OpsStep(end);
    assert [Op(o.name, ArgsOf(o.args))] + [] == [Op(o.name, ArgsOf(o.args))];
  }
}

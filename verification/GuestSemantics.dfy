/** Guest computations as the embedding API sees them, and two reference meanings for them.

    `Ideal` is the intended reading: structured exceptions with one handler per entry, and no
    bookkeeping at all.  `Run` adds the two resources recovery can exhaust or destroy: the recovery
    slots that nested entries claim, and the tier journal that a recovery empties.  The machine in
    `Embed` is proved against `Run`; the lemmas at the end say exactly when `Run` is `Ideal`. */
module GuestSemantics {

  const U32: int := 0x1_0000_0000

  datatype GuestError = Compile(msg: string) | RuntimeError(msg: string) | NativeFault(sig: int, pc: int, far: int)

  /** What an entry hands back to the code that made it. */
  datatype Answer = Value(v: int) | Blank | Unit | Word(w: int) | Err(e: GuestError)

  type Env = seq<Answer>

  /** A signal number; zero is the "no crash recorded" marker. */
  type Signal = s: int | s != 0 witness 11

  datatype ErrorPolicy = Resume | Die

  /** What a raise carries over the long jump. */
  datatype Thrown = GuestFatal(msg: string) | Crash(sig: Signal, pc: int, far: int)

  datatype Line = Shown(v: int) | Recovered(sig: int, pc: int, far: int)

  /** Things a body acquires and gives back only on its normal return path. */
  datatype Resource =
    | Frame(words: nat)        // an interpreter activation on the VM stack
    | Handles(count: nat)      // a HandleScope and the handles opened in it
    | Compiled(nm: nat)        // enter_compiled: tier link, depth, live mirror
    | Anchor(fp: nat, kind: nat) // a stub's published compiled frame
    | Pool(list: nat)          // a poolDo: mint list
    | NonLocalReturn(home: nat) // a parked non-local return
    | Redirected(fp: nat)      // a frame whose return address was redirected for deoptimisation

  datatype Guest =
    | Return(value: Env -> int)
    | Raise(message: Env -> string)
    | Fault(sig: Signal, pc: int, far: int)
    | Exhaust                                     // a VM-fatal condition: heap or stack exhaustion
    | Emit(line: Env -> int, rest: Guest)
    | Branch(test: Env -> bool, yes: Guest, no: Guest)
    | Scoped(resource: Resource, body: Guest, after: Guest)
    | Enter(entry: Entry, cont: Guest)

  datatype TopItem = Nothing | Rejected(msg: string) | Doit(code: Guest)

  datatype Entry = Eval(item: TopItem) | Exec(item: TopItem) | Callback(default: int, handler: Guest)

  datatype Stack = Bottom | On(top: nat, below: Stack)

  /** The fields `restore_after_guest_fatal` empties. */
  datatype Journal = Journal(
    links: Stack, depth: int, live: int, anchorFp: nat, anchorKind: nat,
    parked: bool, deopts: Stack, mints: Stack)

  const EMPTY := Journal(Bottom, 0, 0, 0, 0, false, Bottom, Bottom)

  /** A 32-bit counter's increment and decrement. */
  function Up(d: int): int {
    if d == U32 - 1 then 0 else d + 1
  }

  function Down(d: int): int {
    if d == 0 then U32 - 1 else d - 1
  }

  function Below(s: Stack): Stack {
    if s.Bottom? then Bottom else s.below
  }

  function Open(r: Resource, j: Journal): Journal {
    match r
    case Frame(_) => j
    case Handles(_) => j
    case Compiled(nm) =>
      var d := Up(j.depth);
      j.(links := On(nm, j.links), depth := d, live := d)
    case Anchor(fp, kind) => j.(anchorFp := fp, anchorKind := kind)
    case Pool(list) => j.(mints := On(list, j.mints))
    case NonLocalReturn(_) => j.(parked := true)
    case Redirected(fp) => j.(deopts := On(fp, j.deopts))
  }

  /** Giving a redirected frame back panics when its entry is gone; nothing else fails. */
  predicate CanClose(r: Resource, j: Journal) {
    r.Redirected? ==> j.deopts.On? && j.deopts.top == r.fp
  }

  function Close(r: Resource, j: Journal): Journal {
    match r
    case Frame(_) => j
    case Handles(_) => j
    case Compiled(_) =>
      var d := Down(j.depth);
      j.(links := Below(j.links), depth := d, live := d)
    case Anchor(_, _) => j.(anchorFp := 0, anchorKind := 0)
    case Pool(_) => j.(mints := Below(j.mints))
    case NonLocalReturn(_) => j.(parked := false)
    case Redirected(_) => j.(deopts := Below(j.deopts))
  }

  // ---------------------------------------------------------------- structured exceptions

  datatype Outcome = Finished(v: int) | Threw(t: Thrown) | Dead | Crashed

  datatype Result = Result(outcome: Outcome, log: seq<Line>, journal: Journal)

  datatype Reply = Answered(a: Answer) | Gone | Broken

  datatype EntryResult = EntryResult(reply: Reply, log: seq<Line>, journal: Journal)

  function ErrorOf(t: Thrown): GuestError {
    match t
    case GuestFatal(m) => RuntimeError(m)
    case Crash(s, pc, far) => NativeFault(s, pc, far)
  }

  /** The answer an entry gives for each way its body can end. */
  function Handle(e: Entry, policy: ErrorPolicy, o: Outcome): Reply {
    match o
    case Finished(v) => Answered(match e case Eval(_) => Value(v) case Exec(_) => Unit case Callback(_, _) => Word(v))
    case Threw(t) =>
      if e.Callback? then Answered(Word(e.default))
      else if policy == Die then Gone
      else Answered(Err(ErrorOf(t)))
    case Dead => Gone
    case Crashed => Broken
  }

  /** A recovered fault has no transcript line of its own, so a callback names it. */
  function HandlerLog(e: Entry, o: Outcome): seq<Line> {
    if e.Callback? && o.Threw? && o.t.Crash? then [Recovered(o.t.sig, o.t.pc, o.t.far)] else []
  }

  /** The entry's body, or the answer of an entry that runs no guest code. */
  predicate RunsGuest(e: Entry) {
    e.Callback? || e.item.Doit?
  }

  function BodyOf(e: Entry): (g: Guest)
    requires RunsGuest(e)
    ensures g < e
  {
    if e.Callback? then e.handler else e.item.code
  }

  function QuietAnswer(e: Entry): Answer
    requires !RunsGuest(e)
  {
    match e.item
    case Nothing => if e.Eval? then Blank else Unit
    case Rejected(m) => Err(Compile(m))
  }

  function Ideal(g: Guest, env: Env, policy: ErrorPolicy): (Outcome, seq<Line>)
    decreases g
  {
    match g
    case Return(f) => (Finished(f(env)), [])
    case Raise(f) => (Threw(GuestFatal(f(env))), [])
    case Fault(s, pc, far) => (Threw(Crash(s, pc, far)), [])
    case Exhaust => (Dead, [])
    case Emit(f, rest) => var (o, l) := Ideal(rest, env, policy); (o, [Shown(f(env))] + l)
    case Branch(c, y, n) => if c(env) then Ideal(y, env, policy) else Ideal(n, env, policy)
    case Scoped(_, body, after) =>
      var (o, l) := Ideal(body, env, policy);
      if o.Finished? then
        var (o', l') := Ideal(after, env + [Value(o.v)], policy); (o', l + l')
      else (o, l)
    case Enter(e, cont) =>
      var (r, l) := IdealEntry(e, env, policy);
      if r.Answered? then
        var (o', l') := Ideal(cont, env + [r.a], policy); (o', l + l')
      else (if r.Gone? then Dead else Crashed, l)
  }

  function IdealEntry(e: Entry, env: Env, policy: ErrorPolicy): (Reply, seq<Line>)
    decreases e
  {
    if !RunsGuest(e) then (Answered(QuietAnswer(e)), [])
    else
      var (o, l) := Ideal(BodyOf(e), env, policy);
      (Handle(e, policy, o), l + HandlerLog(e, o))
  }

  // ---------------------------------------------------------------- with slots and the journal

  /** `free` is the number of unclaimed recovery slots, `j` the journal at the start. */
  function Run(g: Guest, env: Env, policy: ErrorPolicy, free: nat, j: Journal): Result
    decreases g
  {
    match g
    case Return(f) => Result(Finished(f(env)), [], j)
    case Raise(f) => Result(Threw(GuestFatal(f(env))), [], j)
    case Fault(s, pc, far) => Result(Threw(Crash(s, pc, far)), [], j)
    case Exhaust => Result(Dead, [], j)
    case Emit(f, rest) =>
      var r := Run(rest, env, policy, free, j);
      r.(log := [Shown(f(env))] + r.log)
    case Branch(c, y, n) => if c(env) then Run(y, env, policy, free, j) else Run(n, env, policy, free, j)
    case Scoped(res, body, after) =>
      var r := Run(body, env, policy, free, Open(res, j));
      if !r.outcome.Finished? then r
      else if !CanClose(res, r.journal) then r.(outcome := Crashed)
      else
        var r' := Run(after, env + [Value(r.outcome.v)], policy, free, Close(res, r.journal));
        r'.(log := r.log + r'.log)
    case Enter(e, cont) =>
      var r := RunEntry(e, env, policy, free, j);
      if r.reply.Answered? then
        var r' := Run(cont, env + [r.reply.a], policy, free, r.journal);
        r'.(log := r.log + r'.log)
      else Result(if r.reply.Gone? then Dead else Crashed, r.log, r.journal)
  }

  function RunEntry(e: Entry, env: Env, policy: ErrorPolicy, free: nat, j: Journal): EntryResult
    decreases e
  {
    if free == 0 then EntryResult(Broken, [], j)
    else if !RunsGuest(e) then EntryResult(Answered(QuietAnswer(e)), [], j)
    else
      var r := Run(BodyOf(e), env, policy, free - 1, j);
      var reply := Handle(e, policy, r.outcome);
      EntryResult(reply, r.log + HandlerLog(e, r.outcome),
                  if r.outcome.Threw? && reply.Answered? then EMPTY else r.journal)
  }

  // ---------------------------------------------------------------- when the two agree

  /** What a run that comes back does to the journal: whether an entry in it caught a raise, how many
      compiled activations its last recovery stranded, and whether it closed an anchor or a parked
      return, which are cleared and not restored. */
  datatype Effect = Effect(recovered: bool, debt: nat, anchored: bool, returned: bool)

  const NO_EFFECT := Effect(false, 0, false, false)

  /** A scope closed around a run. */
  function Closed(res: Resource, e: Effect): Effect {
    Effect(e.recovered, e.debt + if res.Compiled? && e.recovered then 1 else 0,
           e.anchored || res.Anchor?, e.returned || res.NonLocalReturn?)
  }

  /** One run and then another. */
  function Together(a: Effect, b: Effect): Effect {
    Effect(a.recovered || b.recovered, if b.recovered then b.debt else a.debt,
           a.anchored || b.anchored, a.returned || b.returned)
  }

  function EffectOf(g: Guest, env: Env, policy: ErrorPolicy): Effect
    decreases g
  {
    match g
    case Return(_) => NO_EFFECT
    case Raise(_) => NO_EFFECT
    case Fault(_, _, _) => NO_EFFECT
    case Exhaust => NO_EFFECT
    case Emit(_, rest) => EffectOf(rest, env, policy)
    case Branch(c, y, n) => if c(env) then EffectOf(y, env, policy) else EffectOf(n, env, policy)
    case Scoped(r, body, after) =>
      var o := Ideal(body, env, policy).0;
      if o.Finished? then Together(Closed(r, EffectOf(body, env, policy)), EffectOf(after, env + [Value(o.v)], policy))
      else EffectOf(body, env, policy)
    case Enter(e, cont) =>
      var r := IdealEntry(e, env, policy).0;
      if r.Answered? then Together(EntryEffect(e, env, policy), EffectOf(cont, env + [r.a], policy))
      else EntryEffect(e, env, policy)
  }

  function EntryEffect(e: Entry, env: Env, policy: ErrorPolicy): Effect
    decreases e
  {
    if !RunsGuest(e) then NO_EFFECT
    else
      var o, body := Ideal(BodyOf(e), env, policy).0, EffectOf(BodyOf(e), env, policy);
      if o.Threw? && Handle(e, policy, o).Answered? then Effect(true, 0, body.anchored, body.returned) else body
  }

  /** No entry is made without a free slot, and no redirected frame is live while an entry below it
      recovers: the two things a caller has to rule out. */
  predicate Safe(g: Guest, env: Env, policy: ErrorPolicy, free: nat)
    decreases g
  {
    match g
    case Return(_) => true
    case Raise(_) => true
    case Fault(_, _, _) => true
    case Exhaust => true
    case Emit(_, rest) => Safe(rest, env, policy, free)
    case Branch(c, y, n) => if c(env) then Safe(y, env, policy, free) else Safe(n, env, policy, free)
    case Scoped(r, body, after) =>
      var o := Ideal(body, env, policy).0;
      && Safe(body, env, policy, free)
      && (o.Finished? ==>
            && (r.Redirected? ==> !EffectOf(body, env, policy).recovered)
            && Safe(after, env + [Value(o.v)], policy, free))
    case Enter(e, cont) =>
      var r := IdealEntry(e, env, policy).0;
      && SafeEntry(e, env, policy, free)
      && (r.Answered? ==> Safe(cont, env + [r.a], policy, free))
  }

  predicate SafeEntry(e: Entry, env: Env, policy: ErrorPolicy, free: nat)
    decreases e
  {
    free > 0 && (RunsGuest(e) ==> Safe(BodyOf(e), env, policy, free - 1))
  }

  // ---------------------------------------------------------------- the journal after a run

  predicate WellFormed(j: Journal) {
    0 <= j.depth < U32 && j.live == j.depth
  }

  /** The compiled depth after `debt` unmatched decrements from zero. */
  function Owed(debt: nat): (d: int)
    ensures 0 <= d < U32
  {
    if debt == 0 then 0 else Down(Owed(debt - 1))
  }

  /** It is minus the debt, modulo 2^32. */
  lemma {:induction false} OwedIsModulo(debt: nat)
    ensures Owed(debt) == if debt % U32 == 0 then 0 else U32 - debt % U32
  {
    if debt > 0 {
      OwedIsModulo(debt - 1);
    }
  }

  /** What a run that came back leaves of the journal `j`. When nothing was recovered, all of it, except
      that a closed anchor or parked return leaves none; otherwise nothing but the debt, owed modulo
      2^32. */
  predicate LeftOver(j: Journal, e: Effect, j': Journal) {
    && WellFormed(j')
    && (!e.recovered ==>
          && e.debt == 0
          && j' == j.(anchorFp := if e.anchored then 0 else j.anchorFp,
                      anchorKind := if e.anchored then 0 else j.anchorKind,
                      parked := j.parked && !e.returned))
    && (e.recovered ==> j' == Indebted(e.debt))
  }

  /** The empty journal with `debt` decrements too many. */
  function Indebted(debt: nat): Journal {
    EMPTY.(depth := Owed(debt), live := Owed(debt))
  }

  // the journal of resources taken one inside the other
  function Opened(rs: seq<Resource>, j: Journal): Journal {
    if rs == [] then j else Open(rs[|rs| - 1], Opened(rs[..|rs| - 1], j))
  }

  function StackOf(ns: seq<nat>): Stack {
    if ns == [] then Bottom else On(ns[|ns| - 1], StackOf(ns[..|ns| - 1]))
  }

  function Activations(rs: seq<Resource>): seq<nat> {
    if rs == [] then []
    else
      var last := rs[|rs| - 1];
      Activations(rs[..|rs| - 1]) + if last.Compiled? then [last.nm] else []
  }

  function Redirections(rs: seq<Resource>): seq<nat> {
    if rs == [] then []
    else
      var last := rs[|rs| - 1];
      Redirections(rs[..|rs| - 1]) + if last.Redirected? then [last.fp] else []
  }

  function Pools(rs: seq<Resource>): seq<nat> {
    if rs == [] then []
    else
      var last := rs[|rs| - 1];
      Pools(rs[..|rs| - 1]) + if last.Pool? then [last.list] else []
  }

  lemma {:induction false} StackPush(ns: seq<nat>, n: nat)
    ensures StackOf(ns + [n]) == On(n, StackOf(ns)) && StackOf(ns + []) == StackOf(ns)
  {
    assert (ns + [n])[..|ns|] == ns && ns + [] == ns;
  }

  lemma {:induction false} StacksAreScopes(rs: seq<Resource>)
    ensures var j := Opened(rs, EMPTY);
            && j.links == StackOf(Activations(rs))
            && j.deopts == StackOf(Redirections(rs))
            && j.mints == StackOf(Pools(rs))
  {
    if rs != [] {
      var before, last := rs[..|rs| - 1], rs[|rs| - 1];
      StacksAreScopes(before);
      StackPush(Activations(before), if last.Compiled? then last.nm else 0);
      StackPush(Redirections(before), if last.Redirected? then last.fp else 0);
      StackPush(Pools(before), if last.Pool? then last.list else 0);
    }
  }

  lemma {:induction false} DepthIsScopes(rs: seq<Resource>)
    ensures var j := Opened(rs, EMPTY); j.depth == j.live == |Activations(rs)| % U32
  {
    if rs != [] {
      DepthIsScopes(rs[..|rs| - 1]);
    }
  }

  /** With the resources `rs` taken one inside the other, the journal lists exactly the open activations,
      redirected frames and pools, innermost first, counts the activations modulo 2^32, holds the innermost
      anchor and says whether a return is parked. */
  lemma {:induction false} OpenScopesAreTheJournal(rs: seq<Resource>)
    ensures var j := Opened(rs, EMPTY);
            && j.links == StackOf(Activations(rs))
            && j.deopts == StackOf(Redirections(rs))
            && j.mints == StackOf(Pools(rs))
            && j.depth == j.live == |Activations(rs)| % U32
            && (j.parked <==> exists i :: 0 <= i < |rs| && rs[i].NonLocalReturn?)
            && (forall i :: 0 <= i < |rs| && rs[i].Anchor? && (forall k :: i < k < |rs| ==> !rs[k].Anchor?) ==>
                  j.anchorFp == rs[i].fp && j.anchorKind == rs[i].kind)
  {
    StacksAreScopes(rs);
    DepthIsScopes(rs);
    if rs != [] {
      var before := rs[..|rs| - 1];
      OpenScopesAreTheJournal(before);
      forall i | 0 <= i < |before| ensures before[i] == rs[i] {
      }
    }
  }

  /** Giving a resource back undoes taking it. After a recovery in between a redirected frame cannot be
      given back, and a compiled activation leaves one more decrement owed. */
  lemma {:induction false} CloseUndoesOpen(res: Resource, j: Journal, e: Effect, j': Journal)
    requires WellFormed(j) && LeftOver(Open(res, j), e, j')
    ensures CanClose(res, j') <==> !(res.Redirected? && e.recovered)
    ensures CanClose(res, j') ==> LeftOver(j, Closed(res, e), Close(res, j'))
  {
  }

  /** With slots to spare and no redirected frame in the way, the run is the structured one, and the
      journal comes back as its effects say; otherwise it crashes.  So it crashes exactly when unsafe. */
  lemma {:induction false} RunIsIdeal(g: Guest, env: Env, policy: ErrorPolicy, free: nat, j: Journal)
    requires WellFormed(j)
    ensures var r := Run(g, env, policy, free, j);
            var i := Ideal(g, env, policy);
            && (r.outcome.Crashed? <==> !Safe(g, env, policy, free))
            && (Safe(g, env, policy, free) ==> r.outcome == i.0 && r.log == i.1)
            && (r.outcome.Finished? ==>
                  LeftOver(j, EffectOf(g, env, policy), r.journal))
    decreases g
  {
    match g
    case Return(_) =>
    case Raise(_) =>
    case Fault(_, _, _) =>
    case Exhaust =>
    case Emit(_, rest) => RunIsIdeal(rest, env, policy, free, j);
    case Branch(c, y, n) =>
      if c(env) { RunIsIdeal(y, env, policy, free, j); } else { RunIsIdeal(n, env, policy, free, j); }
    case Scoped(res, body, after) =>
      RunIsIdeal(body, env, policy, free, Open(res, j));
      var r := Run(body, env, policy, free, Open(res, j));
      if r.outcome.Finished? {
        CloseUndoesOpen(res, j, EffectOf(body, env, policy), r.journal);
        if CanClose(res, r.journal) {
          var closed, later := Close(res, r.journal), env + [Value(r.outcome.v)];
          RunIsIdeal(after, later, policy, free, closed);
        }
      }
    case Enter(e, cont) =>
      EntryIsIdeal(e, env, policy, free, j);
      var r := RunEntry(e, env, policy, free, j);
      if r.reply.Answered? {
        RunIsIdeal(cont, env + [r.reply.a], policy, free, r.journal);
      }
  }

  /** The same for one entry: the value, error or default that the structured reading answers. */
  lemma {:induction false} EntryIsIdeal(e: Entry, env: Env, policy: ErrorPolicy, free: nat, j: Journal)
    requires WellFormed(j)
    ensures var r := RunEntry(e, env, policy, free, j);
            var i := IdealEntry(e, env, policy);
            && (r.reply.Broken? <==> !SafeEntry(e, env, policy, free))
            && (SafeEntry(e, env, policy, free) ==> r.reply == i.0 && r.log == i.1)
            && (r.reply.Answered? ==>
                  LeftOver(j, EntryEffect(e, env, policy), r.journal))
    decreases e
  {
    if free > 0 && RunsGuest(e) {
      RunIsIdeal(BodyOf(e), env, policy, free - 1, j);
    }
  }

  // ---------------------------------------------------------------- what each entry hands back

  /** `whole` is what `rest` does, after `log`. */
  ghost predicate GoesOn(whole: Result, log: seq<Line>, rest: Result) {
    whole == Result(rest.outcome, log + rest.log, rest.journal)
  }

  /** `eval` is transparent: the code that made it goes on with the very value the item finished with, or,
      under Resume, with the message or the three numbers of what it raised. */
  lemma {:induction false} EvalIsTransparent(g: Guest, cont: Guest, env: Env, policy: ErrorPolicy, free: nat,
                                             j: Journal)
    requires free > 0
    ensures var r, whole := Run(g, env, policy, free - 1, j), Run(Enter(Eval(Doit(g)), cont), env, policy, free, j);
            match r.outcome
            case Finished(v) => GoesOn(whole, r.log, Run(cont, env + [Value(v)], policy, free, r.journal))
            case Threw(GuestFatal(m)) =>
              if policy == Resume then
                GoesOn(whole, r.log, Run(cont, env + [Err(RuntimeError(m))], policy, free, EMPTY))
              else whole.outcome == Dead && whole.log == r.log
            case Threw(Crash(sig, pc, far)) =>
              if policy == Resume then
                GoesOn(whole, r.log, Run(cont, env + [Err(NativeFault(sig, pc, far))], policy, free, EMPTY))
              else whole.outcome == Dead && whole.log == r.log
            case Dead => whole == r
            case Crashed => whole == r
  {
    assert Run(g, env, policy, free - 1, j).log + [] == Run(g, env, policy, free - 1, j).log;
  }

  /** `exec` goes on with nothing, and otherwise as `eval` does. */
  lemma {:induction false} ExecIsTransparent(g: Guest, cont: Guest, env: Env, policy: ErrorPolicy, free: nat,
                                             j: Journal)
    requires free > 0
    ensures var r, whole := Run(g, env, policy, free - 1, j), Run(Enter(Exec(Doit(g)), cont), env, policy, free, j);
            if r.outcome.Finished? then GoesOn(whole, r.log, Run(cont, env + [Unit], policy, free, r.journal))
            else whole == Run(Enter(Eval(Doit(g)), cont), env, policy, free, j)
  {
  }

  /** A callback goes on with the word its handler finished with, or with its default whatever the policy;
      a fault, which has no transcript line of its own, leaves one. */
  lemma {:induction false} CallbackIsTransparent(default: int, g: Guest, cont: Guest, env: Env, policy: ErrorPolicy,
                                                 free: nat, j: Journal)
    requires free > 0
    ensures var r := Run(g, env, policy, free - 1, j);
            var whole := Run(Enter(Callback(default, g), cont), env, policy, free, j);
            match r.outcome
            case Finished(v) => GoesOn(whole, r.log, Run(cont, env + [Word(v)], policy, free, r.journal))
            case Threw(GuestFatal(_)) =>
              GoesOn(whole, r.log, Run(cont, env + [Word(default)], policy, free, EMPTY))
            case Threw(Crash(sig, pc, far)) =>
              GoesOn(whole, r.log + [Recovered(sig, pc, far)], Run(cont, env + [Word(default)], policy, free, EMPTY))
            case Dead => whole == r
            case Crashed => whole == r
  {
    assert Run(g, env, policy, free - 1, j).log + [] == Run(g, env, policy, free - 1, j).log;
  }

  // ---------------------------------------------------------------- consequences

  /** A top-level entry made with a clean journal leaves it clean exactly when the activations its own
      recoveries stranded cancel out: none, when no nested entry recovered under compiled code. */
  lemma {:induction false} CleanIffNothingStranded(e: Entry, env: Env, policy: ErrorPolicy, free: nat)
    requires RunEntry(e, env, policy, free, EMPTY).reply.Answered?
    ensures RunEntry(e, env, policy, free, EMPTY).journal == EMPTY <==> EntryEffect(e, env, policy).debt % U32 == 0
    ensures EntryEffect(e, env, policy).recovered && EntryEffect(e, env, policy).debt == 0 ==>
              RunEntry(e, env, policy, free, EMPTY).journal == EMPTY
  {
    EntryIsIdeal(e, env, policy, free, EMPTY);
    var d := EntryEffect(e, env, policy).debt;
    OwedIsModulo(d);
  }

  /** After an entry in which anything was recovered, its own raise or a nested one's, nothing of the
      outer journal is left: it survives exactly when it was what the recovery leaves, which is empty
      but for the decrements owed. */
  lemma {:induction false} OuterJournalAfterRecovery(e: Entry, env: Env, policy: ErrorPolicy, free: nat, j: Journal)
    requires WellFormed(j)
    ensures var r := RunEntry(e, env, policy, free, j);
            r.reply.Answered? && EntryEffect(e, env, policy).recovered ==>
              && r.journal == Indebted(EntryEffect(e, env, policy).debt)
              && (r.journal == j <==> j == Indebted(EntryEffect(e, env, policy).debt))
    ensures EntryEffect(e, env, policy).debt % U32 == 0 ==> Indebted(EntryEffect(e, env, policy).debt) == EMPTY
  {
    EntryIsIdeal(e, env, policy, free, j);
    OwedIsModulo(EntryEffect(e, env, policy).debt);
  }

  /** The smallest drift: compiled code calls out, the callback raises, the compiled code returns. */
  lemma {:induction false} RecoveryUnderCompiledCodeDrifts(nm: nat, policy: ErrorPolicy)
    ensures var boom := Callback(0, Raise(_ => "error"));
            var e := Exec(Doit(Scoped(Compiled(nm), Enter(boom, Return(_ => 0)), Return(_ => 0))));
            var r := RunEntry(e, [], policy, 2, EMPTY);
            r.reply == Answered(Unit) && r.journal == EMPTY.(depth := 0xFFFF_FFFF, live := 0xFFFF_FFFF)
  {
    var boom := Callback(0, Raise(_ => "error"));
    var inner, done := Enter(boom, Return(_ => 0)), Return(_ => 0);
    var code := Scoped(Compiled(nm), inner, done);
    var j := Open(Compiled(nm), EMPTY);
    var drifted := EMPTY.(depth := 0xFFFF_FFFF, live := 0xFFFF_FFFF);
    assert Run(boom.handler, [], policy, 0, j) == Result(Threw(GuestFatal("error")), [], j);
    assert RunEntry(boom, [], policy, 1, j) == EntryResult(Answered(Word(0)), [], EMPTY);
    assert Run(inner, [], policy, 1, j) == Result(Finished(0), [], EMPTY);
    assert Close(Compiled(nm), EMPTY) == drifted;
    assert Run(done, [Value(0)], policy, 1, drifted) == Result(Finished(0), [], drifted);
    assert Run(code, [], policy, 1, EMPTY) == Result(Finished(0), [], drifted);
  }

  /** `depth` callbacks nested in each other; each logs what the level below answered and answers a
      hundred times its own level, and the innermost runs `bottom`. */
  function Nest(level: nat, depth: nat, default: int, bottom: Guest): Entry
    requires 1 <= level <= depth
    decreases depth - level
  {
    if level == depth then Callback(default, bottom)
    else
      Callback(default, Enter(Nest(level + 1, depth, default, bottom),
        Emit(env => LastWord(env), Return(_ => 100 * level))))
  }

  function LastWord(env: Env): int {
    if env != [] && env[|env| - 1].Word? then env[|env| - 1].w else -1
  }

  /** What levels `level + 1 .. depth` answer, innermost first. */
  function Answers(level: nat, depth: nat, innermost: int): seq<Line>
    requires 1 <= level <= depth
    decreases depth - level
  {
    if level == depth then []
    else Answers(level + 1, depth, innermost) + [Shown(if level + 1 == depth then innermost else 100 * (level + 1))]
  }

  /** At any nesting depth a raise costs exactly the entry it was raised in: the innermost answers its
      default, and every level above logs what it got, runs on and answers its own value, even when
      the policy is to die. */
  lemma {:induction false} RaiseUnwindsExactlyOneLevel(level: nat, depth: nat, default: int, m: string, env: Env,
                                                       policy: ErrorPolicy, free: nat)
    requires 1 <= level <= depth && depth - level < free
    ensures var r := RunEntry(Nest(level, depth, default, Raise(_ => m)), env, policy, free, EMPTY);
            && r.reply == Answered(Word(if level == depth then default else 100 * level))
            && r.log == Answers(level, depth, default)
            && r.journal == EMPTY
    decreases depth - level
  {
    if level < depth {
      RaiseUnwindsExactlyOneLevel(level + 1, depth, default, m, env, policy, free - 1);
      var e := Nest(level + 1, depth, default, Raise(_ => m));
      var r := RunEntry(e, env, policy, free - 1, EMPTY);
      var rest := Emit(env => LastWord(env), Return(_ => 100 * level));
      var got := env + [r.reply.a];
      assert Run(rest, got, policy, free - 1, EMPTY)
             == Result(Finished(100 * level), [Shown(LastWord(got))] + [], EMPTY);
      assert [Shown(LastWord(got))] + [] == [Shown(LastWord(got))];
    }
  }
}

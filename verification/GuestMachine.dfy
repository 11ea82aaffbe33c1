/** Guest computations a third way: a machine that runs them step by step over a stack of handlers, as the
    recovery slots work, and throws away one frame at a time when something is raised.  `Ideal` is proved to
    say where the machine gets to. */
module GuestMachine {
  import opened GuestSemantics

  /** What waits for the computation in progress: the rest of a scope's body, or an entry with the code
      that made it. */
  datatype Frame =
    | Rest(after: Guest, env: Env)
    | Evaluating(cont: Guest, env: Env)
    | Executing(cont: Guest, env: Env)
    | CalledBack(default: int, cont: Guest, env: Env)

  datatype Frames = Empty | Push(top: Frame, below: Frames)

  datatype Control = Go(g: Guest, env: Env) | Give(v: int) | Unwind(t: Thrown) | Stop

  datatype Machine = Machine(control: Control, frames: Frames, log: seq<Line>)

  /** One step; a machine with nothing left to do stays where it is. */
  function Step(m: Machine, policy: ErrorPolicy): Machine {
    match m.control
    case Go(g, env) => Start(g, env, m.frames, m.log)
    case Give(v) => if m.frames.Empty? then m else Resumed(v, m.frames.top, m.frames.below, m.log)
    case Unwind(t) => if m.frames.Empty? then m else Caught(t, m.frames.top, m.frames.below, m.log, policy)
    case Stop => m
  }

  function Start(g: Guest, env: Env, k: Frames, log: seq<Line>): Machine {
    match g
    case Return(f) => Machine(Give(f(env)), k, log)
    case Raise(f) => Machine(Unwind(GuestFatal(f(env))), k, log)
    case Fault(sig, pc, far) => Machine(Unwind(Crash(sig, pc, far)), k, log)
    case Exhaust => Machine(Stop, k, log)
    case Emit(f, rest) => Machine(Go(rest, env), k, log + [Shown(f(env))])
    case Branch(c, y, n) => Machine(Go(if c(env) then y else n, env), k, log)
    case Scoped(_, body, after) => Machine(Go(body, env), Push(Rest(after, env), k), log)
    case Enter(Eval(Nothing), cont) => Machine(Go(cont, env + [Blank]), k, log)
    case Enter(Exec(Nothing), cont) => Machine(Go(cont, env + [Unit]), k, log)
    case Enter(Eval(Rejected(msg)), cont) => Machine(Go(cont, env + [Err(Compile(msg))]), k, log)
    case Enter(Exec(Rejected(msg)), cont) => Machine(Go(cont, env + [Err(Compile(msg))]), k, log)
    case Enter(Eval(Doit(code)), cont) => Machine(Go(code, env), Push(Evaluating(cont, env), k), log)
    case Enter(Exec(Doit(code)), cont) => Machine(Go(code, env), Push(Executing(cont, env), k), log)
    case Enter(Callback(default, handler), cont) =>
      Machine(Go(handler, env), Push(CalledBack(default, cont, env), k), log)
  }

  /** A value reaches the frame on top. */
  function Resumed(v: int, top: Frame, k: Frames, log: seq<Line>): Machine {
    match top
    case Rest(after, env) => Machine(Go(after, env + [Value(v)]), k, log)
    case Evaluating(cont, env) => Machine(Go(cont, env + [Value(v)]), k, log)
    case Executing(cont, env) => Machine(Go(cont, env + [Unit]), k, log)
    case CalledBack(_, cont, env) => Machine(Go(cont, env + [Word(v)]), k, log)
  }

  /** Something raised reaches the frame on top: the first entry on the way down catches it. */
  function Caught(t: Thrown, top: Frame, k: Frames, log: seq<Line>, policy: ErrorPolicy): Machine {
    match (top, t)
    case (Rest(_, _), _) => Machine(Unwind(t), k, log)
    case (CalledBack(default, cont, env), GuestFatal(_)) => Machine(Go(cont, env + [Word(default)]), k, log)
    case (CalledBack(default, cont, env), Crash(sig, pc, far)) =>
      Machine(Go(cont, env + [Word(default)]), k, log + [Recovered(sig, pc, far)])
    case (_, _) =>
      if policy == Die then Machine(Stop, k, log)
      else
        var error :=
          match t case GuestFatal(msg) => RuntimeError(msg) case Crash(sig, pc, far) => NativeFault(sig, pc, far);
        Machine(Go(top.cont, top.env + [Err(error)]), k, log)
  }

  function Steps(m: Machine, policy: ErrorPolicy, n: nat): Machine
    decreases n
  {
    if n == 0 then m else Steps(Step(m, policy), policy, n - 1)
  }

  lemma {:induction false} StepsAdd(m: Machine, policy: ErrorPolicy, a: nat, b: nat)
    ensures Steps(m, policy, a + b) == Steps(Steps(m, policy, a), policy, b)
    decreases a
  {
    if a > 0 {
      StepsAdd(Step(m, policy), policy, a - 1, b);
    }
  }

  /** The machine has run a computation that began over the frames `k` with this outcome. */
  ghost predicate Came(m: Machine, o: Outcome, k: Frames, log: seq<Line>) {
    && m.log == log
    && match o
       case Finished(v) => m.control == Give(v) && m.frames == k
       case Threw(t) => m.control == Unwind(t) && m.frames == k
       case Dead => m.control == Stop
       case Crashed => false
  }

  /** It has run an entry made from over `k`: either it goes on with the entry's answer, or it stopped. */
  ghost predicate CameBack(m: Machine, r: Reply, cont: Guest, env: Env, k: Frames, log: seq<Line>) {
    && m.log == log
    && match r
       case Answered(a) => m.control == Go(cont, env + [a]) && m.frames == k
       case Gone => m.control == Stop
       case Broken => false
  }

  /** From any computation, over any frames, the machine gets to what `Ideal` says and has logged it. */
  lemma {:induction false} MachineIsIdeal(g: Guest, env: Env, policy: ErrorPolicy, k: Frames, log: seq<Line>)
    returns (n: nat)
    ensures var (o, l) := Ideal(g, env, policy);
            Came(Steps(Machine(Go(g, env), k, log), policy, n), o, k, log + l)
    decreases g
  {
    var m := Machine(Go(g, env), k, log);
    match g {
      case Return(_) =>
        n := 1;
        assert Steps(m, policy, 1) == Steps(Step(m, policy), policy, 0);
        assert log + [] == log;
      case Raise(_) =>
        n := 1;
        assert Steps(m, policy, 1) == Steps(Step(m, policy), policy, 0);
        assert log + [] == log;
      case Fault(_, _, _) =>
        n := 1;
        assert Steps(m, policy, 1) == Steps(Step(m, policy), policy, 0);
        assert log + [] == log;
      case Exhaust =>
        n := 1;
        assert Steps(m, policy, 1) == Steps(Step(m, policy), policy, 0);
        assert log + [] == log;
      case Emit(f, rest) =>
        n := MachineIsIdeal(rest, env, policy, k, log + [Shown(f(env))]);
        n := n + 1;
        var l := Ideal(rest, env, policy).1;
        assert (log + [Shown(f(env))]) + l == log + ([Shown(f(env))] + l);
      case Branch(c, y, no) =>
        n := MachineIsIdeal(if c(env) then y else no, env, policy, k, log);
        n := n + 1;
      case Scoped(_, body, after) =>
        n := ScopeIsIdeal(g, env, policy, k, log);
      case Enter(e, cont) =>
        n := NestedIsIdeal(e, cont, env, policy, k, log);
    }
  }

  lemma {:induction false} ScopeIsIdeal(g: Guest, env: Env, policy: ErrorPolicy, k: Frames, log: seq<Line>)
    returns (n: nat)
    requires g.Scoped?
    ensures var (o, l) := Ideal(g, env, policy);
            Came(Steps(Machine(Go(g, env), k, log), policy, n), o, k, log + l)
    decreases g, 0
  {
    var (o, l) := Ideal(g.body, env, policy);
    var m := Machine(Go(g, env), k, log);
    var a := MachineIsIdeal(g.body, env, policy, Push(Rest(g.after, env), k), log);
    var there := Steps(m, policy, a + 1);
    if o.Finished? {
      var got := env + [Value(o.v)];
      var b := MachineIsIdeal(g.after, got, policy, k, log + l);
      n := a + 1 + (1 + b);
      StepsAdd(m, policy, a + 1, 1 + b);
      var l' := Ideal(g.after, got, policy).1;
      assert (log + l) + l' == log + (l + l');
    } else if o.Threw? {
      n := a + 1 + 1;
      StepsAdd(m, policy, a + 1, 1);
      assert Steps(there, policy, 1) == Steps(Step(there, policy), policy, 0);
    } else {
      n := a + 1;
    }
  }

  lemma {:induction false} NestedIsIdeal(e: Entry, cont: Guest, env: Env, policy: ErrorPolicy, k: Frames,
                                         log: seq<Line>)
    returns (n: nat)
    ensures var (o, l) := Ideal(Enter(e, cont), env, policy);
            Came(Steps(Machine(Go(Enter(e, cont), env), k, log), policy, n), o, k, log + l)
    decreases Enter(e, cont), 0
  {
    var m := Machine(Go(Enter(e, cont), env), k, log);
    var (r, l) := IdealEntry(e, env, policy);
    var a := EntryIsMachine(e, cont, env, policy, k, log);
    if r.Answered? {
      var b := MachineIsIdeal(cont, env + [r.a], policy, k, log + l);
      n := a + b;
      StepsAdd(m, policy, a, b);
      var l' := Ideal(cont, env + [r.a], policy).1;
      assert (log + l) + l' == log + (l + l');
    } else {
      n := a;
    }
  }

  /** An entry: the machine goes on with the answer `IdealEntry` names. */
  lemma {:induction false} EntryIsMachine(e: Entry, cont: Guest, env: Env, policy: ErrorPolicy, k: Frames,
                                          log: seq<Line>)
    returns (n: nat)
    ensures var (r, l) := IdealEntry(e, env, policy);
            CameBack(Steps(Machine(Go(Enter(e, cont), env), k, log), policy, n), r, cont, env, k, log + l)
    decreases e, 1
  {
    var m := Machine(Go(Enter(e, cont), env), k, log);
    assert log + [] == log;
    if !RunsGuest(e) {
      n := 1;
      assert Steps(m, policy, 1) == Steps(Step(m, policy), policy, 0);
    } else {
      var (o, l) := Ideal(BodyOf(e), env, policy);
      var frame := Step(m, policy).frames.top;
      var a := MachineIsIdeal(BodyOf(e), env, policy, Push(frame, k), log);
      var there := Steps(m, policy, a + 1);
      if o.Dead? {
        n := a + 1;
        assert l + HandlerLog(e, o) == l;
      } else {
        n := a + 1 + 1;
        StepsAdd(m, policy, a + 1, 1);
        assert Steps(there, policy, 1) == Steps(Step(there, policy), policy, 0);
        assert (log + l) + HandlerLog(e, o) == log + (l + HandlerLog(e, o));
        assert l + [] == l;
      }
    }
  }
}

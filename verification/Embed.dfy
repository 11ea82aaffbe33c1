/** `VmHandle`: the entry points, the recovery-slot registry they share with other threads, the idle
    baselines and the callback depth.  A long jump is a `Jump` naming the slot it lands in; nothing
    between the raise and the landing runs, so every field is rewound by hand. */
module Embed {
  import opened GuestSemantics
  import opened Options

  const JMP_REGISTRY_CAP: nat := 64

  datatype IdleBaseline = IdleBaseline(stackSp: nat, stackFp: nat, stackHasFrame: bool, arenaLen: nat)

  const PRISTINE := IdleBaseline(0, 0, false, 0)

  /** How control leaves a guest body: with a value, by a long jump to a slot, by `fatal_exit`, or by
      a Rust panic. */
  datatype Flow = Done(v: int) | Jump(slot: nat, guestFatal: bool) | Exited | Panicked

  datatype Call = Returned(a: Answer) | Terminated | Aborted

  /** The live entries: the shared registry, this thread's slot stack with its cached top, a baseline
      for each, and the callback depth. */
  datatype Entries = Entries(
    owner: seq<nat>,
    slots: seq<nat>,
    top: Option<nat>,
    baselines: seq<IdleBaseline>,
    depth: nat)

  /** Live entries own distinct slots, the cached top is the last of them, each has a baseline. */
  ghost predicate Sound(s: Entries, me: nat) {
    && me != 0
    && |s.owner| == JMP_REGISTRY_CAP
    && (forall i :: 0 <= i < |s.slots| ==> s.slots[i] < |s.owner| && s.owner[s.slots[i]] == me)
    && (forall i, j :: 0 <= i < j < |s.slots| ==> s.slots[i] != s.slots[j])
    && s.top == Top(s.slots)
    && |s.baselines| == |s.slots|
  }

  function Top(slots: seq<nat>): Option<nat> {
    if slots == [] then None else Some(slots[|slots| - 1])
  }

  /** Unclaimed slots of the registry. */
  ghost function FreeSlots(owner: seq<nat>): nat {
    |set i | 0 <= i < |owner| && owner[i] == 0|
  }

  ghost function Pushed(s: Entries, slot: nat, me: nat, b: IdleBaseline, depth: nat): Entries
    requires slot < |s.owner|
  {
    Entries(s.owner[slot := me], s.slots + [slot], Some(slot), s.baselines + [b], depth)
  }

  ghost function Popped(s: Entries): Entries
    requires s.slots != [] && s.slots[|s.slots| - 1] < |s.owner|
  {
    var n := |s.slots| - 1;
    Entries(s.owner[s.slots[n] := 0], s.slots[..n], Top(s.slots[..n]),
            if s.baselines == [] then [] else s.baselines[..|s.baselines| - 1], s.depth)
  }

  lemma {:induction false} PushKeepsSound(s: Entries, slot: nat, me: nat, b: IdleBaseline, depth: nat)
    requires Sound(s, me) && slot < |s.owner| && s.owner[slot] == 0
    ensures Sound(Pushed(s, slot, me, b, depth), me)
  {
  }

  lemma {:induction false} PushTakesOneSlot(owner: seq<nat>, slot: nat, me: nat)
    requires slot < |owner| && owner[slot] == 0 && me != 0
    ensures FreeSlots(owner) > 0 && FreeSlots(owner[slot := me]) == FreeSlots(owner) - 1
  {
    var claimed := owner[slot := me];
    var before := set i | 0 <= i < |owner| && owner[i] == 0;
    var after := set i | 0 <= i < |claimed| && claimed[i] == 0;
    assert before == after + {slot};
  }

  /** The pop that answers a push undoes it. */
  lemma {:induction false} PopUndoesPush(s: Entries, slot: nat, me: nat, b: IdleBaseline, depth: nat)
    requires Sound(s, me) && slot < |s.owner| && s.owner[slot] == 0
    ensures Popped(Pushed(s, slot, me, b, depth)) == s.(depth := depth)
  {
    var p := Pushed(s, slot, me, b, depth);
    assert p.owner[slot := 0] == s.owner;
    assert p.slots[..|s.slots|] == s.slots;
    assert p.baselines[..|s.baselines|] == s.baselines;
  }

  lemma {:induction false} NoneFree(owner: seq<nat>)
    requires forall i :: 0 <= i < |owner| ==> owner[i] != 0
    ensures FreeSlots(owner) == 0
  {
    assert (set i | 0 <= i < |owner| && owner[i] == 0) == {};
  }

  class VmHandle {
    /** This thread's id in the registry. */
    const me: nat
    var errorPolicy: ErrorPolicy

    // the process-wide registry of recovery slots, and the mailboxes addressed to them
    var owner: seq<nat>
    var fatalMsg: map<nat, string>
    var crashInfo: map<nat, (Signal, int, int)>
    // thread-locals
    var entrySlots: seq<nat>
    var topEntrySlot: Option<nat>
    var callbackDepth: nat

    var idleBaselines: seq<IdleBaseline>
    var stackSp: nat
    var stackFp: nat
    var stackHasFrame: bool
    var arenaLen: nat
    var journal: Journal
    var out: seq<Line>

    ghost function EntryState(): Entries
      reads this
    {
      Entries(owner, entrySlots, topEntrySlot, idleBaselines, callbackDepth)
    }

    /** The watermark a baseline records. */
    ghost function Watermark(): IdleBaseline
      reads this
    {
      IdleBaseline(stackSp, stackFp, stackHasFrame, arenaLen)
    }

    ghost predicate Valid()
      reads this
    {
      Sound(EntryState(), me)
    }

    /** The slot's mailbox holds what the landing arm will read. */
    ghost predicate Posted(slot: nat, t: Thrown)
      reads this
    {
      match t
      case GuestFatal(m) => slot in fatalMsg && fatalMsg[slot] == m
      case Crash(s, pc, far) => slot in crashInfo && crashInfo[slot] == (s, pc, far)
    }

    /** The flow of a body whose reference outcome is `o`: a raise jumps to the innermost live entry. */
    ghost predicate Lands(flow: Flow, o: Outcome)
      reads this
    {
      match o
      case Finished(v) => flow == Done(v)
      case Threw(t) =>
        && topEntrySlot.Some? && flow == Jump(topEntrySlot.value, t.GuestFatal?)
        && Posted(topEntrySlot.value, t)
      case Dead => flow == Exited
      case Crashed => flow == Panicked
    }

    constructor (thread: nat, registry: seq<nat>)
      requires thread != 0 && |registry| == JMP_REGISTRY_CAP
      ensures Valid() && EntryState() == Entries(registry, [], None, [], 0)
      ensures errorPolicy == Resume && Watermark() == PRISTINE && journal == EMPTY && out == []
    {
      me := thread;
      errorPolicy := Resume;
      owner := registry;
      fatalMsg, crashInfo := map[], map[];
      entrySlots, topEntrySlot, callbackDepth := [], None, 0;
      idleBaselines := [];
      stackSp, stackFp, stackHasFrame, arenaLen := 0, 0, false, 0;
      journal, out := EMPTY, [];
    }

    /** Claims the first free slot of the registry and makes it the recovery target; a full registry
        is a panic. */
    method PushEntryFrame() returns (slot: Option<nat>)
      requires Valid()
      modifies this`owner, this`entrySlots, this`topEntrySlot
      ensures slot.None? ==> EntryState() == old(EntryState()) && FreeSlots(owner) == 0
      ensures slot.Some? ==>
                && slot.value < |old(owner)| && old(owner)[slot.value] == 0
                && owner == old(owner)[slot.value := me]
                && entrySlots == old(entrySlots) + [slot.value]
                && topEntrySlot == slot
    {
      var i := 0;
      while i < JMP_REGISTRY_CAP && owner[i] != 0
        invariant 0 <= i <= JMP_REGISTRY_CAP
        invariant forall k :: 0 <= k < i ==> owner[k] != 0
      {
        i := i + 1;
      }
      if i == JMP_REGISTRY_CAP {
        NoneFree(owner);
        return None;
      }
      owner := owner[i := me];
      entrySlots := entrySlots + [i];
      topEntrySlot := Some(i);
      return Some(i);
    }

    /** A recovery slot, then the baseline to rewind to, then the callback count. */
    method BeginEntry(counted: bool) returns (slot: Option<nat>)
      requires Valid()
      modifies this`owner, this`entrySlots, this`topEntrySlot, this`idleBaselines, this`callbackDepth
      ensures slot.None? ==> FreeSlots(owner) == 0 && EntryState() == old(EntryState())
      ensures slot.Some? ==>
                && FreeSlots(old(owner)) > 0 && FreeSlots(owner) == FreeSlots(old(owner)) - 1
                && topEntrySlot == slot
                && InEntry(old(EntryState()), Watermark(), counted)
    {
      slot := PushEntryFrame();
      if slot.None? {
        return;
      }
      PushIdleBaseline();
      if counted {
        EnterCallback();
      }
      assert EntryState() == Pushed(old(EntryState()), slot.value, me, Watermark(), callbackDepth);
      PushTakesOneSlot(old(owner), slot.value, me);
      PushKeepsSound(old(EntryState()), slot.value, me, Watermark(), callbackDepth);
      PopUndoesPush(old(EntryState()), slot.value, me, Watermark(), callbackDepth);
    }

    /** Inside an entry begun in state `outer` at watermark `b`: one pop, and one decrement for a
        callback, lead back to `outer`. */
    ghost predicate InEntry(outer: Entries, b: IdleBaseline, counted: bool)
      reads this
    {
      && Valid() && entrySlots != []
      && idleBaselines[|idleBaselines| - 1] == b
      && callbackDepth == outer.depth + (if counted then 1 else 0)
      && Popped(EntryState()).(depth := outer.depth) == outer
    }

    method PopEntryFrame()
      requires |entrySlots| > 0 && entrySlots[|entrySlots| - 1] < |owner|
      modifies this`owner, this`entrySlots, this`topEntrySlot
      ensures owner == old(owner[entrySlots[|entrySlots| - 1] := 0])
      ensures entrySlots == old(entrySlots[..|entrySlots| - 1]) && topEntrySlot == Top(entrySlots)
    {
      var slot := entrySlots[|entrySlots| - 1];
      entrySlots := entrySlots[..|entrySlots| - 1];
      owner := owner[slot := 0];
      topEntrySlot := Top(entrySlots);
    }

    method PushIdleBaseline()
      modifies this`idleBaselines
      ensures idleBaselines == old(idleBaselines) + [Watermark()]
    {
      idleBaselines := idleBaselines + [IdleBaseline(stackSp, stackFp, stackHasFrame, arenaLen)];
    }

    /** Leaves an entry: both LIFO tops go back to the enclosing entry's. */
    method PopEntry()
      requires entrySlots != [] && entrySlots[|entrySlots| - 1] < |owner|
      modifies this`owner, this`entrySlots, this`topEntrySlot, this`idleBaselines
      ensures EntryState() == old(Popped(EntryState()))
    {
      if |idleBaselines| > 0 {
        idleBaselines := idleBaselines[..|idleBaselines| - 1];
      }
      PopEntryFrame();
    }

    /** Rewinds to the top baseline and empties the journal; with no baseline at all it rewinds to the
        boot watermark. */
    method RestoreAfterGuestFatal()
      modifies this`stackSp, this`stackFp, this`stackHasFrame, this`arenaLen, this`journal
      ensures var b := if idleBaselines == [] then PRISTINE else idleBaselines[|idleBaselines| - 1];
              Watermark() == b.(arenaLen := if b.arenaLen < old(arenaLen) then b.arenaLen else old(arenaLen))
      ensures journal == EMPTY
    {
      var b := if idleBaselines == [] then PRISTINE else idleBaselines[|idleBaselines| - 1];
      stackSp, stackFp, stackHasFrame := b.stackSp, b.stackFp, b.stackHasFrame;
      if b.arenaLen < arenaLen {
        arenaLen := b.arenaLen;
      }
      journal := journal.(mints := Bottom);
      journal := journal.(links := Bottom, depth := 0, live := 0);
      journal := journal.(anchorFp := 0, anchorKind := 0);
      journal := journal.(parked := false, deopts := Bottom);
    }

    method EnterCallback()
      modifies this`callbackDepth
      ensures callbackDepth == old(callbackDepth) + 1
    {
      callbackDepth := callbackDepth + 1;
    }

    method LeaveCallback()
      modifies this`callbackDepth
      ensures callbackDepth == if old(callbackDepth) == 0 then 0 else old(callbackDepth) - 1
    {
      callbackDepth := if callbackDepth == 0 then 0 else callbackDepth - 1;
    }

    /** Publishes the message in the top slot and jumps there. */
    method RaiseGuestFatal(message: string) returns (flow: Flow)
      requires topEntrySlot.Some?
      modifies this`fatalMsg
      ensures Lands(flow, Threw(GuestFatal(message)))
    {
      fatalMsg := fatalMsg[topEntrySlot.value := message];
      flow := Jump(topEntrySlot.value, true);
    }

    method FaultHandler(sig: Signal, pc: int, far: int) returns (flow: Flow)
      requires topEntrySlot.Some?
      modifies this`crashInfo
      ensures Lands(flow, Threw(Crash(sig, pc, far)))
    {
      crashInfo := crashInfo[topEntrySlot.value := (sig, pc, far)];
      flow := Jump(topEntrySlot.value, false);
    }

    /** Reads back and clears the message addressed to the top slot. */
    method TakeLastGuestFatalMessage() returns (message: string)
      requires topEntrySlot.Some? && topEntrySlot.value in fatalMsg
      modifies this`fatalMsg
      ensures message == old(fatalMsg[topEntrySlot.value])
      ensures fatalMsg == old(fatalMsg - {topEntrySlot.value})
    {
      message := fatalMsg[topEntrySlot.value];
      fatalMsg := fatalMsg - {topEntrySlot.value};
    }

    method TakeLastCrashInfo() returns (info: (Signal, int, int))
      requires topEntrySlot.Some? && topEntrySlot.value in crashInfo
      modifies this`crashInfo
      ensures info == old(crashInfo[topEntrySlot.value])
      ensures crashInfo == old(crashInfo - {topEntrySlot.value})
    {
      info := crashInfo[topEntrySlot.value];
      crashInfo := crashInfo - {topEntrySlot.value};
    }

    /** The decision at a recovery point: rewind and report, or terminate the thread. */
    method HandleFatal(error: GuestError) returns (err: Option<GuestError>)
      requires idleBaselines != [] && idleBaselines[|idleBaselines| - 1].arenaLen <= arenaLen
      modifies this`stackSp, this`stackFp, this`stackHasFrame, this`arenaLen, this`journal
      ensures err == if errorPolicy == Resume then Some(error) else None
      ensures err.Some? ==> Watermark() == idleBaselines[|idleBaselines| - 1] && journal == EMPTY
    {
      match errorPolicy {
        case Die => err := None;
        case Resume =>
          RestoreAfterGuestFatal();
          err := Some(error);
      }
    }

    /** There is an entry to leave. */
    ghost predicate Live()
      reads this
    {
      entrySlots != [] && entrySlots[|entrySlots| - 1] < |owner| && idleBaselines != [] && topEntrySlot.Some?
    }

    /** The two recovery arms of `eval` and `exec`, entered by a jump to the top slot. */
    method LandInEval(guestFatal: bool, ghost t: Thrown) returns (call: Call)
      requires Live() && idleBaselines[|idleBaselines| - 1].arenaLen <= arenaLen
      requires guestFatal == t.GuestFatal? && Posted(topEntrySlot.value, t)
      modifies this
      ensures errorPolicy == old(errorPolicy) && out == old(out)
      ensures errorPolicy == Die ==> call == Terminated
      ensures errorPolicy == Resume ==>
                && call == Returned(Err(ErrorOf(t)))
                && EntryState() == old(Popped(EntryState()))
                && Watermark() == old(idleBaselines[|idleBaselines| - 1])
                && journal == EMPTY
    {
      var err;
      if guestFatal {
        var message := TakeLastGuestFatalMessage();
        err := HandleFatal(RuntimeError(message));
      } else {
        var info := TakeLastCrashInfo();
        err := HandleFatal(NativeFault(info.0, info.1, info.2));
      }
      if err.None? {
        return Terminated;
      }
      PopEntry();
      call := Returned(Err(err.value));
    }

    /** The two recovery arms of `dispatch_callback`: they never ask the error policy. */
    method LandInCallback(default: int, guestFatal: bool, ghost t: Thrown) returns (call: Call)
      requires Live() && idleBaselines[|idleBaselines| - 1].arenaLen <= arenaLen
      requires guestFatal == t.GuestFatal? && Posted(topEntrySlot.value, t)
      requires callbackDepth > 0
      modifies this
      ensures errorPolicy == old(errorPolicy)
      ensures out == old(out) + HandlerLog(Callback(default, Exhaust), Threw(t))
      ensures call == Returned(Word(default))
      ensures EntryState() == old(Popped(EntryState())).(depth := old(callbackDepth) - 1)
      ensures Watermark() == old(idleBaselines[|idleBaselines| - 1]) && journal == EMPTY
    {
      if guestFatal {
        var _ := TakeLastGuestFatalMessage();
        RestoreAfterGuestFatal();
        LeaveCallback();
        PopEntry();
      } else {
        var info := TakeLastCrashInfo();
        RestoreAfterGuestFatal();
        LeaveCallback();
        PopEntry();
        out := out + [Recovered(info.0, info.1, info.2)];
      }
      call := Returned(Word(default));
    }

    /** What every entry point promises: the reference reply and log, and, when it comes back, every
        slot, baseline, depth, stack and arena field as it found them. */
    twostate predicate EntryPost(call: Call, r: EntryResult)
      reads this
    {
      && out == old(out) + r.log
      && match r.reply
         case Answered(a) =>
           && call == Returned(a) && errorPolicy == old(errorPolicy) && journal == r.journal
           && EntryState() == old(EntryState()) && Watermark() == old(Watermark())
         case Gone => call == Terminated
         case Broken => call == Aborted
    }

    /** What running a guest body promises.  A jump leaves the entries and their baselines alone; the
        stack and the journal are wherever the aborted body left them. */
    twostate predicate GuestPost(flow: Flow, r: Result)
      reads this
    {
      && out == old(out) + r.log
      && Lands(flow, r.outcome)
      && (r.outcome.Finished? ==> Watermark() == old(Watermark()) && journal == r.journal)
      && (r.outcome.Threw? ==> old(arenaLen) <= arenaLen)
      && (r.outcome.Finished? || r.outcome.Threw? ==>
            errorPolicy == old(errorPolicy) && EntryState() == old(EntryState()))
    }

    /** The normal way out of an entry. */
    method EndEntry(counted: bool, ghost outer: Entries, ghost b: IdleBaseline)
      requires InEntry(outer, b, counted)
      modifies this`owner, this`entrySlots, this`topEntrySlot, this`idleBaselines, this`callbackDepth
      ensures EntryState() == outer
    {
      if counted {
        LeaveCallback();
      }
      PopEntry();
    }

    /** Claims a slot, records the baseline, runs the body and, unless it jumped, pops both: the part
        the entry points share.  `counted` says whether the body counts as a callback. */
    method Guarded(code: Guest, env: Env, counted: bool) returns (flow: Flow, ghost r: Result)
      requires Valid()
      modifies this
      ensures FreeSlots(old(owner)) == 0 ==> flow == Panicked && out == old(out)
      ensures FreeSlots(old(owner)) > 0 ==>
                && r == old(Run(code, env, errorPolicy, FreeSlots(owner) - 1, journal))
                && out == old(out) + r.log
                && Lands(flow, r.outcome)
                && (r.outcome.Finished? ==> Watermark() == old(Watermark()) && journal == r.journal
                                            && EntryState() == old(EntryState()))
                && (r.outcome.Threw? ==>
                      old(arenaLen) <= arenaLen && InEntry(old(EntryState()), old(Watermark()), counted))
                && (r.outcome.Finished? || r.outcome.Threw? ==> errorPolicy == old(errorPolicy))
      decreases code, 2
    {
      r := Result(Crashed, [], journal);
      var slot := BeginEntry(counted);
      if slot.None? {
        return Panicked, r;
      }
      r := Run(code, env, errorPolicy, FreeSlots(owner), journal);
      flow := RunGuest(code, env);
      if flow.Jump? {
        assert flow.slot == slot.value;
      } else if flow.Done? {
        EndEntry(counted, old(EntryState()), old(Watermark()));
      }
    }

    method Eval(item: TopItem, env: Env) returns (call: Call)
      requires Valid()
      modifies this
      ensures EntryPost(call, old(RunEntry(Entry.Eval(item), env, errorPolicy, FreeSlots(owner), journal)))
      ensures FreeSlots(old(owner)) == 0 ==> call == Aborted
      ensures FreeSlots(old(owner)) > 0 ==>
                match item
                case Nothing => call == Returned(Blank)
                case Rejected(msg) => call == Returned(Err(Compile(msg)))
                case Doit(code) =>
                  match old(Run(code, env, errorPolicy, FreeSlots(owner) - 1, journal)).outcome
                  case Finished(v) => call == Returned(Value(v))
                  case Threw(GuestFatal(m)) =>
                    call == if old(errorPolicy) == Die then Terminated else Returned(Err(RuntimeError(m)))
                  case Threw(Crash(sig, pc, far)) =>
                    call == if old(errorPolicy) == Die then Terminated else Returned(Err(NativeFault(sig, pc, far)))
                  case Dead => call == Terminated
                  case Crashed => call == Aborted
      decreases item, 2
    {
      match item {
        case Doit(code) =>
          var flow, r := Guarded(code, env, false);
          match flow {
            case Done(v) => call := Returned(Value(v));
            case Exited => call := Terminated;
            case Panicked => call := Aborted;
            case Jump(_, guestFatal) => call := LandInEval(guestFatal, r.outcome.t);
          }
        case Nothing =>
          var ok := EnterAndLeave();
          call := if ok then Returned(Blank) else Aborted;
        case Rejected(msg) =>
          var ok := EnterAndLeave();
          call := if ok then Returned(Err(Compile(msg))) else Aborted;
      }
    }

    /** An entry whose item holds no guest code still claims and releases a slot. */
    method EnterAndLeave() returns (ok: bool)
      requires Valid()
      modifies this
      ensures ok <==> FreeSlots(old(owner)) > 0
      ensures EntryState() == old(EntryState()) && Watermark() == old(Watermark()) && errorPolicy == old(errorPolicy)
      ensures journal == old(journal) && out == old(out)
    {
      var slot := BeginEntry(false);
      if slot.Some? {
        PopEntry();
      }
      ok := slot.Some?;
    }

    /** Like `Eval`, but for effect: a finished item answers nothing. */
    method Exec(item: TopItem, env: Env) returns (call: Call)
      requires Valid()
      modifies this
      ensures EntryPost(call, old(RunEntry(Entry.Exec(item), env, errorPolicy, FreeSlots(owner), journal)))
      ensures FreeSlots(old(owner)) == 0 ==> call == Aborted
      ensures FreeSlots(old(owner)) > 0 ==>
                match item
                case Nothing => call == Returned(Unit)
                case Rejected(msg) => call == Returned(Err(Compile(msg)))
                case Doit(code) =>
                  match old(Run(code, env, errorPolicy, FreeSlots(owner) - 1, journal)).outcome
                  case Finished(v) => call == Returned(Unit)
                  case Threw(GuestFatal(m)) =>
                    call == if old(errorPolicy) == Die then Terminated else Returned(Err(RuntimeError(m)))
                  case Threw(Crash(sig, pc, far)) =>
                    call == if old(errorPolicy) == Die then Terminated else Returned(Err(NativeFault(sig, pc, far)))
                  case Dead => call == Terminated
                  case Crashed => call == Aborted
      decreases item, 2
    {
      match item {
        case Doit(code) =>
          var flow, r := Guarded(code, env, false);
          match flow {
            case Done(_) => call := Returned(Unit);
            case Exited => call := Terminated;
            case Panicked => call := Aborted;
            case Jump(_, guestFatal) => call := LandInEval(guestFatal, r.outcome.t);
          }
        case Nothing =>
          var ok := EnterAndLeave();
          call := if ok then Returned(Unit) else Aborted;
        case Rejected(msg) =>
          var ok := EnterAndLeave();
          call := if ok then Returned(Err(Compile(msg))) else Aborted;
      }
    }

    /** The callback door: always resumes, answers the shape default, and counts the callback across
        the body only, so every landing arm has to decrement by hand. */
    method DispatchCallback(default: int, handler: Guest, env: Env) returns (call: Call)
      requires Valid()
      modifies this
      ensures EntryPost(call, old(RunEntry(Callback(default, handler), env, errorPolicy, FreeSlots(owner), journal)))
      ensures FreeSlots(old(owner)) == 0 ==> call == Aborted
      ensures FreeSlots(old(owner)) > 0 ==>
                var r := old(Run(handler, env, errorPolicy, FreeSlots(owner) - 1, journal));
                match r.outcome
                case Finished(v) => call == Returned(Word(v)) && out == old(out) + r.log
                case Threw(GuestFatal(_)) => call == Returned(Word(default)) && out == old(out) + r.log
                case Threw(Crash(sig, pc, far)) =>
                  call == Returned(Word(default)) && out == old(out) + r.log + [Recovered(sig, pc, far)]
                case Dead => call == Terminated
                case Crashed => call == Aborted
      decreases handler, 3
    {
      var flow, r := Guarded(handler, env, true);
      match flow {
        case Done(v) => call := Returned(Word(v));
        case Exited => call := Terminated;
        case Panicked => call := Aborted;
        case Jump(_, guestFatal) => call := LandInCallback(default, guestFatal, r.outcome.t);
      }
    }

    method EnterEntry(e: Entry, env: Env) returns (call: Call)
      requires Valid()
      modifies this
      ensures EntryPost(call, old(RunEntry(e, env, errorPolicy, FreeSlots(owner), journal)))
      decreases e, 3
    {
      match e {
        case Eval(item) => call := Eval(item, env);
        case Exec(item) => call := Exec(item, env);
        case Callback(default, handler) => call := DispatchCallback(default, handler, env);
      }
    }

    /** Runs a guest body.  A jump out of it skips every close between the raise and the landing. */
    method RunGuest(g: Guest, env: Env) returns (flow: Flow)
      requires Valid() && entrySlots != []
      modifies this
      ensures GuestPost(flow, old(Run(g, env, errorPolicy, FreeSlots(owner), journal)))
      decreases g, 1
    {
      match g {
        case Return(f) => flow := Done(f(env));
        case Raise(f) => flow := RaiseGuestFatal(f(env));
        case Fault(sig, pc, far) => flow := FaultHandler(sig, pc, far);
        case Exhaust => flow := Exited;
        case Emit(f, rest) =>
          out := out + [Shown(f(env))];
          flow := RunGuest(rest, env);
        case Branch(c, y, n) =>
          if c(env) { flow := RunGuest(y, env); } else { flow := RunGuest(n, env); }
        case Scoped(r, body, after) =>
          var finished := RunScope(r, body, env);
          flow := finished;
          if finished.Done? {
            flow := RunGuest(after, env + [Value(finished.v)]);
          }
        case Enter(e, cont) =>
          flow := RunNested(e, cont, env);
      }
    }

    method RunNested(e: Entry, cont: Guest, env: Env) returns (flow: Flow)
      requires Valid() && entrySlots != []
      modifies this
      ensures GuestPost(flow, old(Run(Enter(e, cont), env, errorPolicy, FreeSlots(owner), journal)))
      decreases Enter(e, cont), 0
    {
      var call := EnterEntry(e, env);
      match call {
        case Returned(a) => flow := RunGuest(cont, env + [a]);
        case Terminated => flow := Exited;
        case Aborted => flow := Panicked;
      }
    }

    method Acquire(r: Resource)
      modifies this`stackSp, this`stackFp, this`stackHasFrame, this`arenaLen, this`journal
      ensures journal == Open(r, old(journal))
      ensures match r
              case Frame(words) => Watermark() == IdleBaseline(old(stackSp) + words, old(stackSp), true, old(arenaLen))
              case Handles(count) => Watermark() == old(Watermark()).(arenaLen := old(arenaLen) + count)
              case _ => Watermark() == old(Watermark())
    {
      match r {
        case Frame(words) => stackFp, stackSp, stackHasFrame := stackSp, stackSp + words, true;
        case Handles(count) => arenaLen := arenaLen + count;
        case _ => journal := Open(r, journal);
      }
    }

    /** The normal return path; the saved values are native locals of the activation. */
    method GiveBack(r: Resource, savedFp: nat, savedHasFrame: bool, savedLen: nat)
      modifies this`stackSp, this`stackFp, this`stackHasFrame, this`arenaLen, this`journal
      ensures journal == Close(r, old(journal))
      ensures match r
              case Frame(_) => Watermark() == IdleBaseline(old(stackFp), savedFp, savedHasFrame, old(arenaLen))
              case Handles(_) =>
                Watermark()
                == old(Watermark()).(arenaLen := if savedLen < old(arenaLen) then savedLen else old(arenaLen))
              case _ => Watermark() == old(Watermark())
    {
      match r {
        case Frame(_) => stackSp, stackFp, stackHasFrame := stackFp, savedFp, savedHasFrame;
        case Handles(_) => arenaLen := if savedLen < arenaLen then savedLen else arenaLen;
        case _ => journal := Close(r, journal);
      }
    }

    method RunScope(r: Resource, body: Guest, env: Env) returns (flow: Flow)
      requires Valid() && entrySlots != []
      modifies this
      ensures GuestPost(flow, old(Scope(r, Run(body, env, errorPolicy, FreeSlots(owner), Open(r, journal)))))
      decreases body, 2
    {
      var savedFp, savedHasFrame, savedLen := stackFp, stackHasFrame, arenaLen;
      Acquire(r);
      flow := RunGuest(body, env);
      if flow.Done? {
        if CanClose(r, journal) {
          GiveBack(r, savedFp, savedHasFrame, savedLen);
        } else {
          flow := Panicked;
        }
      }
    }

    /** One top-level entry, in terms of structured exceptions. */
    method ServeOne(e: Entry) returns (call: Call)
      requires Valid() && WellFormed(journal)
      modifies this
      ensures call.Returned? <==> Survives(e, old(errorPolicy), FreeSlots(old(owner)))
      ensures call.Returned? ==>
                && IdealEntry(e, [], old(errorPolicy)).0 == Answered(call.a)
                && out == old(out) + IdealEntry(e, [], old(errorPolicy)).1
                && EntryState() == old(EntryState()) && Watermark() == old(Watermark())
                && errorPolicy == old(errorPolicy)
                && WellFormed(journal)
                && (old(journal) == EMPTY && EntryEffect(e, [], old(errorPolicy)).debt % U32 == 0 ==> journal == EMPTY)
    {
      TopLevel(e, errorPolicy, FreeSlots(owner), journal);
      call := EnterEntry(e, []);
    }

    /** A dispatch loop: top-level entries, one after another, for as long as the thread lives.  It
        answers and logs what structured exceptions would, and after every entry, failed or not, the
        watermark, the slots, the baselines and the callback depth are where they began. */
    method Serve(entries: seq<Entry>) returns (answers: seq<Answer>, alive: bool)
      requires Valid() && WellFormed(journal)
      modifies this
      ensures alive
              <==> forall k :: 0 <= k < |entries| ==> Survives(entries[k], old(errorPolicy), FreeSlots(old(owner)))
      ensures alive ==>
                && |answers| == |entries|
                && forall k :: 0 <= k < |entries| ==>
                     IdealEntry(entries[k], [], old(errorPolicy)).0 == Answered(answers[k])
      ensures alive ==> out == old(out) + IdealLog(entries, |entries|, old(errorPolicy))
      ensures alive ==> EntryState() == old(EntryState()) && Watermark() == old(Watermark()) && WellFormed(journal)
      ensures alive && old(journal) == EMPTY
              && (forall k :: 0 <= k < |entries| ==> EntryEffect(entries[k], [], old(errorPolicy)).debt % U32 == 0) ==>
                journal == EMPTY
    {
      answers, alive := [], true;
      var i := 0;
      ghost var policy, free := errorPolicy, FreeSlots(owner);
      ghost var settled := old(journal) == EMPTY;
      while i < |entries|
        invariant 0 <= i <= |entries| && |answers| == i && alive
        invariant Served(entries, answers, policy, free)
        invariant out == old(out) + IdealLog(entries, i, policy)
        invariant EntryState() == old(EntryState()) && Watermark() == old(Watermark()) && errorPolicy == policy
        invariant WellFormed(journal)
        invariant settled <==> old(journal) == EMPTY && NoDebts(entries, i, policy)
        invariant settled ==> journal == EMPTY
      {
        var call := ServeOne(entries[i]);
        if !call.Returned? {
          return answers, false;
        }
        ServedOneMore(entries, answers, call.a, policy, free);
        settled := settled && EntryEffect(entries[i], [], policy).debt % U32 == 0;
        answers := answers + [call.a];
        i := i + 1;
      }
    }
  }

  /** The first entries survive, with these answers. */
  ghost predicate Served(entries: seq<Entry>, answers: seq<Answer>, policy: ErrorPolicy, free: nat) {
    && |answers| <= |entries|
    && forall k :: 0 <= k < |answers| ==>
         Survives(entries[k], policy, free) && IdealEntry(entries[k], [], policy).0 == Answered(answers[k])
  }

  lemma {:induction false} ServedOneMore(entries: seq<Entry>, answers: seq<Answer>, a: Answer, policy: ErrorPolicy,
                                         free: nat)
    requires Served(entries, answers, policy, free) && |answers| < |entries|
    requires var e := entries[|answers|]; Survives(e, policy, free) && IdealEntry(e, [], policy).0 == Answered(a)
    ensures Served(entries, answers + [a], policy, free)
  {
  }

  /** None of the first `n` entries strands activations that do not cancel. */
  ghost predicate NoDebts(entries: seq<Entry>, n: nat, policy: ErrorPolicy)
    requires n <= |entries|
  {
    forall k :: 0 <= k < n ==> EntryEffect(entries[k], [], policy).debt % U32 == 0
  }

  /** What an entry made by the dispatch loop does, in terms of structured exceptions. */
  lemma {:induction false} TopLevel(e: Entry, policy: ErrorPolicy, free: nat, j: Journal)
    requires WellFormed(j)
    ensures var r := RunEntry(e, [], policy, free, j);
            && (r.reply.Answered? <==> Survives(e, policy, free))
            && (r.reply.Answered? ==>
                  && (r.reply, r.log) == IdealEntry(e, [], policy) && WellFormed(r.journal)
                  && (j == EMPTY && EntryEffect(e, [], policy).debt % U32 == 0 ==> r.journal == EMPTY))
  {
    EntryIsIdeal(e, [], policy, free, j);
    if j == EMPTY && RunEntry(e, [], policy, free, j).reply.Answered? {
      CleanIffNothingStranded(e, [], policy, free);
    }
  }

  /** The entry is safe and leaves the thread alive. */
  ghost predicate Survives(e: Entry, policy: ErrorPolicy, free: nat) {
    SafeEntry(e, [], policy, free) && IdealEntry(e, [], policy).0.Answered?
  }

  /** What the first `n` entries log under structured exceptions. */
  ghost function IdealLog(entries: seq<Entry>, n: nat, policy: ErrorPolicy): seq<Line>
    requires n <= |entries|
  {
    if n == 0 then [] else IdealLog(entries, n - 1, policy) + IdealEntry(entries[n - 1], [], policy).1
  }

  /** A scope around a body with result `b`: the giving back is the normal return path only. */
  function Scope(r: Resource, b: Result): Result {
    if !b.outcome.Finished? then b
    else if !CanClose(r, b.journal) then b.(outcome := Crashed)
    else b.(journal := Close(r, b.journal))
  }
}

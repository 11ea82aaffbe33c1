/** The watchdog: it boots one primary generation after another, hands each one's link to the main
    thread, and blocks until an event tells it to boot the next. */
module Supervisor {

  const MAX_CONSECUTIVE_BOOT_FAILURES := 5

  /** How starting one generation ends. `Vanished`: its thread went away without a word. */
  datatype Boot = CouldNotSpawn | Registered | BootFailed | Vanished

  /** Events carry no generation; `who` and `timely` are the model's note of who posted a death, and of
      whether the watchdog was then concerned with that generation, with nothing queued. */
  datatype Event = Restart | Died(who: nat, timely: bool)

  datatype End = Returned | Exited(code: int)

  /** Waiting for a registration, with a received link in hand, or waiting for an event. */
  datatype Phase = Booting | Handing | Blocked | Ended(how: End)

  datatype State = State(
    generation: nat,
    failures: nat,
    phase: Phase,
    events: seq<Event>,
    /** Generations that sent their registration; the watchdog may not have received it yet. */
    announced: set<nat>,
    /** Events taken off the channel so far. */
    consumed: nat,
    /** Registrations received, in order, and the links sent to main, in order. */
    registered: seq<nat>,
    delivered: seq<nat>,
    /** Generations whose stop flag is set, and those that died. */
    stopped: set<nat>,
    dead: set<nat>)

  const START := State(1, 0, Booting, [], {}, 0, [], [], {}, {})

  // ---------------------------------------------------------------- the watchdog's own moves

  function Failed(s: State): State {
    if s.generation == 1 then s.(phase := Ended(Returned))
    else
      var t := s.(failures := s.failures + 1, stopped := s.stopped + {s.generation});
      if t.failures >= MAX_CONSECUTIVE_BOOT_FAILURES then t.(phase := Ended(Exited(73)))
      else t.(generation := t.generation + 1)
  }

  function Booted(s: State, boot: Boot): State {
    match boot
    case CouldNotSpawn => s.(phase := Ended(Returned))
    case Registered => s.(failures := 0, registered := s.registered + [s.generation], phase := Handing)
    case BootFailed => Failed(s)
    case Vanished => Failed(s)
  }

  /** The link goes to main, and the watchdog returns if main is gone. */
  function Handed(s: State, mainGone: bool): State {
    if mainGone then s.(phase := Ended(Returned))
    else s.(delivered := s.delivered + [s.generation], phase := Blocked)
  }

  /** Any event, whoever it is about, retires the current generation. */
  function Replaced(s: State): State
    requires s.events != []
  {
    s.(events := s.events[1..], consumed := s.consumed + 1, stopped := s.stopped + {s.generation},
       generation := s.generation + 1, phase := Booting)
  }

  /** What the watchdog does next: a boot ends, the link is sent, an event is received. */
  datatype Input = BootEnds(boot: Boot) | SendLink(mainGone: bool) | Receive

  function Fed(s: State, input: Input): State {
    match input
    case BootEnds(boot) => if s.phase.Booting? then Booted(s, boot) else s
    case SendLink(mainGone) => if s.phase.Handing? then Handed(s, mainGone) else s
    case Receive => if s.phase.Blocked? && s.events != [] then Replaced(s) else s
  }

  function FedAll(s: State, inputs: seq<Input>): State {
    if inputs == [] then s else Fed(FedAll(s, inputs[..|inputs| - 1]), inputs[|inputs| - 1])
  }

  // ---------------------------------------------------------------- all threads

  /** A move of the watchdog, a registration sent, a restart request, or the death of a generation that
      has announced itself. */
  datatype Step = Watch(input: Input) | Announce | RequestRestart | Die(generation: nat)

  /** Nothing is queued ahead of the death, and it is the generation the watchdog is receiving, handing
      over or supervising. */
  predicate Timely(s: State, generation: nat) {
    s.events == [] && generation == s.generation
  }

  predicate CanDie(s: State, generation: nat) {
    generation in s.announced && generation !in s.dead
  }

  /** A boot ends as its generation's message says: registered once it has announced itself, and
      otherwise only if it has not. */
  predicate CanHappen(s: State, input: Input) {
    input.BootEnds? && s.phase.Booting? ==> (input.boot.Registered? <==> s.generation in s.announced)
  }

  function Posted(s: State, generation: nat): State {
    s.(events := s.events + [Died(generation, Timely(s, generation))], dead := s.dead + {generation})
  }

  function After(s: State, step: Step): State {
    match step
    case Watch(input) => if CanHappen(s, input) then Fed(s, input) else s
    case Announce => if s.phase.Booting? then s.(announced := s.announced + {s.generation}) else s
    case RequestRestart => s.(events := s.events + [Restart])
    case Die(g) => if CanDie(s, g) then Posted(s, g) else s
  }

  function AfterAll(s: State, steps: seq<Step>): State {
    if steps == [] then s else After(AfterAll(s, steps[..|steps| - 1]), steps[|steps| - 1])
  }

  // ---------------------------------------------------------------- the thread

  class Watchdog {
    var generation: nat
    var consecutiveBootFailures: nat
    var phase: Phase
    var events: seq<Event>
    var delivered: seq<nat>
    var stopped: set<nat>
    ghost var announced: set<nat>
    ghost var consumed: nat
    ghost var registered: seq<nat>
    ghost var dead: set<nat>

    ghost function View(): State
      reads this
    {
      State(generation, consecutiveBootFailures, phase, events, announced, consumed, registered, delivered, stopped,
            dead)
    }

    constructor ()
      ensures View() == START
    {
      generation, consecutiveBootFailures, phase, events, announced, consumed := 1, 0, Booting, [], {}, 0;
      registered, delivered, stopped, dead := [], [], {}, {};
    }

    /** Boot failure and silent death end alike. */
    method BootFailure()
      requires phase.Booting?
      modifies this
      ensures View() == Failed(old(View()))
    {
      if generation == 1 {
        phase := Ended(Returned);
        return;
      }
      stopped := stopped + {generation};
      consecutiveBootFailures := consecutiveBootFailures + 1;
      if consecutiveBootFailures >= MAX_CONSECUTIVE_BOOT_FAILURES {
        phase := Ended(Exited(73));
        return;
      }
      generation := generation + 1;
    }

    method AwaitRegistration(boot: Boot)
      requires phase.Booting?
      modifies this
      ensures View() == Booted(old(View()), boot)
    {
      match boot {
        case CouldNotSpawn =>
          phase := Ended(Returned);
        case Registered =>
          consecutiveBootFailures := 0;
          registered := registered + [generation];
          phase := Handing;
        case BootFailed =>
          BootFailure();
        case Vanished =>
          BootFailure();
      }
    }

    method HandOver(mainGone: bool)
      requires phase.Handing?
      modifies this
      ensures View() == Handed(old(View()), mainGone)
    {
      if mainGone {
        phase := Ended(Returned);
        return;
      }
      delivered := delivered + [generation];
      phase := Blocked;
    }

    method Supervise()
      requires phase.Blocked? && events != []
      modifies this
      ensures View() == Replaced(old(View()))
    {
      events := events[1..];
      consumed := consumed + 1;
      stopped := stopped + {generation};
      generation := generation + 1;
      phase := Booting;
    }

    /** The thread body, for as long as `inputs` say what it meets. */
    method WatchdogMain(inputs: seq<Input>)
      modifies this
      ensures View() == FedAll(old(View()), inputs)
    {
      var i := 0;
      while i < |inputs|
        invariant 0 <= i <= |inputs| && View() == FedAll(old(View()), inputs[..i])
      {
        match inputs[i] {
          case BootEnds(boot) =>
            if phase.Booting? {
              AwaitRegistration(boot);
            }
          case SendLink(mainGone) =>
            if phase.Handing? {
              HandOver(mainGone);
            }
          case Receive =>
            if phase.Blocked? && events != [] {
              Supervise();
            }
        }
        assert inputs[..i + 1][..i] == inputs[..i];
        i := i + 1;
      }
      assert inputs[..|inputs|] == inputs;
    }
  }

  // ---------------------------------------------------------------- what every run keeps

  /** Generations come in increasing order, and at most four failed boots lie between two that
      registered, before the first, or after the last. */
  predicate Spaced(s: State) {
    && (s.registered != [] ==> s.registered[0] == 1)
    && (forall i :: 0 <= i < |s.registered| - 1 ==>
          s.registered[i] < s.registered[i + 1] <= s.registered[i] + MAX_CONSECUTIVE_BOOT_FAILURES)
    && (s.registered == [] ==> s.generation == 1 && s.failures == 0)
  }

  /** How far the current boot is from the last registered generation. */
  predicate Placed(s: State) {
    var n := |s.registered|;
    match s.phase
    case Booting =>
      s.failures < MAX_CONSECUTIVE_BOOT_FAILURES && (n > 0 ==> s.generation == s.registered[n - 1] + 1 + s.failures)
    case Handing => n > 0 && s.generation == s.registered[n - 1] && s.failures == 0
    case Blocked => n > 0 && s.generation == s.registered[n - 1] && s.failures == 0
    case Ended(how) => how.Exited? ==> n > 0 && s.failures == MAX_CONSECUTIVE_BOOT_FAILURES && how.code == 73
                                       && s.generation == s.registered[n - 1] + s.failures
  }

  /** One registration more than events taken while blocked, as many while booting; every link
      delivered. */
  predicate Counted(s: State) {
    match s.phase
    case Booting => |s.registered| == s.consumed && s.delivered == s.registered
    case Handing => |s.registered| == s.consumed + 1 && s.delivered + [s.generation] == s.registered
    case Blocked => |s.registered| == s.consumed + 1 && s.delivered == s.registered
    case Ended(_) => s.delivered <= s.registered && |s.registered| <= |s.delivered| + 1
  }

  lemma {:induction false} JoinKeepsSpacing(s: State)
    requires s.phase.Booting? && Spaced(s) && Placed(s)
    ensures Spaced(Booted(s, Registered))
  {
    var n, after := |s.registered|, Booted(s, Registered).registered;
    forall i | 0 <= i < n ensures after[i] < after[i + 1] <= after[i] + MAX_CONSECUTIVE_BOOT_FAILURES {
      if i == n - 1 {
        assert after[i + 1] == s.generation;
      }
    }
  }

  lemma {:induction false} StepKeepsSpacing(s: State, step: Step)
    requires Spaced(s) && Placed(s)
    ensures Spaced(After(s, step))
  {
    if step.Watch? && CanHappen(s, step.input) && step.input.BootEnds? && s.phase.Booting? {
      if step.input.boot.Registered? {
        JoinKeepsSpacing(s);
      } else {
        assert After(s, step).registered == s.registered;
      }
    } else {
      assert After(s, step).registered == s.registered;
    }
  }

  lemma {:induction false} StepKeepsPlace(s: State, step: Step)
    requires Spaced(s) && Placed(s)
    ensures Placed(After(s, step))
  {
  }

  lemma {:induction false} StepKeepsCount(s: State, step: Step)
    requires Counted(s)
    ensures Counted(After(s, step))
  {
  }

  lemma {:induction false} RunKeepsCounts(steps: seq<Step>)
    ensures var s := AfterAll(START, steps); Spaced(s) && Placed(s) && Counted(s)
  {
    if steps != [] {
      RunKeepsCounts(steps[..|steps| - 1]);
      var s := AfterAll(START, steps[..|steps| - 1]);
      StepKeepsSpacing(s, steps[|steps| - 1]);
      StepKeepsPlace(s, steps[|steps| - 1]);
      StepKeepsCount(s, steps[|steps| - 1]);
    }
  }

  /** The stop flags that are set are those of the generations before the current one. */
  ghost predicate PastIsStopped(s: State) {
    s.phase.Ended? || (s.generation > 0 && forall g: nat :: g in s.stopped <==> 1 <= g < s.generation)
  }

  /** In every run that goes on, each earlier generation has its stop flag set, whether it was replaced or
      failed to boot, and the current one has not. */
  lemma {:induction false} ExactlyThePastIsStopped(steps: seq<Step>)
    ensures PastIsStopped(AfterAll(START, steps))
  {
    if steps != [] {
      var s := AfterAll(START, steps[..|steps| - 1]);
      ExactlyThePastIsStopped(steps[..|steps| - 1]);
      if s.phase.Ended? {
        EndedStaysEnded(s, steps[|steps| - 1]);
      }
    }
  }

  lemma {:induction false} EndedStaysEnded(s: State, step: Step)
    requires s.phase.Ended?
    ensures After(s, step).phase == s.phase
  {
  }

  lemma {:induction false} Increasing(s: State, i: nat, j: nat)
    requires Spaced(s) && i < j < |s.registered|
    ensures s.registered[i] < s.registered[j]
  {
    if i + 1 < j {
      Increasing(s, i, j - 1);
    }
  }

  /** Whenever the watchdog blocks: registered generations are one more than events consumed, every
      registered generation's link was delivered exactly once and in increasing order, and at most four
      failed boots lie between two registrations. */
  lemma {:induction false} WhenBlocked(steps: seq<Step>)
    requires AfterAll(START, steps).phase.Blocked?
    ensures var s := AfterAll(START, steps);
            && |s.registered| == s.consumed + 1
            && s.delivered == s.registered
            && (forall i, j :: 0 <= i < j < |s.registered| ==> s.registered[i] < s.registered[j])
            && (forall i :: 0 <= i < |s.registered| - 1 ==> s.registered[i + 1] - s.registered[i] - 1 <= 4)
            && s.registered[0] == 1
  {
    RunKeepsCounts(steps);
    var s := AfterAll(START, steps);
    forall i, j | 0 <= i < j < |s.registered| ensures s.registered[i] < s.registered[j] {
      Increasing(s, i, j);
    }
  }

  /** The process exits exactly when the fifth boot in a row after a registration fails, with code 73. */
  lemma {:induction false} ExitsAfterFiveFailures(steps: seq<Step>, boot: Boot)
    requires AfterAll(START, steps).phase.Booting?
    ensures var s := AfterAll(START, steps);
            (After(s, Watch(BootEnds(boot))).phase == Ended(Exited(73)))
            <==> ((boot.BootFailed? || boot.Vanished?) && s.generation !in s.announced && s.registered != []
                  && s.generation - s.registered[|s.registered| - 1] == 5)
  {
    RunKeepsCounts(steps);
  }

  // ---------------------------------------------------------------- who gets replaced

  /** A queued death is about the generation it will retire exactly when it was timely. */
  predicate Attributed(s: State) {
    && (forall g :: g in s.announced ==> g <= s.generation)
    && (forall i :: 0 <= i < |s.events| && s.events[i].Died? ==>
          && (s.events[i].timely <==> i == 0 && s.events[i].who == s.generation)
          && s.events[i].who in s.announced && s.events[i].who in s.dead)
    && (s.phase.Handing? || s.phase.Blocked? ==> s.generation in s.announced)
  }

  lemma {:induction false} StepKeepsAttribution(s: State, step: Step)
    requires !s.phase.Ended? && Attributed(s)
    ensures After(s, step).phase.Ended? || Attributed(After(s, step))
  {
  }

  lemma {:induction false} RunKeepsAttribution(steps: seq<Step>)
    ensures AfterAll(START, steps).phase.Ended? || Attributed(AfterAll(START, steps))
  {
    if steps != [] {
      var before := steps[..|steps| - 1];
      RunKeepsAttribution(before);
      if !AfterAll(START, before).phase.Ended? {
        StepKeepsAttribution(AfterAll(START, before), steps[|steps| - 1]);
      }
    }
  }

  /** Step `n` posted this death: a generation that could die did, and the note says how things stood. */
  predicate PostedAt(steps: seq<Step>, death: Event, n: nat) {
    && n < |steps| && death.Died? && steps[n] == Die(death.who)
    && CanDie(AfterAll(START, steps[..n]), death.who)
    && (death.timely <==> Timely(AfterAll(START, steps[..n]), death.who))
  }

  lemma {:induction false} WhenPosted(steps: seq<Step>, k: nat) returns (n: nat)
    requires k < |AfterAll(START, steps).events| && AfterAll(START, steps).events[k].Died?
    ensures PostedAt(steps, AfterAll(START, steps).events[k], n)
  {
    var before, last := steps[..|steps| - 1], steps[|steps| - 1];
    var s, t := AfterAll(START, before), AfterAll(START, steps);
    var shift := |t.events| - |s.events|;
    if k < |s.events| && t.events[k] == s.events[k] && shift >= 0 {
      n := WhenPosted(before, k);
      assert steps[..n] == before[..n];
    } else if shift == -1 {
      n := WhenPosted(before, k + 1);
      assert steps[..n] == before[..n];
    } else {
      n := |before|;
    }
  }

  /** In every run, a death retires the generation that died exactly when, as it was posted, nothing was
      queued and the watchdog was receiving, handing over or supervising that very generation. */
  lemma {:induction false} DeathRetiresItsOwnIff(steps: seq<Step>) returns (n: nat)
    requires var s := AfterAll(START, steps); s.phase.Blocked? && s.events != [] && s.events[0].Died?
    ensures var s := AfterAll(START, steps);
            && PostedAt(steps, s.events[0], n)
            && (s.events[0].who == s.generation <==> Timely(AfterAll(START, steps[..n]), s.events[0].who))
  {
    RunKeepsAttribution(steps);
    n := WhenPosted(steps, 0);
  }

  /** Every death in the run is posted timely. */
  predicate DeathsAreTimely(steps: seq<Step>) {
    forall n :: 0 <= n < |steps| && steps[n].Die? && CanDie(AfterAll(START, steps[..n]), steps[n].generation) ==>
      Timely(AfterAll(START, steps[..n]), steps[n].generation)
  }

  predicate AllTimely(events: seq<Event>) {
    forall i :: 0 <= i < |events| && events[i].Died? ==> events[i].timely
  }

  lemma {:induction false} TimelyRun(steps: seq<Step>)
    requires DeathsAreTimely(steps)
    ensures AllTimely(AfterAll(START, steps).events)
  {
    if steps != [] {
      var before := steps[..|steps| - 1];
      forall n | 0 <= n < |before| ensures before[n] == steps[n] && before[..n] == steps[..n] {
      }
      TimelyRun(before);
      assert steps[..|before|] == before;
    }
  }

  /** A live generation is retired only on a restart request, in every run whose deaths are timely. */
  lemma {:induction false} LiveGenerationNeedsARestart(steps: seq<Step>)
    requires DeathsAreTimely(steps)
    requires var s := AfterAll(START, steps); s.phase.Blocked? && s.events != [] && s.generation !in s.dead
    ensures AfterAll(START, steps).events[0] == Restart
  {
    TimelyRun(steps);
    RunKeepsAttribution(steps);
  }

  /** A boot that succeeds, uninterrupted. */
  function Up(s: State): State {
    After(After(After(s, Announce), Watch(BootEnds(Registered))), Watch(SendLink(false)))
  }

  /** A generation that dies between sending its registration and being supervised is still replaced,
      and by its own death. */
  lemma {:induction false} DeathWhileBeingReceived()
    ensures var s1 := After(After(START, Announce), Die(1));
            var s2 := After(After(s1, Watch(BootEnds(Registered))), Watch(SendLink(false)));
            var s3 := After(s2, Watch(Receive));
            s1.events == s2.events == [Died(1, true)] && s2.phase.Blocked? && s3.generation == 2 && s3.stopped == {1}
  {
  }

  /** A generation retired by a restart that dies later takes its live successor down. */
  lemma {:induction false} RetiredGenerationKillsItsSuccessor()
    ensures var s1 := After(After(Up(START), RequestRestart), Watch(Receive));
            var s2 := After(Up(s1), Die(1));
            var s3 := After(s2, Watch(Receive));
            s2.generation == 2 && s2.phase.Blocked? && 2 !in s2.dead && s3.stopped == {1, 2}
  {
  }

  /** So does one that dies while still current, if a restart request is queued ahead of its death. */
  lemma {:induction false} RestartJustBeforeTheDeath()
    ensures var s1 := After(After(Up(START), RequestRestart), Die(1));
            var s2 := Up(After(s1, Watch(Receive)));
            var s3 := After(s2, Watch(Receive));
            s1.generation == 1 && s2.generation == 2 && s2.phase.Blocked? && 2 !in s2.dead && s3.stopped == {1, 2}
  {
  }
}

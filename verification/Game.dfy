/** The game pane's session protocol: the main thread, the frame timer and the primary share flags, a
    command queue and one window. */
module Game {
  import opened Options

  datatype Command = StartLoop | StopLoop | Audio(sound: int) | Draw(op: int)

  /** The open window: whether its frame timer runs and what was drawn into it. */
  datatype Pane = Pane(timer: bool, drawn: seq<Command>)

  /** What the primary is told to run next. */
  datatype Handed = Reset | Launch(entry: string) | Frame(mask: int)

  /** All the shared statics; `device` says whether a window can be created at all. */
  datatype State = State(
    device: bool,
    cmds: seq<Command>,
    active: bool,
    session: bool,
    stepDue: bool,
    stopDue: bool,
    mask: int,
    pending: Option<string>,
    resetDue: bool,
    window: Option<Pane>)

  // ---------------------------------------------------------------- each function as one step

  function PaneEnsured(s: State): State {
    if s.window.None? && s.device then s.(window := Some(Pane(false, []))) else s
  }

  function TimerStarted(s: State): State {
    if s.window.Some? then s.(window := Some(s.window.value.(timer := true))) else s
  }

  function Closed(s: State): State {
    s.(session := false, window := None, active := false)
  }

  function Applied(s: State, c: Command): State {
    match c
    case StartLoop => TimerStarted(PaneEnsured(s.(session := true))).(active := true)
    case StopLoop => Closed(s)
    case Audio(_) => s
    case Draw(_) =>
      var t := if s.session then PaneEnsured(s) else s;
      if t.window.Some? then t.(window := Some(t.window.value.(drawn := t.window.value.drawn + [c]))) else t
  }

  function AppliedAll(s: State, cmds: seq<Command>): State {
    if cmds == [] then s else Applied(AppliedAll(s, cmds[..|cmds| - 1]), cmds[|cmds| - 1])
  }

  function Drained(s: State): State {
    AppliedAll(s.(cmds := []), s.cmds)
  }

  function StopServiced(s: State): State {
    if s.stopDue then Closed(s.(stopDue := false)).(resetDue := true) else s
  }

  function LaunchRequested(s: State, entry: string): State {
    s.(stopDue := s.stopDue || s.active, pending := Some(entry))
  }

  function Polled(s: State): (State, Option<Handed>) {
    if s.resetDue then (s.(resetDue := false), Some(Reset))
    else if !s.active then
      match s.pending
      case None => (s, None)
      case Some(entry) => (s.(pending := None, session := true), Some(Launch(entry)))
    else if !s.stepDue then (s, None)
    else (s.(stepDue := false), Some(Frame(s.mask)))
  }

  function Ticked(s: State, escape: bool, mask: int): State {
    if escape then s.(stopDue := true) else s.(mask := mask, stepDue := true)
  }

  predicate Busy(s: State) {
    s.active || s.resetDue || s.pending.Some?
  }

  /** The re-sync onto a fresh primary asks for a stop of the old one's game. */
  function Resynced(s: State): State {
    s.(stopDue := s.stopDue || Busy(s))
  }

  // ---------------------------------------------------------------- the statics

  class Session {
    const device: bool
    var gameCmds: seq<Command>
    var gameActive: bool
    var sessionOpen: bool
    var stepDue: bool
    var stopDue: bool
    var keyMask: int
    var pendingLaunch: Option<string>
    var resetDue: bool
    var window: Option<Pane>

    ghost function View(): State
      reads this
    {
      State(device, gameCmds, gameActive, sessionOpen, stepDue, stopDue, keyMask, pendingLaunch, resetDue, window)
    }

    constructor (device: bool)
      ensures View() == START.(device := device)
    {
      this.device := device;
      gameCmds, gameActive, sessionOpen, stepDue, stopDue := [], false, false, false, false;
      keyMask, pendingLaunch, resetDue, window := 0, None, false, None;
    }

    method Emit(c: Command)
      modifies this`gameCmds
      ensures View() == old(View()).(cmds := old(gameCmds) + [c])
    {
      gameCmds := gameCmds + [c];
    }

    method EnsurePane()
      modifies this`window
      ensures View() == PaneEnsured(old(View()))
    {
      if window.Some? {
        return;
      }
      if !device {
        return;
      }
      window := Some(Pane(false, []));
    }

    method StartFrameTimer()
      modifies this`window
      ensures View() == TimerStarted(old(View()))
    {
      if window.Some? {
        window := Some(window.value.(timer := true));
      }
    }

    method CloseWindow()
      modifies this`sessionOpen, this`window, this`gameActive
      ensures View() == Closed(old(View()))
    {
      sessionOpen := false;
      window := None;
      gameActive := false;
    }

    method Apply(c: Command)
      modifies this
      ensures View() == Applied(old(View()), c)
    {
      match c {
        case StartLoop =>
          sessionOpen := true;
          EnsurePane();
          StartFrameTimer();
          gameActive := true;
        case StopLoop =>
          CloseWindow();
        case Audio(_) =>
        case Draw(_) =>
          Paint(c);
      }
    }

    /** A drawing command: the pane is created on a session's first one. */
    method Paint(c: Command)
      requires c.Draw?
      modifies this`window
      ensures View() == Applied(old(View()), c)
    {
      if sessionOpen {
        EnsurePane();
      }
      if window.Some? {
        window := Some(window.value.(drawn := window.value.drawn + [c]));
      }
    }

    method Drain()
      modifies this
      ensures View() == Drained(old(View()))
    {
      var cmds := gameCmds;
      gameCmds := [];
      var i := 0;
      while i < |cmds|
        invariant 0 <= i <= |cmds|
        invariant View() == AppliedAll(old(View()).(cmds := []), cmds[..i])
      {
        Apply(cmds[i]);
        assert cmds[..i + 1][..i] == cmds[..i];
        i := i + 1;
      }
      assert cmds[..|cmds|] == cmds;
    }

    /** When it says no, the poll has nothing to hand out and leaves everything as it is. */
    method IsActive() returns (busy: bool)
      ensures busy == Busy(View())
      ensures !busy ==> Polled(View()) == (View(), None)
    {
      busy := gameActive || resetDue || pendingLaunch.Some?;
    }

    method ServiceStopOnMain()
      modifies this
      ensures View() == StopServiced(old(View()))
    {
      var due := stopDue;
      stopDue := false;
      if due {
        CloseWindow();
        resetDue := true;
      }
    }

    method RequestLaunch(entry: string)
      modifies this`stopDue, this`pendingLaunch
      ensures View() == LaunchRequested(old(View()), entry)
    {
      if gameActive {
        stopDue := true;
      }
      pendingLaunch := Some(entry);
    }

    method RequestStop()
      modifies this`stopDue
      ensures View() == old(View()).(stopDue := true)
    {
      stopDue := true;
    }

    method StopForResync()
      modifies this`stopDue
      ensures View() == Resynced(old(View()))
    {
      var busy := IsActive();
      if busy {
        RequestStop();
      }
    }

    method PollPrimaryStep() returns (step: Option<Handed>)
      modifies this
      ensures (View(), step) == Polled(old(View()))
    {
      var due := resetDue;
      resetDue := false;
      if due {
        return Some(Reset);
      }
      if !gameActive {
        var launch := pendingLaunch;
        pendingLaunch := None;
        if launch.Some? {
          sessionOpen := true;
          return Some(Launch(launch.value));
        }
        return None;
      }
      due := stepDue;
      stepDue := false;
      if !due {
        return None;
      }
      return Some(Frame(keyMask));
    }

    method GameTick(escape: bool, mask: int)
      modifies this`stopDue, this`keyMask, this`stepDue
      ensures View() == Ticked(old(View()), escape, mask)
    {
      if escape {
        RequestStop();
        return;
      }
      keyMask := mask;
      stepDue := true;
    }
  }

  // ---------------------------------------------------------------- runs

  datatype Step =
    | Emit(c: Command)
    | Drain
    | ServiceStop
    | RequestLaunch(entry: string)
    | RequestStop
    | Poll
    | Tick(escape: bool, mask: int)
    | Resync

  function After(s: State, step: Step): State {
    match step
    case Emit(c) => s.(cmds := s.cmds + [c])
    case Drain => Drained(s)
    case ServiceStop => StopServiced(s)
    case RequestLaunch(entry) => LaunchRequested(s, entry)
    case RequestStop => s.(stopDue := true)
    case Poll => Polled(s).0
    case Tick(escape, mask) => Ticked(s, escape, mask)
    case Resync => Resynced(s)
  }

  function HandedBy(s: State, step: Step): Option<Handed> {
    if step.Poll? then Polled(s).1 else None
  }

  function AfterAll(s: State, steps: seq<Step>): State
    decreases |steps|
  {
    if steps == [] then s else AfterAll(After(s, steps[0]), steps[1..])
  }

  /** Everything handed out in a run, in order. */
  function HandedIn(s: State, steps: seq<Step>): seq<Handed>
    decreases |steps|
  {
    if steps == [] then []
    else
      var h := HandedBy(s, steps[0]);
      (if h.Some? then [h.value] else []) + HandedIn(After(s, steps[0]), steps[1..])
  }

  /** Before anything has happened, on a machine that can show windows. */
  const START := State(true, [], false, false, false, false, 0, None, false, None)

  /** A window, or a running loop, only in an open session. */
  predicate Sound(s: State) {
    (s.window.Some? ==> s.session) && (s.active ==> s.session)
  }

  lemma {:induction false} AppliedAllSound(s: State, cmds: seq<Command>)
    requires Sound(s)
    ensures Sound(AppliedAll(s, cmds))
  {
    if cmds != [] {
      AppliedAllSound(s, cmds[..|cmds| - 1]);
    }
  }

  lemma {:induction false} RunsStaySound(s: State, steps: seq<Step>)
    requires Sound(s)
    ensures Sound(AfterAll(s, steps))
    decreases |steps|
  {
    if steps != [] {
      if steps[0].Drain? {
        AppliedAllSound(s.(cmds := []), s.cmds);
      }
      RunsStaySound(After(s, steps[0]), steps[1..]);
    }
  }

  /** The two ways a session opens: a launch is taken, or a StartLoop is drained. */
  predicate Opens(s: State, step: Step) {
    match step
    case Poll => !s.resetDue && !s.active && s.pending.Some?
    case Drain => exists i :: 0 <= i < |s.cmds| && s.cmds[i] == StartLoop
    case _ => false
  }

  predicate NeverOpens(s: State, steps: seq<Step>)
    decreases |steps|
  {
    steps == [] || (!Opens(s, steps[0]) && NeverOpens(After(s, steps[0]), steps[1..]))
  }

  predicate IsShut(s: State) {
    !s.session && !s.active && s.window.None?
  }

  lemma {:induction false} DrainStaysShut(s: State, cmds: seq<Command>)
    requires IsShut(s) && forall i :: 0 <= i < |cmds| ==> cmds[i] != StartLoop
    ensures AppliedAll(s, cmds) == s
  {
    if cmds != [] {
      DrainStaysShut(s, cmds[..|cmds| - 1]);
    }
  }

  /** No run of draw commands, ticks, stops and polls brings a closed window back until a launch is
      taken or a StartLoop drained. */
  lemma {:induction false} ClosedStaysClosed(s: State, steps: seq<Step>)
    requires IsShut(s) && NeverOpens(s, steps)
    ensures IsShut(AfterAll(s, steps))
    decreases |steps|
  {
    if steps != [] {
      if steps[0].Drain? {
        DrainStaysShut(s.(cmds := []), s.cmds);
      }
      ClosedStaysClosed(After(s, steps[0]), steps[1..]);
    }
  }

  /** What draining commands never touches. */
  predicate SameFlags(s: State, t: State) {
    t.device == s.device && t.pending == s.pending && t.stopDue == s.stopDue && t.resetDue == s.resetDue
  }

  lemma {:induction false} CommandKeepsFlags(s: State, c: Command)
    ensures SameFlags(s, Applied(s, c))
  {
  }

  lemma {:induction false} CommandsKeepFlags(s: State, cmds: seq<Command>)
    ensures SameFlags(s, AppliedAll(s, cmds))
  {
    if cmds != [] {
      CommandsKeepFlags(s, cmds[..|cmds| - 1]);
      CommandKeepsFlags(AppliedAll(s, cmds[..|cmds| - 1]), cmds[|cmds| - 1]);
    }
  }

  lemma {:induction false} DrainKeepsFlags(s: State)
    ensures SameFlags(s, Drained(s))
  {
    CommandsKeepFlags(s.(cmds := []), s.cmds);
  }

  /** While a reset is due nothing is handed out before it. */
  lemma {:induction false} ResetComesFirst(s: State, steps: seq<Step>)
    requires s.resetDue
    ensures HandedIn(s, steps) == [] || HandedIn(s, steps)[0] == Reset
    decreases |steps|
  {
    if steps != [] && !steps[0].Poll? {
      if steps[0].Drain? {
        DrainKeepsFlags(s);
      }
      ResetComesFirst(After(s, steps[0]), steps[1..]);
    }
  }

  /** So after a serviced stop the demo is reset before anything is launched or stepped, in every
      continuation. */
  lemma {:induction false} StopThenReset(s: State, steps: seq<Step>)
    requires s.stopDue
    ensures IsShut(After(s, ServiceStop))
    ensures var out := HandedIn(After(s, ServiceStop), steps); out == [] || out[0] == Reset
  {
    ResetComesFirst(After(s, ServiceStop), steps);
  }

  /** A demo that was launched and has painted its scene, but whose StartLoop is not drained yet, is not
      running: a second request launches over its window. */
  lemma {:induction false} SecondLaunchOverTheFirst(first: string, second: string)
    ensures var taken := After(After(START, RequestLaunch(first)), Poll);
            var painted := After(After(taken, Emit(Draw(0))), Drain);
            var asked := After(After(painted, RequestLaunch(second)), ServiceStop);
            HandedBy(asked, Poll) == Some(Launch(second)) && After(asked, Poll).window == Some(Pane(false, [Draw(0)]))
  {
    var taken := After(After(START, RequestLaunch(first)), Poll);
    assert AppliedAll(taken, [Draw(0)][..0]) == taken;
  }

  // ---------------------------------------------------------------- what a run's events decide

  /** What a run does to the session: a close, a launch taken, a StartLoop or a drawing command drained. */
  datatype Event = Closing | Launching | Starting | Painting(op: int)

  function EventOf(c: Command): seq<Event> {
    match c
    case StartLoop => [Starting]
    case StopLoop => [Closing]
    case Audio(_) => []
    case Draw(op) => [Painting(op)]
  }

  function EventsOf(cmds: seq<Command>): seq<Event> {
    if cmds == [] then [] else EventsOf(cmds[..|cmds| - 1]) + EventOf(cmds[|cmds| - 1])
  }

  /** The next poll takes a launch. */
  predicate Launches(s: State) {
    !s.resetDue && !s.active && s.pending.Some?
  }

  function StepEvents(s: State, step: Step): seq<Event> {
    match step
    case Drain => EventsOf(s.cmds)
    case ServiceStop => if s.stopDue then [Closing] else []
    case Poll => if Launches(s) then [Launching] else []
    case _ => []
  }

  function Events(s: State, steps: seq<Step>): seq<Event>
    decreases |steps|
  {
    if steps == [] then [] else StepEvents(s, steps[0]) + Events(After(s, steps[0]), steps[1..])
  }

  /** The events after the last close. */
  function SinceClose(events: seq<Event>): seq<Event> {
    if events == [] || events[|events| - 1] == Closing then []
    else SinceClose(events[..|events| - 1]) + [events[|events| - 1]]
  }

  /** A drawing command was drained with a session open, or a StartLoop. */
  predicate Shown(events: seq<Event>) {
    || Starting in events
    || exists i, j :: 0 <= i < j < |events| && events[i] == Launching && events[j].Painting?
  }

  /** The session, the loop and the window are what the events since the last close say. */
  predicate Told(s: State, events: seq<Event>) {
    var e := SinceClose(events);
    && (s.active <==> Starting in e)
    && (s.session <==> Starting in e || Launching in e)
    && (s.window.Some? <==> s.device && Shown(e))
  }

  lemma {:induction false} SinceCloseAppend(events: seq<Event>, e: Event)
    ensures SinceClose(events + [e]) == if e == Closing then [] else SinceClose(events) + [e]
  {
    assert (events + [e])[..|events|] == events;
  }

  lemma {:induction false} ShownAppend(events: seq<Event>, e: Event)
    ensures Shown(events + [e]) <==> Shown(events) || e == Starting || (e.Painting? && Launching in events)
  {
    var longer := events + [e];
    if Starting in events {
      assert Starting in longer;
    }
    if e.Painting? && Launching in events {
      var i :| 0 <= i < |events| && events[i] == Launching;
      assert longer[i] == Launching && longer[|events|].Painting?;
    }
    if i, j :| 0 <= i < j < |events| && events[i] == Launching && events[j].Painting? {
      assert longer[i] == Launching && longer[j].Painting?;
    }
  }

  lemma {:induction false} CommandTold(s: State, events: seq<Event>, c: Command)
    requires Told(s, events)
    ensures Told(Applied(s, c), events + EventOf(c))
  {
    if c.Audio? {
      assert events + [] == events;
    } else {
      SinceCloseAppend(events, EventOf(c)[0]);
      ShownAppend(SinceClose(events), EventOf(c)[0]);
    }
  }

  lemma {:induction false} CommandsTold(s: State, events: seq<Event>, cmds: seq<Command>)
    requires Told(s, events)
    ensures Told(AppliedAll(s, cmds), events + EventsOf(cmds))
  {
    if cmds == [] {
      assert events + [] == events;
    } else {
      var before := cmds[..|cmds| - 1];
      CommandsTold(s, events, before);
      CommandTold(AppliedAll(s, before), events + EventsOf(before), cmds[|cmds| - 1]);
      assert events + EventsOf(before) + EventOf(cmds[|cmds| - 1]) == events + EventsOf(cmds);
    }
  }

  lemma {:induction false} ClosingTold(t: State, events: seq<Event>)
    requires IsShut(t)
    ensures Told(t, events + [Closing])
  {
    SinceCloseAppend(events, Closing);
  }

  lemma {:induction false} LaunchingTold(s: State, t: State, events: seq<Event>)
    requires Told(s, events) && t.device == s.device && t.active == s.active && t.window == s.window && t.session
    ensures Told(t, events + [Launching])
  {
    SinceCloseAppend(events, Launching);
    ShownAppend(SinceClose(events), Launching);
  }

  lemma {:induction false} NothingTold(s: State, t: State, events: seq<Event>)
    requires Told(s, events)
    requires t.device == s.device && t.active == s.active && t.window == s.window && t.session == s.session
    ensures Told(t, events + [])
  {
    assert events + [] == events;
  }

  lemma {:induction false} StepTold(s: State, events: seq<Event>, step: Step)
    requires Told(s, events)
    ensures Told(After(s, step), events + StepEvents(s, step))
  {
    if step.Drain? {
      CommandsTold(s.(cmds := []), events, s.cmds);
    } else if step.ServiceStop? && s.stopDue {
      ClosingTold(After(s, step), events);
    } else if step.Poll? && Launches(s) {
      LaunchingTold(s, After(s, step), events);
    } else {
      NothingTold(s, After(s, step), events);
    }
  }

  lemma {:induction false} Regroup(a: seq<Event>, b: seq<Event>, c: seq<Event>)
    ensures a + b + c == a + (b + c)
  {
  }

  lemma {:induction false} RunTold(s: State, events: seq<Event>, steps: seq<Step>)
    requires Told(s, events)
    ensures Told(AfterAll(s, steps), events + Events(s, steps))
    decreases |steps|
  {
    if steps == [] {
      assert events + [] == events;
    } else {
      var now, t := StepEvents(s, steps[0]), After(s, steps[0]);
      StepTold(s, events, steps[0]);
      RunTold(t, events + now, steps[1..]);
      Regroup(events, now, Events(t, steps[1..]));
    }
  }

  /** In every run from the start there is a window without a running loop exactly when, since the last
      close, a launch was taken and after it a drawing command drained, and no StartLoop was drained. */
  lemma {:induction false} WindowWithoutLoopIff(device: bool, steps: seq<Step>)
    ensures var start := START.(device := device);
            var s, e := AfterAll(start, steps), SinceClose(Events(start, steps));
            (!s.active && s.window.Some?)
            <==> (device && Starting !in e && exists i, j :: 0 <= i < j < |e| && e[i] == Launching && e[j].Painting?)
  {
    var start := START.(device := device);
    RunTold(start, [], steps);
    assert [] + Events(start, steps) == Events(start, steps);
    DeviceStays(start, steps);
  }

  lemma {:induction false} StepKeepsDevice(s: State, step: Step)
    ensures After(s, step).device == s.device
  {
    if step.Drain? {
      DrainKeepsFlags(s);
    }
  }

  lemma {:induction false} DeviceStays(s: State, steps: seq<Step>)
    ensures AfterAll(s, steps).device == s.device
    decreases |steps|
  {
    if steps != [] {
      StepKeepsDevice(s, steps[0]);
      DeviceStays(After(s, steps[0]), steps[1..]);
    }
  }

  // ---------------------------------------------------------------- launches, windows and stops

  /** A running loop, or nothing open at all: where a launch finds no window. */
  predicate LoopOrShut(s: State) {
    s.active || IsShut(s)
  }

  lemma {:induction false} CommandsKeepLoopOrShut(s: State, cmds: seq<Command>)
    requires Sound(s) && (LoopOrShut(s) || Closing in EventsOf(cmds))
    ensures LoopOrShut(AppliedAll(s, cmds))
  {
    if cmds != [] {
      var before := cmds[..|cmds| - 1];
      if LoopOrShut(s) || Closing in EventsOf(before) {
        CommandsKeepLoopOrShut(s, before);
      }
    }
  }

  lemma {:induction false} StepKeepsLoopOrShut(s: State, step: Step)
    requires Sound(s) && (LoopOrShut(s) || Closing in StepEvents(s, step)) && Launching !in StepEvents(s, step)
    ensures LoopOrShut(After(s, step))
  {
    if step.Drain? {
      CommandsKeepLoopOrShut(s.(cmds := []), s.cmds);
    }
  }

  lemma {:induction false} RunKeepsLoopOrShut(s: State, steps: seq<Step>)
    requires Sound(s) && Launching !in Events(s, steps)
    requires LoopOrShut(s) || Closing in Events(s, steps)
    ensures LoopOrShut(AfterAll(s, steps))
    decreases |steps|
  {
    if steps != [] {
      RunsStaySound(s, [steps[0]]);
      assert AfterAll(After(s, steps[0]), [steps[0]][1..]) == After(s, steps[0]);
      if LoopOrShut(s) || Closing in StepEvents(s, steps[0]) {
        StepKeepsLoopOrShut(s, steps[0]);
      }
      RunKeepsLoopOrShut(After(s, steps[0]), steps[1..]);
    }
  }

  /** From a running game, in every continuation, the next launch finds the old window gone; in
      particular one requested while it was running. */
  lemma {:induction false} LaunchAfterALoopFindsNoWindow(s: State, steps: seq<Step>)
    requires Sound(s) && s.active && Launching !in Events(s, steps) && Launches(AfterAll(s, steps))
    ensures AfterAll(s, steps).window == None
  {
    RunKeepsLoopOrShut(s, steps);
  }

  lemma {:induction false} CommandsKeepWindow(s: State, cmds: seq<Command>)
    requires s.window.Some? && Closing !in EventsOf(cmds)
    ensures AppliedAll(s, cmds).window.Some?
  {
    if cmds != [] {
      CommandsKeepWindow(s, cmds[..|cmds| - 1]);
    }
  }

  lemma {:induction false} RunKeepsWindow(s: State, steps: seq<Step>)
    requires s.window.Some? && Closing !in Events(s, steps)
    ensures AfterAll(s, steps).window.Some?
    decreases |steps|
  {
    if steps != [] {
      if steps[0].Drain? {
        CommandsKeepWindow(s.(cmds := []), s.cmds);
      }
      RunKeepsWindow(After(s, steps[0]), steps[1..]);
    }
  }

  /** A window that is open, its loop running or not, is gone when the next launch is taken exactly when
      a stop that was due has been serviced, or a StopLoop drained, before that poll. */
  lemma {:induction false} WindowGoneAtLaunchIff(s: State, steps: seq<Step>)
    requires Sound(s) && s.window.Some? && Launching !in Events(s, steps) && Launches(AfterAll(s, steps))
    ensures AfterAll(s, steps).window.None? <==> Closing in Events(s, steps)
  {
    if Closing in Events(s, steps) {
      RunKeepsLoopOrShut(s, steps);
    } else {
      RunKeepsWindow(s, steps);
    }
  }

  /** Some step of the run services a stop that is due. */
  predicate Services(s: State, steps: seq<Step>)
    decreases |steps|
  {
    steps != [] && ((steps[0].ServiceStop? && s.stopDue) || Services(After(s, steps[0]), steps[1..]))
  }

  lemma {:induction false} StepReset(s: State, step: Step)
    requires Launching !in StepEvents(s, step)
    ensures var t, reset := After(s, step), HandedBy(s, step) == Some(Reset);
            && (s.resetDue || (step.ServiceStop? && s.stopDue) <==> t.resetDue || reset)
            && !(t.resetDue && reset)
  {
    if step.Drain? {
      DrainKeepsFlags(s);
    }
  }

  /** The next launch comes after a reset exactly when a due stop was serviced before it: a StopLoop that
      the demo drained itself closes the window and brings no reset. */
  lemma {:induction false} ResetBeforeLaunchIff(s: State, steps: seq<Step>)
    requires Launching !in Events(s, steps) && Launches(AfterAll(s, steps))
    ensures Reset in HandedIn(s, steps) <==> s.resetDue || Services(s, steps)
    decreases |steps|
  {
    if steps != [] {
      StepReset(s, steps[0]);
      ResetBeforeLaunchIff(After(s, steps[0]), steps[1..]);
    }
  }

  /** The run asks for a launch. */
  predicate Asks(steps: seq<Step>) {
    exists i :: 0 <= i < |steps| && steps[i].RequestLaunch?
  }

  /** Of the closes and StartLoops in the run the last is a close; with none at all, the loop was not
      running before. */
  predicate EndsIdle(active: bool, events: seq<Event>) {
    if Closing in events then Starting !in SinceClose(events) else !active && Starting !in events
  }

  lemma {:induction false} IdleAppend(active: bool, a: seq<Event>, e: Event)
    ensures EndsIdle(active, a + [e]) <==> e == Closing || (e != Starting && EndsIdle(active, a))
  {
    SinceCloseAppend(a, e);
    assert forall x :: x in a + [e] <==> x in a || x == e;
    assert forall x :: x in SinceClose(a) + [e] <==> x in SinceClose(a) || x == e;
  }

  lemma {:induction false} CommandsEndIdle(s: State, events: seq<Event>, cmds: seq<Command>, active: bool)
    requires !s.active <==> EndsIdle(active, events)
    ensures !AppliedAll(s, cmds).active <==> EndsIdle(active, events + EventsOf(cmds))
  {
    if cmds == [] {
      assert events + [] == events;
    } else {
      var before, c := cmds[..|cmds| - 1], cmds[|cmds| - 1];
      CommandsEndIdle(s, events, before, active);
      CommandEndsIdle(AppliedAll(s, before), events + EventsOf(before), c, active);
      assert events + EventsOf(cmds) == events + EventsOf(before) + EventOf(c);
    }
  }

  lemma {:induction false} CommandEndsIdle(s: State, events: seq<Event>, c: Command, active: bool)
    requires !s.active <==> EndsIdle(active, events)
    ensures !Applied(s, c).active <==> EndsIdle(active, events + EventOf(c))
  {
    if c.Audio? {
      assert events + [] == events;
    } else {
      IdleAppend(active, events, EventOf(c)[0]);
    }
  }

  lemma {:induction false} StepEndsIdle(s: State, events: seq<Event>, step: Step, active: bool)
    requires !s.active <==> EndsIdle(active, events)
    ensures !After(s, step).active <==> EndsIdle(active, events + StepEvents(s, step))
  {
    if step.Drain? {
      CommandsEndIdle(s.(cmds := []), events, s.cmds, active);
    } else if StepEvents(s, step) == [] {
      assert events + [] == events;
    } else {
      IdleAppend(active, events, StepEvents(s, step)[0]);
    }
  }

  lemma {:induction false} RunEndsIdle(s: State, events: seq<Event>, steps: seq<Step>, active: bool)
    requires !s.active <==> EndsIdle(active, events)
    ensures !AfterAll(s, steps).active <==> EndsIdle(active, events + Events(s, steps))
    decreases |steps|
  {
    if steps == [] {
      assert events + [] == events;
    } else {
      var now, t := StepEvents(s, steps[0]), After(s, steps[0]);
      StepEndsIdle(s, events, steps[0], active);
      RunEndsIdle(t, events + now, steps[1..], active);
      Regroup(events, now, Events(t, steps[1..]));
    }
  }

  lemma {:induction false} AsksFront(steps: seq<Step>)
    requires steps != []
    ensures Asks(steps) <==> steps[0].RequestLaunch? || Asks(steps[1..])
  {
    if i :| 0 <= i < |steps| && steps[i].RequestLaunch? {
      assert i > 0 ==> steps[1..][i - 1].RequestLaunch?;
    }
    if i :| 0 <= i < |steps[1..]| && steps[1..][i].RequestLaunch? {
      assert steps[i + 1].RequestLaunch?;
    }
  }

  lemma {:induction false} UnservicedStep(s: State, step: Step)
    requires s.stopDue && Launching !in StepEvents(s, step) && !step.ServiceStop?
    ensures var t := After(s, step);
            && t.stopDue && (t.pending.Some? <==> s.pending.Some? || step.RequestLaunch?)
            && (t.resetDue <==> s.resetDue && !step.Poll?)
  {
    if step.Drain? {
      DrainKeepsFlags(s);
    }
  }

  lemma {:induction false} UnservicedRun(s: State, steps: seq<Step>)
    requires s.stopDue && Launching !in Events(s, steps) && ServiceStop !in steps
    ensures var t := AfterAll(s, steps);
            && t.stopDue && (t.pending.Some? <==> s.pending.Some? || Asks(steps))
            && (t.resetDue <==> s.resetDue && Poll !in steps)
    decreases |steps|
  {
    if steps != [] {
      UnservicedStep(s, steps[0]);
      UnservicedRun(After(s, steps[0]), steps[1..]);
      AsksFront(steps);
    }
  }

  /** A launch overtakes a stop that is due, at the granularity of whole functions: with the stop not
      serviced yet and no launch taken since it became due, the next poll takes one exactly when a launch
      has been asked for, an older reset is out of the way, and the loop is not running, because it never
      was or a StopLoop came last. */
  lemma {:induction false} LaunchOvertakesStopIff(s: State, steps: seq<Step>)
    requires s.stopDue && Launching !in Events(s, steps) && ServiceStop !in steps
    ensures AfterAll(s, steps).stopDue
    ensures Launches(AfterAll(s, steps))
            <==> && (s.pending.Some? || Asks(steps)) && (!s.resetDue || Poll in steps)
                 && EndsIdle(s.active, Events(s, steps))
  {
    UnservicedRun(s, steps);
    RunEndsIdle(s, [], steps, s.active);
    assert [] + Events(s, steps) == Events(s, steps);
  }

  /** The stop then closes the session of the demo just launched, and has it reset. */
  lemma {:induction false} LateStopHitsTheLaunch(s: State, steps: seq<Step>)
    requires s.stopDue && Launching !in Events(s, steps) && ServiceStop !in steps && Launches(AfterAll(s, steps))
    ensures var launched := After(AfterAll(s, steps), Poll);
            && launched.session && IsShut(After(launched, ServiceStop))
            && HandedBy(After(launched, ServiceStop), Poll) == Some(Reset)
  {
    UnservicedRun(s, steps);
  }

  // ---------------------------------------------------------------- when the primary may idle

  lemma {:induction false} SinceCloseWhole(events: seq<Event>)
    ensures Closing !in events ==> SinceClose(events) == events
  {
    if events != [] {
      SinceCloseWhole(events[..|events| - 1]);
    }
  }

  /** A launch is asked for, a stop that is due is serviced, or a StartLoop is drained and not stopped by
      a later command. */
  predicate Wakes(s: State, step: Step) {
    match step
    case RequestLaunch(_) => true
    case ServiceStop => s.stopDue
    case Drain => Starting in SinceClose(EventsOf(s.cmds))
    case _ => false
  }

  predicate NeverWakes(s: State, steps: seq<Step>)
    decreases |steps|
  {
    steps == [] || (!Wakes(s, steps[0]) && NeverWakes(After(s, steps[0]), steps[1..]))
  }

  lemma {:induction false} WakesIff(s: State, step: Step)
    requires !Busy(s)
    ensures Busy(After(s, step)) <==> Wakes(s, step)
    ensures HandedBy(s, step) == None
  {
    if step.Drain? {
      DrainKeepsFlags(s);
      CommandsEndIdle(s.(cmds := []), [], s.cmds, false);
      assert [] + EventsOf(s.cmds) == EventsOf(s.cmds);
      SinceCloseWhole(EventsOf(s.cmds));
    }
  }

  /** A primary that beats slowly while nothing is busy keeps nothing waiting: a run stays idle throughout
      exactly when none of its steps wakes the game, and then nothing is handed out in it. */
  lemma {:induction false} IdleUntilWoken(s: State, steps: seq<Step>)
    requires !Busy(s)
    ensures NeverWakes(s, steps) <==> forall k :: 0 <= k <= |steps| ==> !Busy(AfterAll(s, steps[..k]))
    ensures NeverWakes(s, steps) ==> HandedIn(s, steps) == []
    decreases |steps|
  {
    if steps != [] {
      var t, rest := After(s, steps[0]), steps[1..];
      WakesIff(s, steps[0]);
      forall k | 0 < k <= |steps| ensures AfterAll(s, steps[..k]) == AfterAll(t, rest[..k - 1]) {
        assert steps[..k][0] == steps[0] && steps[..k][1..] == rest[..k - 1];
      }
      if Busy(t) {
        assert AfterAll(t, rest[..0]) == t;
        assert Busy(AfterAll(s, steps[..1]));
      } else {
        IdleUntilWoken(t, rest);
        if NeverWakes(t, rest) {
          forall k | 0 <= k <= |steps| ensures !Busy(AfterAll(s, steps[..k])) {
            if k > 0 {
              assert !Busy(AfterAll(t, rest[..k - 1]));
            }
          }
        } else {
          var k :| 0 <= k <= |rest| && Busy(AfterAll(t, rest[..k]));
          assert Busy(AfterAll(s, steps[..k + 1]));
        }
      }
    }
  }

  // ---------------------------------------------------------------- a restart of the primary

  /** After draining nothing is open exactly when no StartLoop came after the last StopLoop, and there was
      a StopLoop or nothing was open before. */
  lemma {:induction false} DrainShutIff(s: State, cmds: seq<Command>)
    ensures IsShut(AppliedAll(s, cmds))
            <==> Starting !in SinceClose(EventsOf(cmds)) && (IsShut(s) || Closing in EventsOf(cmds))
  {
    if cmds != [] {
      var before, c := cmds[..|cmds| - 1], cmds[|cmds| - 1];
      DrainShutIff(s, before);
      if c.Audio? {
        assert EventsOf(before) + [] == EventsOf(before);
      } else {
        SinceCloseAppend(EventsOf(before), EventOf(c)[0]);
      }
    }
  }

  function Emitted(steps: seq<Step>): seq<Command> {
    if steps == [] then [] else (if steps[0].Emit? then [steps[0].c] else []) + Emitted(steps[1..])
  }

  /** Some step of the run asks for a stop. */
  predicate StopAsked(s: State, steps: seq<Step>)
    decreases |steps|
  {
    steps != [] && (AsksStop(s, steps[0]) || StopAsked(After(s, steps[0]), steps[1..]))
  }

  predicate AsksStop(s: State, step: Step) {
    match step
    case RequestStop => true
    case Tick(escape, _) => escape
    case RequestLaunch(_) => s.active
    case Resync => Busy(s)
    case _ => false
  }

  lemma {:induction false} PollBeforeService(s: State)
    ensures var t := Polled(s).0;
            && t.cmds == s.cmds && t.stopDue == s.stopDue
            && (IsShut(t) <==> IsShut(s) && !Launches(s))
  {
  }

  lemma {:induction false} BeforeServiceStep(s: State, step: Step)
    requires !step.Drain? && !step.ServiceStop?
    ensures var t := After(s, step);
            && t.cmds == s.cmds + (if step.Emit? then [step.c] else [])
            && (t.stopDue <==> s.stopDue || AsksStop(s, step))
            && (IsShut(t) <==> IsShut(s) && Launching !in StepEvents(s, step))
  {
    if step.Poll? {
      PollBeforeService(s);
    } else if step.Emit? {
    } else {
      assert s.cmds + [] == s.cmds;
    }
  }

  lemma {:induction false} BeforeService(s: State, steps: seq<Step>)
    requires Drain !in steps && ServiceStop !in steps
    ensures var t := AfterAll(s, steps);
            && t.cmds == s.cmds + Emitted(steps)
            && (t.stopDue <==> s.stopDue || StopAsked(s, steps))
            && (IsShut(t) <==> IsShut(s) && Launching !in Events(s, steps))
    decreases |steps|
  {
    if steps == [] {
      assert s.cmds + Emitted(steps) == s.cmds;
    } else {
      var t, now := After(s, steps[0]), if steps[0].Emit? then [steps[0].c] else [];
      BeforeServiceStep(s, steps[0]);
      BeforeService(t, steps[1..]);
      assert (s.cmds + now) + Emitted(steps[1..]) == s.cmds + (now + Emitted(steps[1..]));
    }
  }

  lemma {:induction false} ServiceThenDrain(s: State)
    ensures var events := EventsOf(s.cmds);
            IsShut(After(After(s, ServiceStop), Drain))
            <==> Starting !in SinceClose(events) && (s.stopDue || IsShut(s) || Closing in events)
  {
    var serviced := After(s, ServiceStop);
    DrainShutIff(serviced.(cmds := []), serviced.cmds);
  }

  /** The pass of the main thread that re-syncs onto a fresh primary checks for a game to stop, and later
      services the stop and drains. Whatever the other functions do in between, the old game is shut at
      its end exactly when the queue as drained has no StartLoop after its last StopLoop, and a stop was
      due, or the queue has a StopLoop, or nothing was open and nothing launched. */
  lemma {:induction false} ResyncShutsIff(s: State, steps: seq<Step>)
    requires Drain !in steps && ServiceStop !in steps
    ensures var resynced := After(s, Resync);
            var end := After(After(AfterAll(resynced, steps), ServiceStop), Drain);
            var events := EventsOf(s.cmds + Emitted(steps));
            IsShut(end)
            <==> && Starting !in SinceClose(events)
                 && (|| s.stopDue || Busy(s) || StopAsked(resynced, steps)
                     || Closing in events
                     || (IsShut(s) && Launching !in Events(resynced, steps)))
  {
    var resynced := After(s, Resync);
    BeforeService(resynced, steps);
    var t := AfterAll(resynced, steps);
    ServiceThenDrain(t);
    assert t.stopDue <==> s.stopDue || Busy(s) || StopAsked(resynced, steps);
  }

  /** The check sees neither a queued StartLoop nor a launched demo that has not started its loop: each
      leaves the old primary's game open. */
  lemma {:induction false} ResyncMissesUnstartedLoop(entry: string)
    ensures var launched := After(After(START, RequestLaunch(entry)), Poll);
            var started := After(After(launched, Emit(StartLoop)), Resync);
            var painted := After(After(After(launched, Emit(Draw(0))), Drain), Resync);
            && After(After(started, ServiceStop), Drain).active
            && After(After(painted, ServiceStop), Drain).window.Some?
  {
    var launched := After(After(START, RequestLaunch(entry)), Poll);
    assert AppliedAll(launched, [StartLoop][..0]) == launched;
    assert AppliedAll(launched, [Draw(0)][..0]) == launched;
  }

  // ---------------------------------------------------------------- what a poll hands out

  lemma {:induction false} RunsJoin(s: State, a: seq<Step>, b: seq<Step>)
    ensures AfterAll(s, a + b) == AfterAll(AfterAll(s, a), b)
    ensures HandedIn(s, a + b) == HandedIn(s, a) + HandedIn(AfterAll(s, a), b)
    decreases |a|
  {
    if a == [] {
      assert a + b == b;
    } else {
      assert (a + b)[0] == a[0] && (a + b)[1..] == a[1..] + b;
      RunsJoin(After(s, a[0]), a[1..], b);
    }
  }

  lemma {:induction false} LastStep(s: State, steps: seq<Step>)
    requires steps != []
    ensures AfterAll(s, steps) == After(AfterAll(s, steps[..|steps| - 1]), steps[|steps| - 1])
  {
    var n := |steps| - 1;
    assert steps == steps[..n] + [steps[n]] && [steps[n]][1..] == [];
    RunsJoin(s, steps[..n], [steps[n]]);
    var t := AfterAll(s, steps[..n]);
    assert AfterAll(t, [steps[n]]) == AfterAll(After(t, steps[n]), [steps[n]][1..]);
  }

  /** Step `i` of the run is a tick without Escape. */
  predicate TickAt(steps: seq<Step>, i: nat) {
    i < |steps| && steps[i].Tick? && !steps[i].escape
  }

  /** Step `i` is a poll that hands something out, of the kind of `h`. */
  predicate GivesAt(s: State, steps: seq<Step>, i: nat, h: Handed) {
    i < |steps| &&
    var given := HandedBy(AfterAll(s, steps[..i]), steps[i]);
    given.Some? && (given.value.Reset? <==> h.Reset?) && (given.value.Launch? <==> h.Launch?)
  }

  ghost predicate NoneGivenFrom(s: State, steps: seq<Step>, from: nat, h: Handed) {
    forall j: nat :: from <= j < |steps| ==> !GivesAt(s, steps, j, h)
  }

  lemma {:induction false} NoneGivenLast(s: State, steps: seq<Step>, from: nat, h: Handed)
    requires from < |steps|
    ensures var n := |steps| - 1;
            NoneGivenFrom(s, steps, from, h)
            <==> NoneGivenFrom(s, steps[..n], from, h) && !GivesAt(s, steps, n, h)
  {
    var n := |steps| - 1;
    forall j: nat | j < n ensures GivesAt(s, steps, j, h) <==> GivesAt(s, steps[..n], j, h) {
      assert steps[..n][..j] == steps[..j];
    }
  }

  /** The last tick without Escape is step `i`, and no frame has been handed out since. */
  ghost predicate FrameOwed(s: State, steps: seq<Step>, i: nat) {
    && TickAt(steps, i) && (forall j: nat :: i < j ==> !TickAt(steps, j))
    && NoneGivenFrom(s, steps, i + 1, Frame(0))
  }

  lemma {:induction false} FrameOwedLast(s: State, steps: seq<Step>, i: nat)
    requires i + 1 < |steps|
    ensures var n := |steps| - 1;
            FrameOwed(s, steps, i)
            <==> FrameOwed(s, steps[..n], i) && !TickAt(steps, n) && !GivesAt(s, steps, n, Frame(0))
  {
    var n := |steps| - 1;
    NoneGivenLast(s, steps, i + 1, Frame(0));
    assert forall j: nat :: j < n ==> (TickAt(steps, j) <==> TickAt(steps[..n], j));
  }

  lemma {:induction false} StepMovesFrames(s: State, step: Step)
    ensures var t := After(s, step);
            var ticked, given := step.Tick? && !step.escape, HandedBy(s, step).Some? && HandedBy(s, step).value.Frame?;
            && (t.stepDue <==> ticked || (s.stepDue && !given))
            && t.mask == if ticked then step.mask else s.mask
  {
    if step.Drain? {
      CommandsKeepFrames(s.(cmds := []), s.cmds);
    }
  }

  lemma {:induction false} CommandKeepsFrames(s: State, c: Command)
    ensures Applied(s, c).stepDue == s.stepDue && Applied(s, c).mask == s.mask
  {
    match c
    case StartLoop =>
      assert PaneEnsured(s.(session := true)).stepDue == s.stepDue;
    case StopLoop =>
    case Audio(_) =>
    case Draw(_) =>
      assert PaneEnsured(s).stepDue == s.stepDue && PaneEnsured(s).mask == s.mask;
  }

  lemma {:induction false} CommandsKeepFrames(s: State, cmds: seq<Command>)
    ensures AppliedAll(s, cmds).stepDue == s.stepDue && AppliedAll(s, cmds).mask == s.mask
  {
    if cmds != [] {
      CommandsKeepFrames(s, cmds[..|cmds| - 1]);
      CommandKeepsFrames(AppliedAll(s, cmds[..|cmds| - 1]), cmds[|cmds| - 1]);
    }
  }

  lemma {:induction false} FrameDueIff(s: State, steps: seq<Step>)
    requires !s.stepDue
    ensures AfterAll(s, steps).stepDue <==> exists i: nat :: FrameOwed(s, steps, i)
    ensures forall i: nat :: FrameOwed(s, steps, i) ==> AfterAll(s, steps).mask == steps[i].mask
  {
    if steps != [] {
      var n := |steps| - 1;
      var before, step := AfterAll(s, steps[..n]), steps[n];
      FrameDueIff(s, steps[..n]);
      LastStep(s, steps);
      StepMovesFrames(before, step);
      assert TickAt(steps, n) <==> step.Tick? && !step.escape;
      assert GivesAt(s, steps, n, Frame(0)) <==> HandedBy(before, step).Some? && HandedBy(before, step).value.Frame?;
      if TickAt(steps, n) {
        assert FrameOwed(s, steps, n);
      }
      forall i: nat | i < n
        ensures FrameOwed(s, steps, i)
                <==> FrameOwed(s, steps[..n], i) && !TickAt(steps, n) && !GivesAt(s, steps, n, Frame(0))
      {
        FrameOwedLast(s, steps, i);
      }
      forall i: nat | FrameOwed(s, steps[..n], i) ensures i < n {
      }
      forall i: nat | FrameOwed(s, steps, i) ensures i <= n {
      }
    }
  }

  /** A poll hands out a frame with mask `m` exactly when the loop is running, no reset is due, and the
      last tick without Escape had that mask and came after the last poll that handed out a frame. */
  lemma {:induction false} FrameHandedIff(s: State, steps: seq<Step>, m: int)
    requires !s.stepDue
    ensures var t := AfterAll(s, steps);
            HandedBy(t, Poll) == Some(Frame(m))
            <==> t.active && !t.resetDue && exists i: nat :: FrameOwed(s, steps, i) && steps[i].mask == m
  {
    FrameDueIff(s, steps);
  }

  /** The last request of a launch is step `i`, and no launch has been handed out since. */
  ghost predicate LaunchOwed(s: State, steps: seq<Step>, i: nat) {
    && i < |steps| && steps[i].RequestLaunch? && (forall j: nat :: i < j < |steps| ==> !steps[j].RequestLaunch?)
    && NoneGivenFrom(s, steps, i + 1, Launch(""))
  }

  lemma {:induction false} LaunchOwedLast(s: State, steps: seq<Step>, i: nat)
    requires i + 1 < |steps|
    ensures var n := |steps| - 1;
            LaunchOwed(s, steps, i)
            <==> LaunchOwed(s, steps[..n], i) && !steps[n].RequestLaunch? && !GivesAt(s, steps, n, Launch(""))
  {
    NoneGivenLast(s, steps, i + 1, Launch(""));
  }

  lemma {:induction false} StepMovesLaunch(s: State, step: Step)
    ensures var given := HandedBy(s, step).Some? && HandedBy(s, step).value.Launch?;
            After(s, step).pending
            == if step.RequestLaunch? then Some(step.entry) else if given then None else s.pending
  {
    if step.Drain? {
      DrainKeepsFlags(s);
    }
  }

  lemma {:induction false} LaunchPendingIff(s: State, steps: seq<Step>)
    requires s.pending.None?
    ensures AfterAll(s, steps).pending.Some? <==> exists i: nat :: LaunchOwed(s, steps, i)
    ensures forall i: nat :: LaunchOwed(s, steps, i) ==> AfterAll(s, steps).pending == Some(steps[i].entry)
  {
    if steps != [] {
      var n := |steps| - 1;
      var before, step := AfterAll(s, steps[..n]), steps[n];
      LaunchPendingIff(s, steps[..n]);
      LastStep(s, steps);
      StepMovesLaunch(before, step);
      assert GivesAt(s, steps, n, Launch("")) <==> HandedBy(before, step).Some? && HandedBy(before, step).value.Launch?;
      if step.RequestLaunch? {
        assert LaunchOwed(s, steps, n);
      }
      forall i: nat | i < n
        ensures LaunchOwed(s, steps, i)
                <==> LaunchOwed(s, steps[..n], i) && !step.RequestLaunch? && !GivesAt(s, steps, n, Launch(""))
      {
        LaunchOwedLast(s, steps, i);
      }
      forall i: nat | LaunchOwed(s, steps[..n], i) ensures i < n {
      }
      forall i: nat | LaunchOwed(s, steps, i) ensures i <= n {
      }
    }
  }

  /** A poll hands out the launch of `entry` exactly when no loop is running, no reset is due, and the last
      launch asked for was of `entry` and came after the last launch handed out. */
  lemma {:induction false} LaunchHandedIff(s: State, steps: seq<Step>, entry: string)
    requires s.pending.None?
    ensures var t := AfterAll(s, steps);
            HandedBy(t, Poll) == Some(Launch(entry))
            <==> !t.active && !t.resetDue && exists i: nat :: LaunchOwed(s, steps, i) && steps[i].entry == entry
  {
    LaunchPendingIff(s, steps);
  }

  /** Step `i` serviced a stop that was due, and no reset has been handed out since. */
  ghost predicate ResetOwed(s: State, steps: seq<Step>, i: nat) {
    && i < |steps| && steps[i].ServiceStop? && AfterAll(s, steps[..i]).stopDue
    && NoneGivenFrom(s, steps, i + 1, Reset)
  }

  lemma {:induction false} StepMovesReset(s: State, step: Step)
    ensures After(s, step).resetDue
            <==> (step.ServiceStop? && s.stopDue) || (s.resetDue && HandedBy(s, step) != Some(Reset))
  {
    if step.Drain? {
      DrainKeepsFlags(s);
    }
  }

  /** A poll hands out a reset exactly when a stop that was due has been serviced since the last reset. */
  lemma {:induction false} ResetHandedIff(s: State, steps: seq<Step>)
    requires !s.resetDue
    ensures HandedBy(AfterAll(s, steps), Poll) == Some(Reset) <==> exists i: nat :: ResetOwed(s, steps, i)
  {
    if steps != [] {
      var n := |steps| - 1;
      var before, step := AfterAll(s, steps[..n]), steps[n];
      ResetHandedIff(s, steps[..n]);
      LastStep(s, steps);
      StepMovesReset(before, step);
      assert GivesAt(s, steps, n, Reset) <==> HandedBy(before, step) == Some(Reset);
      if step.ServiceStop? && before.stopDue {
        assert ResetOwed(s, steps, n);
      }
      forall i: nat | i < n
        ensures ResetOwed(s, steps, i) <==> ResetOwed(s, steps[..n], i) && !GivesAt(s, steps, n, Reset)
      {
        assert steps[..n][..i] == steps[..i];
        NoneGivenLast(s, steps, i + 1, Reset);
      }
      forall i: nat | ResetOwed(s, steps[..n], i) ensures i < n {
      }
      forall i: nat | ResetOwed(s, steps, i) ensures i <= n {
      }
    }
  }

  // ---------------------------------------------------------------- what the window shows

  predicate Opening(e: Event) {
    e.Launching? || e.Starting?
  }

  /** The drawing commands among the events, in order. */
  function Draws(events: seq<Event>): seq<Command> {
    if events == [] then []
    else
      var last := events[|events| - 1];
      Draws(events[..|events| - 1]) + if last.Painting? then [Draw(last.op)] else []
  }

  /** The first event since the last close that opens the session is the `p`-th. */
  predicate FirstOpening(events: seq<Event>, p: nat) {
    p < |events| && Opening(events[p]) && forall i :: 0 <= i < p ==> !Opening(events[i])
  }

  /** The timer runs when a loop was started since the close; shown is what was drawn since the session was
      opened. */
  ghost predicate Shows(s: State, events: seq<Event>) {
    var e := SinceClose(events);
    s.window.Some? ==>
      && s.window.value.timer == (Starting in e)
      && forall p: nat :: FirstOpening(e, p) ==> s.window.value.drawn == Draws(e[p..])
  }

  lemma {:induction false} DrawsAppend(events: seq<Event>, e: Event)
    ensures Draws(events + [e]) == Draws(events) + if e.Painting? then [Draw(e.op)] else []
  {
    assert (events + [e])[..|events|] == events;
  }

  lemma {:induction false} NotShownYet(events: seq<Event>, p: nat)
    requires FirstOpening(events, p) && !Shown(events)
    ensures Draws(events[p..]) == []
    decreases |events|
  {
    var n := |events| - 1;
    assert events[n].Painting? ==> n <= p;
    if p < n {
      assert events[p..][..n - p] == events[..n][p..];
      ShownAppend(events[..n], events[n]);
      assert events[..n] + [events[n]] == events;
      NotShownYet(events[..n], p);
    } else {
      assert events[p..] == [] + [events[p]];
      DrawsAppend([], events[p]);
    }
  }

  /** What one more event does to the window. */
  predicate MovesWindow(s: State, t: State, e: Event) {
    match e
    case Closing => t.window == None
    case Launching => t.window == s.window
    case Starting => t.window == TimerStarted(PaneEnsured(s)).window
    case Painting(op) => t.window == Applied(s, Draw(op)).window
  }

  /** It is what the event adds to the account: to a window that was open already, */
  lemma {:induction false} OpenedBefore(s: State, t: State, events: seq<Event>, e: Event, p: nat)
    requires Told(s, events) && Shows(s, events) && MovesWindow(s, t, e) && t.window.Some? && e != Closing
    requires p < |SinceClose(events)| && FirstOpening(SinceClose(events) + [e], p)
    ensures t.window.value.drawn == Draws((SinceClose(events) + [e])[p..])
  {
    var was := SinceClose(events);
    assert (was + [e])[p] == was[p] && forall i :: 0 <= i < p ==> (was + [e])[i] == was[i];
    assert FirstOpening(was, p) && (was + [e])[p..] == was[p..] + [e];
    DrawsAppend(was[p..], e);
    if s.window.None? {
      NotShownYet(was, p);
    }
  }

  lemma {:induction false} NothingOpened(was: seq<Event>, e: Event)
    requires FirstOpening(was + [e], |was|)
    ensures !Shown(was) && Opening(e)
  {
    assert forall i :: 0 <= i < |was| ==> was[i] == (was + [e])[i];
  }

  /** and to one it opens. */
  lemma {:induction false} OpenedNow(s: State, t: State, events: seq<Event>, e: Event)
    requires Told(s, events) && MovesWindow(s, t, e) && t.window.Some? && e != Closing
    requires FirstOpening(SinceClose(events) + [e], |SinceClose(events)|)
    ensures t.window.value.drawn == Draws((SinceClose(events) + [e])[|SinceClose(events)|..])
  {
    var was := SinceClose(events);
    NothingOpened(was, e);
    assert s.window.None?;
    assert (was + [e])[|was|..] == [] + [e];
    DrawsAppend([], e);
  }

  lemma {:induction false} TimerMoves(s: State, t: State, events: seq<Event>, e: Event)
    requires Told(s, events) && Shows(s, events) && MovesWindow(s, t, e) && t.window.Some? && e != Closing
    ensures t.window.value.timer == (Starting in SinceClose(events) + [e])
  {
    var was := SinceClose(events);
    assert Starting in was + [e] <==> Starting in was || e == Starting;
  }

  lemma {:induction false} EventShows(s: State, t: State, events: seq<Event>, e: Event)
    requires Told(s, events) && Shows(s, events) && MovesWindow(s, t, e)
    ensures Shows(t, events + [e])
  {
    var was := SinceClose(events);
    SinceCloseAppend(events, e);
    if e != Closing && t.window.Some? {
      TimerMoves(s, t, events, e);
      forall p: nat | FirstOpening(was + [e], p) ensures t.window.value.drawn == Draws((was + [e])[p..]) {
        if p < |was| {
          OpenedBefore(s, t, events, e, p);
        } else {
          OpenedNow(s, t, events, e);
        }
      }
    }
  }

  lemma {:induction false} CommandShows(s: State, events: seq<Event>, c: Command)
    requires Told(s, events) && Shows(s, events)
    ensures Shows(Applied(s, c), events + EventOf(c))
  {
    if c.Audio? {
      assert events + [] == events;
    } else {
      EventShows(s, Applied(s, c), events, EventOf(c)[0]);
    }
  }

  lemma {:induction false} CommandsShow(s: State, events: seq<Event>, cmds: seq<Command>)
    requires Told(s, events) && Shows(s, events)
    ensures Shows(AppliedAll(s, cmds), events + EventsOf(cmds))
  {
    if cmds == [] {
      assert events + [] == events;
    } else {
      var before, c := cmds[..|cmds| - 1], cmds[|cmds| - 1];
      CommandsTold(s, events, before);
      CommandsShow(s, events, before);
      CommandShows(AppliedAll(s, before), events + EventsOf(before), c);
      assert events + EventsOf(before) + EventOf(c) == events + EventsOf(cmds);
    }
  }

  lemma {:induction false} StepShows(s: State, events: seq<Event>, step: Step)
    requires Told(s, events) && Shows(s, events)
    ensures Shows(After(s, step), events + StepEvents(s, step))
  {
    if step.Drain? {
      CommandsShow(s.(cmds := []), events, s.cmds);
    } else if step.ServiceStop? && s.stopDue {
      EventShows(s, After(s, step), events, Closing);
    } else if step.Poll? && Launches(s) {
      EventShows(s, After(s, step), events, Launching);
    } else {
      assert After(s, step).window == s.window;
      assert events + [] == events;
    }
  }

  lemma {:induction false} RunShows(s: State, events: seq<Event>, steps: seq<Step>)
    requires Told(s, events) && Shows(s, events)
    ensures Shows(AfterAll(s, steps), events + Events(s, steps))
    decreases |steps|
  {
    if steps == [] {
      assert events + [] == events;
    } else {
      var now, t := StepEvents(s, steps[0]), After(s, steps[0]);
      StepTold(s, events, steps[0]);
      StepShows(s, events, steps[0]);
      RunShows(t, events + now, steps[1..]);
      Regroup(events, now, Events(t, steps[1..]));
    }
  }

  /** In every run from the start an open window shows the drawing commands drained since the session it
      belongs to was first opened, in order, and its timer runs exactly when a StartLoop was drained since
      the last close. */
  lemma {:induction false} WindowShowsItsSession(device: bool, steps: seq<Step>) returns (p: nat)
    requires AfterAll(START.(device := device), steps).window.Some?
    ensures var start := START.(device := device);
            var e, pane := SinceClose(Events(start, steps)), AfterAll(start, steps).window.value;
            FirstOpening(e, p) && pane == Pane(Starting in e, Draws(e[p..]))
  {
    var start := START.(device := device);
    RunTold(start, [], steps);
    RunShows(start, [], steps);
    assert [] + Events(start, steps) == Events(start, steps);
    p := FindOpening(SinceClose(Events(start, steps)));
  }

  lemma {:induction false} FindOpening(events: seq<Event>) returns (p: nat)
    requires Starting in events || Launching in events
    ensures FirstOpening(events, p)
  {
    if Opening(events[0]) {
      p := 0;
    } else {
      p := FindOpening(events[1..]);
      p := p + 1;
    }
  }
}

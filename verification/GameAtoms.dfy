/** The game pane's stop and poll at the granularity of single atomic accesses: what interleaves when the
    main thread closes a session while the primary asks what to run next. */
module GameAtoms {
  import opened Game
  import opened Options

  // ---------------------------------------------------------------- one stop and one poll

  /** How many of the five atomic accesses of a stop that is due have happened: the stop flag is swapped,
      the session closed, the window taken, the loop marked inactive, the reset flagged. */
  function StopAtom(s: State, done: nat): State {
    if done == 0 then s.(stopDue := false)
    else if done == 1 then s.(session := false)
    else if done == 2 then s.(window := None)
    else if done == 3 then s.(active := false)
    else if done == 4 then s.(resetDue := true)
    else s
  }

  /** The atomic access a poll makes next, or its answer. */
  datatype Poller =
    | AtReset
    | AtActive
    | AtPending
    | AtSession(entry: string)
    | AtStep
    | AtMask
    | Answered(answer: Option<Handed>)

  function PollAtom(s: State, p: Poller): (State, Poller) {
    match p
    case AtReset => if s.resetDue then (s.(resetDue := false), Answered(Some(Reset))) else (s, AtActive)
    case AtActive => (s, if s.active then AtStep else AtPending)
    case AtPending =>
      if s.pending.Some? then (s.(pending := None), AtSession(s.pending.value)) else (s, Answered(None))
    case AtSession(entry) => (s.(session := true), Answered(Some(Launch(entry))))
    case AtStep => if s.stepDue then (s.(stepDue := false), AtMask) else (s, Answered(None))
    case AtMask => (s, Answered(Some(Frame(s.mask))))
    case Answered(_) => (s, p)
  }

  datatype Fine = Fine(s: State, done: nat, p: Poller)

  function OneTurn(f: Fine, main: bool): Fine {
    if main then Fine(StopAtom(f.s, f.done), if f.done < 5 then f.done + 1 else 5, f.p)
    else Fine(PollAtom(f.s, f.p).0, f.done, PollAtom(f.s, f.p).1)
  }

  /** A stop and a poll interleaved: `true` is the main thread's turn, `false` the primary's. */
  function Interleaved(f: Fine, turns: seq<bool>): Fine
    decreases |turns|
  {
    if turns == [] then f else Interleaved(OneTurn(f, turns[0]), turns[1..])
  }

  /** Run without interruption the atomic accesses are the coarse steps. */
  lemma {:induction false} AtomsAreSteps(s: State)
    requires s.stopDue
    ensures StopAtom(StopAtom(StopAtom(StopAtom(StopAtom(s, 0), 1), 2), 3), 4) == StopServiced(s)
    ensures var (s1, p1) := PollAtom(s, AtReset);
            var (s2, p2) := PollAtom(s1, p1);
            var (s3, p3) := PollAtom(s2, p2);
            var (s4, p4) := PollAtom(s3, p3);
            p4 == Answered(Polled(s).1) && s4 == Polled(s).0
  {
  }

  /** The main thread's turns before the primary's next one. */
  function Lead(turns: seq<bool>): nat {
    if turns == [] || !turns[0] then 0 else 1 + Lead(turns[1..])
  }

  function AfterTurn(turns: seq<bool>): seq<bool> {
    if turns == [] then [] else if turns[0] then AfterTurn(turns[1..]) else turns[1..]
  }

  /** A stop is under way, begun with the loop running or not: what it has not touched yet still says
      so. */
  predicate Stopping(f: Fine, running: bool) {
    f.done <= 5 && f.s.active == (running && f.done < 4) && f.s.resetDue == (f.done == 5)
  }

  lemma {:induction false} FromStep(f: Fine, turns: seq<bool>)
    requires f.p.AtStep? || f.p.AtMask?
    ensures var end := Interleaved(f, turns);
            end.p.Answered? ==> end.p.answer == (if f.s.stepDue || f.p.AtMask? then Some(Frame(f.s.mask)) else None)
    decreases |turns|
  {
    if turns != [] {
      if turns[0] {
        FromStep(OneTurn(f, true), turns[1..]);
      } else {
        var (s, p) := PollAtom(f.s, f.p);
        if p.AtMask? {
          FromStep(Fine(s, f.done, p), turns[1..]);
        } else {
          StaysAnswered(Fine(s, f.done, p), turns[1..]);
        }
      }
    }
  }

  lemma {:induction false} StaysAnswered(f: Fine, turns: seq<bool>)
    requires f.p.Answered?
    ensures Interleaved(f, turns).p == f.p
    decreases |turns|
  {
    if turns != [] {
      if turns[0] {
        StaysAnswered(OneTurn(f, true), turns[1..]);
      } else {
        StaysAnswered(Fine(f.s, f.done, f.p), turns[1..]);
      }
    }
  }

  /** Once past the reset check with no reset due, the poll leaves the reset to come. */
  lemma {:induction false} ResetStillDue(f: Fine, turns: seq<bool>)
    requires f.done <= 5 && f.s.resetDue == (f.done == 5) && !f.p.AtReset?
    ensures var end := Interleaved(f, turns); end.s.resetDue == (end.done == 5)
    decreases |turns|
  {
    if turns != [] {
      if turns[0] {
        ResetStillDue(OneTurn(f, true), turns[1..]);
      } else {
        var (s, p) := PollAtom(f.s, f.p);
        ResetStillDue(Fine(s, f.done, p), turns[1..]);
      }
    }
  }

  lemma {:induction false} FromPending(f: Fine, turns: seq<bool>, entry: string)
    requires f.done <= 5
    requires (f.p.AtPending? && f.s.pending == Some(entry)) || f.p == AtSession(entry)
    ensures var end := Interleaved(f, turns); end.p.Answered? ==> end.p.answer == Some(Launch(entry))
    decreases |turns|
  {
    if turns != [] {
      if turns[0] {
        FromPending(OneTurn(f, true), turns[1..], entry);
      } else {
        var (s, p) := PollAtom(f.s, f.p);
        if f.p.AtSession? {
          StaysAnswered(Fine(s, f.done, p), turns[1..]);
        } else {
          FromPending(Fine(s, f.done, p), turns[1..], entry);
        }
      }
    }
  }

  lemma {:induction false} FromActive(f: Fine, turns: seq<bool>, entry: string, running: bool)
    requires Stopping(f, running) && f.p.AtActive? && f.s.pending == Some(entry)
    ensures var end := Interleaved(f, turns);
            end.p.Answered? ==>
              end.p.answer == if !running || f.done + Lead(turns) >= 4 then Some(Launch(entry))
                              else if f.s.stepDue then Some(Frame(f.s.mask)) else None
    decreases |turns|
  {
    if turns != [] {
      if turns[0] {
        FromActive(OneTurn(f, true), turns[1..], entry, running);
      } else if f.s.active {
        FromStep(Fine(f.s, f.done, AtStep), turns[1..]);
      } else {
        FromPending(Fine(f.s, f.done, AtPending), turns[1..], entry);
      }
    }
  }

  /** At this granularity a launch overtakes the reset, for a stop and a poll that interleave in any
      way, exactly when the poll checks for a reset before the stop has flagged one and reads the loop
      inactive: because it was not running to begin with, or after the stop has cleared it. The reset then
      still comes, to the demo just launched. */
  lemma {:induction false} LaunchOvertakesResetIff(s: State, turns: seq<bool>, entry: string)
    requires !s.resetDue && s.stopDue && s.pending == Some(entry)
    ensures var end := Interleaved(Fine(s, 0, AtReset), turns);
            var atCheck := Lead(turns);
            var atRead := Lead(turns) + Lead(AfterTurn(turns));
            end.p.Answered? ==>
              && (end.p.answer == Some(Launch(entry)) <==> atCheck < 5 && (!s.active || atRead >= 4))
              && (end.p.answer == Some(Reset) <==> atCheck >= 5)
              && (end.p.answer == Some(Launch(entry)) && end.done == 5 ==> end.s.resetDue)
  {
    FromReset(Fine(s, 0, AtReset), turns, entry, s.active);
  }

  lemma {:induction false} FromReset(f: Fine, turns: seq<bool>, entry: string, running: bool)
    requires Stopping(f, running) && f.p.AtReset? && f.s.pending == Some(entry)
    ensures var end := Interleaved(f, turns);
            var atCheck := f.done + Lead(turns);
            var atRead := f.done + Lead(turns) + Lead(AfterTurn(turns));
            end.p.Answered? ==>
              && (end.p.answer == Some(Launch(entry)) <==> atCheck < 5 && (!running || atRead >= 4))
              && (end.p.answer == Some(Reset) <==> atCheck >= 5)
              && (end.p.answer == Some(Launch(entry)) && end.done == 5 ==> end.s.resetDue)
    decreases |turns|
  {
    if turns != [] {
      if turns[0] {
        FromReset(OneTurn(f, true), turns[1..], entry, running);
      } else if f.s.resetDue {
        StaysAnswered(Fine(PollAtom(f.s, f.p).0, f.done, PollAtom(f.s, f.p).1), turns[1..]);
      } else {
        FromActive(Fine(f.s, f.done, AtActive), turns[1..], entry, running);
        ResetStillDue(Fine(f.s, f.done, AtActive), turns[1..]);
      }
    }
  }

  /** Such an interleaving: the whole poll between the stop's last two accesses. */
  lemma {:induction false} LaunchOvertakesReset(s: State, entry: string)
    requires s.active && !s.resetDue && s.stopDue && s.pending == Some(entry)
    ensures var turns := [true, true, true, true, false, false, false, false, true];
            var end := Interleaved(Fine(s, 0, AtReset), turns);
            end.p == Answered(Some(Launch(entry))) && end.done == 5 && end.s.resetDue && Polled(end.s).1 == Some(Reset)
  {
    var s4 := StopAtom(StopAtom(StopAtom(StopAtom(s, 0), 1), 2), 3);
    var launched := s4.(pending := None, session := true);
    FourTurns(Fine(s, 0, AtReset), true, [false, false, false, false, true]);
    FourTurns(Fine(s4, 4, AtReset), false, [true]);
    OneMore(Fine(launched, 4, Answered(Some(Launch(entry)))), true, []);
  }

  lemma {:induction false} OneMore(f: Fine, main: bool, rest: seq<bool>)
    ensures Interleaved(f, [main] + rest) == Interleaved(OneTurn(f, main), rest)
  {
    assert ([main] + rest)[1..] == rest;
  }

  lemma {:induction false} FourTurns(f: Fine, main: bool, rest: seq<bool>)
    ensures Interleaved(f, [main, main, main, main] + rest)
            == Interleaved(OneTurn(OneTurn(OneTurn(OneTurn(f, main), main), main), main), rest)
  {
    var f1 := OneTurn(f, main);
    var f2 := OneTurn(f1, main);
    OneMore(f, main, [main, main, main] + rest);
    OneMore(f1, main, [main, main] + rest);
    OneMore(f2, main, [main] + rest);
    OneMore(OneTurn(f2, main), main, rest);
    assert [main] + ([main, main, main] + rest) == [main, main, main, main] + rest;
    assert [main] + ([main, main] + rest) == [main, main, main] + rest;
    assert [main] + ([main] + rest) == [main, main] + rest;
  }

  /** The main thread's turns before the primary's `k`-th one. */
  function MainsBefore(turns: seq<bool>, k: nat): nat {
    if turns == [] || k == 0 then 0
    else if turns[0] then 1 + MainsBefore(turns[1..], k)
    else MainsBefore(turns[1..], k - 1)
  }

  predicate IsLaunch(p: Poller) {
    p.Answered? && p.answer.Some? && p.answer.value.Launch?
  }

  lemma {:induction false} SessionAfterAnswer(f: Fine, turns: seq<bool>)
    requires f.p.Answered? && f.done <= 5
    ensures var end := Interleaved(f, turns);
            end.done == 5 ==> (end.s.session <==> f.s.session && f.done >= 2)
    decreases |turns|
  {
    if turns != [] {
      if turns[0] {
        SessionAfterAnswer(OneTurn(f, true), turns[1..]);
      } else {
        SessionAfterAnswer(f, turns[1..]);
      }
    }
  }

  /** The primary's turns up to and including the one that opens the session. */
  function TurnsLeft(p: Poller): nat {
    match p case AtReset => 4 case AtActive => 3 case AtPending => 2 case _ => 1
  }

  lemma {:induction false} SessionFrom(f: Fine, turns: seq<bool>)
    requires f.done <= 5 && (f.p.AtReset? || f.p.AtActive? || f.p.AtPending? || f.p.AtSession?)
    ensures var end := Interleaved(f, turns);
            end.done == 5 && IsLaunch(end.p) ==>
              (end.s.session <==> f.done + MainsBefore(turns, TurnsLeft(f.p)) >= 2)
    decreases |turns|
  {
    if turns != [] {
      var next := if f.done < 5 then f.done + 1 else 5;
      var (s, p) := PollAtom(f.s, f.p);
      if turns[0] {
        SessionFrom(Fine(StopAtom(f.s, f.done), next, f.p), turns[1..]);
      } else if p.Answered? {
        StaysAnswered(Fine(s, f.done, p), turns[1..]);
        SessionAfterAnswer(Fine(s, f.done, p), turns[1..]);
      } else if p.AtStep? {
        FromStep(Fine(s, f.done, p), turns[1..]);
      } else {
        SessionFrom(Fine(s, f.done, p), turns[1..]);
      }
    }
  }

  /** A demo that a poll launches beside a stop keeps its session exactly when the poll opens it after the
      stop's second access, the one that closes the session: the stop otherwise shuts the new demo's. */
  lemma {:induction false} LaunchKeepsSessionIff(s: State, turns: seq<bool>)
    requires s.stopDue
    ensures var end := Interleaved(Fine(s, 0, AtReset), turns);
            end.done == 5 && IsLaunch(end.p) ==> (end.s.session <==> MainsBefore(turns, 4) >= 2)
  {
    SessionFrom(Fine(s, 0, AtReset), turns);
  }

  // ---------------------------------------------------------------- any number of stops and polls

  /** The main thread's next access in a stop, the primary's next in a poll, or another whole function. */
  datatype Turn = MainTurn | PrimaryTurn | OtherTurn(step: Step)

  predicate BetweenPolls(p: Poller) {
    p.AtReset? || p.Answered?
  }

  /** The thread that runs the function is free for it: the primary emits, all else is the main thread's. */
  predicate Free(f: Fine, step: Step) {
    match step
    case Emit(_) => BetweenPolls(f.p)
    case ServiceStop => false
    case Poll => false
    case _ => f.done == 0
  }

  /** `done` counts the accesses of the stop in progress, and is 0 between stops. */
  function Moves(f: Fine, turn: Turn): Fine {
    match turn
    case MainTurn =>
      if f.done > 0 then Fine(StopAtom(f.s, f.done), if f.done == 4 then 0 else f.done + 1, f.p)
      else if f.s.stopDue then Fine(StopAtom(f.s, 0), 1, f.p)
      else f
    case PrimaryTurn =>
      if f.p.Answered? then f.(p := AtReset) else Fine(PollAtom(f.s, f.p).0, f.done, PollAtom(f.s, f.p).1)
    case OtherTurn(step) => if Free(f, step) then f.(s := After(f.s, step)) else f
  }

  function MovesAll(f: Fine, turns: seq<Turn>): Fine {
    if turns == [] then f else Moves(MovesAll(f, turns[..|turns| - 1]), turns[|turns| - 1])
  }

  /** A run from between a stop and a poll. */
  function Run(s: State, turns: seq<Turn>): Fine {
    MovesAll(Fine(s, 0, AtReset), turns)
  }

  /** What a turn is for a stop, a poll or a launch: a stop begins, or flags its reset; a poll checks for a
      reset, or takes what is pending; a launch is asked for. */
  datatype Access = Begin | Flag | Check | Take | Ask | Silent

  function AccessOf(f: Fine, turn: Turn): Access {
    match turn
    case MainTurn => if f.done == 4 then Flag else if f.done == 0 && f.s.stopDue then Begin else Silent
    case PrimaryTurn => if f.p.AtReset? then Check else if f.p.AtPending? then Take else Silent
    case OtherTurn(step) => if step.RequestLaunch? && Free(f, step) then Ask else Silent
  }

  predicate Makes(f: Fine, turns: seq<Turn>, i: nat, a: Access) {
    i < |turns| && AccessOf(MovesAll(f, turns[..i]), turns[i]) == a
  }

  ghost predicate NoneFrom(f: Fine, turns: seq<Turn>, from: nat, a: Access) {
    forall j: nat :: from <= j < |turns| ==> !Makes(f, turns, j, a)
  }

  /** The last of the accesses `a` and `b` in the run is an `a`; with neither, `before` says so. */
  ghost predicate Outstanding(f: Fine, turns: seq<Turn>, a: Access, b: Access, before: bool) {
    Since(f, turns, a, b) || (before && NoneFrom(f, turns, 0, b))
  }

  ghost predicate Since(f: Fine, turns: seq<Turn>, a: Access, b: Access) {
    exists i: nat :: Makes(f, turns, i, a) && NoneFrom(f, turns, i + 1, b)
  }

  lemma {:induction false} SamePrefix(f: Fine, turns: seq<Turn>, i: nat, a: Access)
    requires i + 1 < |turns|
    ensures Makes(f, turns, i, a) <==> Makes(f, turns[..|turns| - 1], i, a)
  {
    assert turns[..|turns| - 1][..i] == turns[..i];
  }

  lemma {:induction false} NoneFromLast(f: Fine, turns: seq<Turn>, from: nat, a: Access)
    requires from < |turns|
    ensures NoneFrom(f, turns, from, a)
            <==> NoneFrom(f, turns[..|turns| - 1], from, a) && !Makes(f, turns, |turns| - 1, a)
  {
    var n := |turns| - 1;
    forall j: nat | j < n ensures Makes(f, turns, j, a) <==> Makes(f, turns[..n], j, a) {
      SamePrefix(f, turns, j, a);
    }
  }

  lemma {:induction false} SinceLast(f: Fine, turns: seq<Turn>, a: Access, b: Access)
    requires turns != [] && !Makes(f, turns, |turns| - 1, a)
    ensures var n := |turns| - 1;
            Since(f, turns, a, b) <==> Since(f, turns[..n], a, b) && !Makes(f, turns, n, b)
  {
    var n := |turns| - 1;
    if i: nat :| Makes(f, turns, i, a) && NoneFrom(f, turns, i + 1, b) {
      SamePrefix(f, turns, i, a);
      NoneFromLast(f, turns, i + 1, b);
    }
    if i: nat :| Makes(f, turns[..n], i, a) && NoneFrom(f, turns[..n], i + 1, b) {
      SamePrefix(f, turns, i, a);
      NoneFromLast(f, turns, i + 1, b);
    }
  }

  lemma {:induction false} OutstandingLast(f: Fine, turns: seq<Turn>, a: Access, b: Access, before: bool)
    requires turns != [] && a != b
    ensures var n := |turns| - 1;
            Outstanding(f, turns, a, b, before)
            <==> Makes(f, turns, n, a) || (Outstanding(f, turns[..n], a, b, before) && !Makes(f, turns, n, b))
  {
    var n := |turns| - 1;
    if Makes(f, turns, n, a) {
      assert NoneFrom(f, turns, n + 1, b);
      assert Since(f, turns, a, b);
    } else {
      SinceLast(f, turns, a, b);
      NoneFromLast(f, turns, 0, b);
    }
  }

  /** The stop in progress has at most four accesses behind it, and with four the loop is inactive. */
  predicate InStep(f: Fine) {
    f.done < 5 && (f.done == 4 ==> !f.s.active)
  }

  lemma {:induction false} PollFlags(s: State, p: Poller)
    ensures var t := PollAtom(s, p).0;
            && (t.resetDue <==> s.resetDue && !p.AtReset?)
            && (t.pending.Some? <==> s.pending.Some? && !p.AtPending?)
            && t.active == s.active
  {
  }

  lemma {:induction false} StepFlags(s: State, step: Step)
    requires !step.Poll? && !step.ServiceStop?
    ensures var t := After(s, step);
            t.resetDue == s.resetDue && (t.pending.Some? <==> s.pending.Some? || step.RequestLaunch?)
  {
    if step.Drain? {
      DrainKeepsFlags(s);
    }
  }

  lemma {:induction false} EmitKeepsActive(s: State, step: Step)
    requires step.Emit?
    ensures After(s, step).active == s.active
  {
  }

  lemma {:induction false} MoveFlags(f: Fine, turn: Turn)
    requires InStep(f)
    ensures var g, a := Moves(f, turn), AccessOf(f, turn);
            && InStep(g)
            && (g.s.resetDue <==> a == Flag || (f.s.resetDue && a != Check))
            && (g.s.pending.Some? <==> a == Ask || (f.s.pending.Some? && a != Take))
  {
    match turn
    case MainTurn =>
    case PrimaryTurn =>
      PollFlags(f.s, f.p);
    case OtherTurn(step) =>
      if Free(f, step) {
        StepFlags(f.s, step);
        if step.Emit? {
          EmitKeepsActive(f.s, step);
        }
      }
  }

  /** A reset is due exactly when a stop has flagged one since the last check. */
  lemma {:induction false} ResetDueIff(f: Fine, turns: seq<Turn>)
    requires InStep(f)
    ensures InStep(MovesAll(f, turns))
    ensures MovesAll(f, turns).s.resetDue <==> Outstanding(f, turns, Flag, Check, f.s.resetDue)
  {
    if turns == [] {
      assert NoneFrom(f, turns, 0, Check);
    } else {
      var n := |turns| - 1;
      ResetDueIff(f, turns[..n]);
      MoveFlags(MovesAll(f, turns[..n]), turns[n]);
      OutstandingLast(f, turns, Flag, Check, f.s.resetDue);
    }
  }

  /** A launch is pending exactly when one was asked for since the last take. */
  lemma {:induction false} PendingIff(f: Fine, turns: seq<Turn>)
    requires InStep(f)
    ensures InStep(MovesAll(f, turns))
    ensures MovesAll(f, turns).s.pending.Some? <==> Outstanding(f, turns, Ask, Take, f.s.pending.Some?)
  {
    if turns == [] {
      assert NoneFrom(f, turns, 0, Take);
    } else {
      var n := |turns| - 1;
      PendingIff(f, turns[..n]);
      MoveFlags(MovesAll(f, turns[..n]), turns[n]);
      OutstandingLast(f, turns, Ask, Take, f.s.pending.Some?);
    }
  }

  /** What a turn does to the loop: a stop's fourth access clears it, and drained commands start or stop
      it. */
  function MoveEvents(f: Fine, turn: Turn): seq<Event> {
    match turn
    case MainTurn => if f.done == 3 then [Closing] else []
    case PrimaryTurn => []
    case OtherTurn(step) => if Free(f, step) then StepEvents(f.s, step) else []
  }

  function EventsIn(f: Fine, turns: seq<Turn>): seq<Event> {
    if turns == [] then []
    else
      var n := |turns| - 1;
      EventsIn(f, turns[..n]) + MoveEvents(MovesAll(f, turns[..n]), turns[n])
  }

  lemma {:induction false} MainEndsIdle(f: Fine, events: seq<Event>, active: bool)
    requires f.done < 5 && (!f.s.active <==> EndsIdle(active, events))
    ensures !Moves(f, MainTurn).s.active <==> EndsIdle(active, events + MoveEvents(f, MainTurn))
  {
    if f.done == 3 {
      IdleAppend(active, events, Closing);
    } else {
      assert events + [] == events;
    }
  }

  lemma {:induction false} MoveEndsIdle(f: Fine, events: seq<Event>, turn: Turn, active: bool)
    requires f.done < 5 && (!f.s.active <==> EndsIdle(active, events))
    ensures !Moves(f, turn).s.active <==> EndsIdle(active, events + MoveEvents(f, turn))
  {
    match turn
    case MainTurn =>
      MainEndsIdle(f, events, active);
    case PrimaryTurn =>
      PollFlags(f.s, f.p);
      assert events + [] == events;
    case OtherTurn(step) =>
      if Free(f, step) {
        StepEndsIdle(f.s, events, step, active);
      } else {
        assert events + [] == events;
      }
  }

  /** The loop is inactive exactly when the last that stopped or started it was a stop. */
  lemma {:induction false} InactiveIff(f: Fine, turns: seq<Turn>)
    requires InStep(f)
    ensures !MovesAll(f, turns).s.active <==> EndsIdle(f.s.active, EventsIn(f, turns))
  {
    if turns != [] {
      var n := |turns| - 1;
      InactiveIff(f, turns[..n]);
      ResetDueIff(f, turns[..n]);
      MoveEndsIdle(MovesAll(f, turns[..n]), EventsIn(f, turns[..n]), turns[n], f.s.active);
    }
  }

  function MainTurns(turns: seq<Turn>): nat {
    if turns == [] then 0
    else MainTurns(turns[..|turns| - 1]) + if turns[|turns| - 1].MainTurn? then 1 else 0
  }

  /** A stop has begun, and the main thread has not had the four turns it still needs. */
  ghost predicate StopUnfinished(f: Fine, turns: seq<Turn>) {
    exists i: nat :: Makes(f, turns, i, Begin) && MainTurns(turns[i..]) < 5
  }

  lemma {:induction false} MainTurnsLast(turns: seq<Turn>, i: nat)
    requires i < |turns|
    ensures MainTurns(turns[i..])
            == MainTurns(turns[..|turns| - 1][i..]) + if turns[|turns| - 1].MainTurn? then 1 else 0
  {
    assert turns[i..][..|turns| - 1 - i] == turns[..|turns| - 1][i..];
  }

  lemma {:induction false} BegunAt(f: Fine, turns: seq<Turn>, i: nat)
    requires Makes(f, turns, i, Begin) && MainTurns(turns[i..]) < 5
    ensures MovesAll(f, turns).done == MainTurns(turns[i..]) > 0
  {
    var n := |turns| - 1;
    MainTurnsLast(turns, i);
    if i < n {
      SamePrefix(f, turns, i, Begin);
      BegunAt(f, turns[..n], i);
    } else {
      assert turns[..n][i..] == [];
    }
  }

  lemma {:induction false} FindBegin(f: Fine, turns: seq<Turn>) returns (i: nat)
    requires f.done == 0 && 0 < MovesAll(f, turns).done < 5
    ensures Makes(f, turns, i, Begin) && MainTurns(turns[i..]) == MovesAll(f, turns).done
  {
    var n := |turns| - 1;
    var before := MovesAll(f, turns[..n]);
    if before.done == 0 {
      i := n;
      assert turns[..n][i..] == [];
    } else {
      i := FindBegin(f, turns[..n]);
      SamePrefix(f, turns, i, Begin);
    }
    MainTurnsLast(turns, i);
  }

  lemma {:induction false} StopUnfinishedIff(f: Fine, turns: seq<Turn>)
    requires f.done == 0
    ensures 0 < MovesAll(f, turns).done < 5 <==> StopUnfinished(f, turns)
  {
    if 0 < MovesAll(f, turns).done < 5 {
      var i := FindBegin(f, turns);
    }
    if i: nat :| Makes(f, turns, i, Begin) && MainTurns(turns[i..]) < 5 {
      BegunAt(f, turns, i);
    }
  }

  // ---------------------------------------------------------------- a launch ahead of a reset

  /** Turn `c` is a poll's check, turn `r` its reading of the loop, and the primary has not moved since. */
  predicate PollAt(f: Fine, turns: seq<Turn>, c: nat, r: nat) {
    && c < r < |turns| && Makes(f, turns, c, Check) && turns[r] == PrimaryTurn
    && forall j :: c < j < |turns| && j != r ==> turns[j] != PrimaryTurn
  }

  lemma {:induction false} PollerWaits(f: Fine, turns: seq<Turn>, k: nat)
    requires k <= |turns| && forall j :: k <= j < |turns| ==> turns[j] != PrimaryTurn
    ensures MovesAll(f, turns).p == MovesAll(f, turns[..k]).p
    decreases |turns|
  {
    if k < |turns| {
      var before := turns[..|turns| - 1];
      PollerWaits(f, before, k);
      assert before[..k] == turns[..k];
    } else {
      assert turns[..k] == turns;
    }
  }

  /** Where the poll is after its check and its reading. */
  lemma {:induction false} PollSoFar(f: Fine, turns: seq<Turn>, c: nat, r: nat)
    requires PollAt(f, turns, c, r)
    ensures var due, active := MovesAll(f, turns[..c]).s.resetDue, MovesAll(f, turns[..r]).s.active;
            MovesAll(f, turns).p == if due then AtReset else if active then AtStep else AtPending
    ensures NoneFrom(f, turns, c + 1, Check)
  {
    assert turns[..c + 1][..c] == turns[..c] && turns[..r + 1][..r] == turns[..r];
    assert turns[..r][..c + 1] == turns[..c + 1];
    PollerWaits(f, turns[..r], c + 1);
    PollerWaits(f, turns, r + 1);
    assert !Makes(f, turns, r, Check);
  }

  ghost predicate FlaggedAfter(f: Fine, turns: seq<Turn>, c: nat) {
    exists i: nat :: c < i && Makes(f, turns, i, Flag)
  }

  lemma {:induction false} FlaggedSinceCheck(f: Fine, turns: seq<Turn>, c: nat, r: nat)
    requires InStep(f) && PollAt(f, turns, c, r)
    ensures MovesAll(f, turns).s.resetDue <==> FlaggedAfter(f, turns, c)
  {
    PollSoFar(f, turns, c, r);
    ResetDueIff(f, turns);
    assert Makes(f, turns, c, Check) && !Makes(f, turns, c, Flag);
    if i: nat :| c < i && Makes(f, turns, i, Flag) {
      assert NoneFrom(f, turns, i + 1, Check);
    }
  }

  /** A stop has begun to close the session and its reset has not been handed out. */
  predicate ResetOutstanding(f: Fine) {
    f.s.resetDue || 0 < f.done < 5
  }

  /** In every interleaving of any number of stops, polls and other functions, a poll takes a launch ahead
      of an outstanding reset exactly when no stop had flagged a reset since the check before its own; of
      what stopped and started the loop before its reading the last was a stop; a launch was asked for
      since the last take; and a stop has flagged its reset since the poll's check, or has begun and not
      finished. */
  lemma {:induction false} LaunchOvertakesSomeResetIff(s: State, turns: seq<Turn>, c: nat, r: nat)
    requires PollAt(Fine(s, 0, AtReset), turns, c, r)
    ensures var start, f := Fine(s, 0, AtReset), Run(s, turns);
            Moves(f, PrimaryTurn).p.AtSession? && ResetOutstanding(f)
            <==> && !Outstanding(start, turns[..c], Flag, Check, s.resetDue)
                 && EndsIdle(s.active, EventsIn(start, turns[..r]))
                 && Outstanding(start, turns, Ask, Take, s.pending.Some?)
                 && (FlaggedAfter(start, turns, c) || StopUnfinished(start, turns))
  {
    var start := Fine(s, 0, AtReset);
    PollSoFar(start, turns, c, r);
    ResetDueIff(start, turns[..c]);
    InactiveIff(start, turns[..r]);
    PendingIff(start, turns);
    FlaggedSinceCheck(start, turns, c, r);
    StopUnfinishedIff(start, turns);
  }

  lemma {:induction false} MovesSplit(f: Fine, a: seq<Turn>, b: seq<Turn>)
    ensures MovesAll(f, a + b) == MovesAll(MovesAll(f, a), b)
  {
    if b == [] {
      assert a + b == a;
    } else {
      MovesSplit(f, a, b[..|b| - 1]);
      assert (a + b)[..|a + b| - 1] == a + b[..|b| - 1];
    }
  }

  /** A poll takes a launch while a loop is running exactly when a StartLoop was drained between its
      reading and its take, and not stopped again. */
  lemma {:induction false} LaunchWhileRunningIff(s: State, turns: seq<Turn>, c: nat, r: nat)
    requires PollAt(Fine(s, 0, AtReset), turns, c, r) && Moves(Run(s, turns), PrimaryTurn).p.AtSession?
    ensures Run(s, turns).s.active <==> Starting in SinceClose(EventsIn(Run(s, turns[..r]), turns[r..]))
  {
    var start, reading := Fine(s, 0, AtReset), Run(s, turns[..r]);
    PollSoFar(start, turns, c, r);
    ResetDueIff(start, turns[..r]);
    InactiveIff(reading, turns[r..]);
    MovesSplit(start, turns[..r], turns[r..]);
    assert turns[..r] + turns[r..] == turns;
    SinceCloseWhole(EventsIn(reading, turns[r..]));
  }

  // ---------------------------------------------------------------- what is handed out afterwards

  function Gives(f: Fine, turn: Turn): seq<Handed> {
    var p := Moves(f, turn).p;
    if turn.PrimaryTurn? && p.Answered? && p.answer.Some? then [p.answer.value] else []
  }

  function HandedOut(f: Fine, turns: seq<Turn>): seq<Handed>
    decreases |turns|
  {
    if turns == [] then [] else Gives(f, turns[0]) + HandedOut(Moves(f, turns[0]), turns[1..])
  }

  /** A reset is due, or the stop that will flag it is under way with nothing pending. */
  predicate Owing(f: Fine) {
    InStep(f) && (f.s.resetDue || (f.done > 0 && f.s.pending.None?))
  }

  /** The most that is handed out before the reset: the answer of the poll in progress, the one frame
      that may be due, and the answer of a poll that checks before the flag and goes on after it. */
  function Late(f: Fine): nat
    requires Owing(f)
  {
    var frame := if f.s.active && f.s.stepDue then 1 else 0;
    if f.s.resetDue then (if BetweenPolls(f.p) then 0 else 1)
    else match f.p
      case AtStep => if f.s.stepDue then 2 else 1
      case AtMask => 2 + frame
      case AtSession(_) => 2 + frame
      case _ => 1 + frame
  }

  lemma {:induction false} MoveKeepsOwing(f: Fine, turn: Turn)
    requires Owing(f) && Gives(f, turn) != [Reset]
    ensures Owing(Moves(f, turn)) && |Gives(f, turn)| + Late(Moves(f, turn)) <= Late(f)
  {
    MoveFlags(f, turn);
  }

  lemma {:induction false} ResetComesWithin(f: Fine, turns: seq<Turn>)
    requires Owing(f)
    ensures var out := HandedOut(f, turns); |out| > Late(f) ==> Reset in out[..Late(f) + 1]
    decreases |turns|
  {
    if turns != [] {
      var now, g := Gives(f, turns[0]), Moves(f, turns[0]);
      if now == [Reset] {
        assert HandedOut(f, turns)[0] == Reset;
      } else {
        MoveKeepsOwing(f, turns[0]);
        ResetComesWithin(g, turns[1..]);
        var rest := HandedOut(g, turns[1..]);
        if |now + rest| > Late(f) {
          assert Reset in rest[..Late(g) + 1];
          var k :| 0 <= k < Late(g) + 1 && rest[k] == Reset;
          assert (now + rest)[..Late(f) + 1][|now| + k] == Reset;
        }
      }
    }
  }

  /** Once flagged, a reset is the next thing that any poll not past its check hands out. */
  lemma {:induction false} FlaggedThenReset(f: Fine, turns: seq<Turn>)
    requires InStep(f) && f.s.resetDue && BetweenPolls(f.p)
    ensures var out := HandedOut(f, turns); out == [] || out[0] == Reset
  {
    ResetComesWithin(f, turns);
  }

  lemma {:induction false} LaunchComesOut(f: Fine, turns: seq<Turn>)
    requires f.p.AtSession?
    ensures var out := HandedOut(f, turns); out == [] || out[0] == Launch(f.p.entry)
    decreases |turns|
  {
    if turns != [] && !turns[0].PrimaryTurn? {
      LaunchComesOut(Moves(f, turns[0]), turns[1..]);
    }
  }

  /** The launch, if it comes out, is followed by the reset. */
  predicate ResetIsNext(out: seq<Handed>) {
    |out| < 2 || out[1] == Reset
  }

  lemma {:induction false} HandedSplit(f: Fine, turn: Turn, rest: seq<Turn>)
    ensures HandedOut(f, [turn] + rest) == Gives(f, turn) + HandedOut(Moves(f, turn), rest)
  {
    assert ([turn] + rest)[1..] == rest;
  }

  /** The stop runs to its end. */
  function Finishing(done: nat): seq<Turn>
    decreases 5 - done
  {
    if done >= 5 then [] else [MainTurn] + Finishing(done + 1)
  }

  function StopFinished(s: State, done: nat): State
    decreases 5 - done
  {
    if done >= 5 then s else StopFinished(StopAtom(s, done), done + 1)
  }

  lemma {:induction false} FinishStop(f: Fine, rest: seq<Turn>)
    requires 0 < f.done < 5
    ensures HandedOut(f, Finishing(f.done) + rest) == HandedOut(Fine(StopFinished(f.s, f.done), 0, f.p), rest)
    decreases 5 - f.done
  {
    var more := Finishing(f.done + 1) + rest;
    assert Finishing(f.done) + rest == [MainTurn] + more;
    HandedSplit(f, MainTurn, more);
    if f.done == 4 {
      assert more == rest;
    } else {
      FinishStop(Moves(f, MainTurn), rest);
    }
  }

  /** With the stop not finished as the launch is taken, a second launch can come out before the reset. */
  lemma {:induction false} SecondLaunchFirst(f: Fine, second: string) returns (more: seq<Turn>)
    requires InStep(f) && f.p.AtSession? && f.done > 0 && !f.s.resetDue
    ensures HandedOut(f, more) == [Launch(f.p.entry), Launch(second)]
  {
    var ask := OtherTurn(RequestLaunch(second));
    var last := [PrimaryTurn, PrimaryTurn, PrimaryTurn];
    var f1 := Moves(f, PrimaryTurn);
    var f2 := Moves(f1, PrimaryTurn);
    var f3 := Moves(f2, PrimaryTurn);
    var f4 := Fine(StopFinished(f3.s, f3.done), 0, f3.p);
    var f5 := Moves(f4, ask);
    StopIsOver(f3);
    assert f5.p == AtActive && !f5.s.active && f5.s.pending == Some(second);
    HandedSplit(f5, PrimaryTurn, [PrimaryTurn, PrimaryTurn]);
    HandedSplit(Moves(f5, PrimaryTurn), PrimaryTurn, [PrimaryTurn]);
    HandedSplit(Moves(Moves(f5, PrimaryTurn), PrimaryTurn), PrimaryTurn, []);
    assert last == [PrimaryTurn] + [PrimaryTurn, PrimaryTurn]
           && [PrimaryTurn, PrimaryTurn] == [PrimaryTurn] + [PrimaryTurn];
    assert [PrimaryTurn] == [PrimaryTurn] + [];
    assert HandedOut(f5, last) == [Launch(second)];
    var asking := [ask] + last;
    HandedSplit(f4, ask, last);
    var finishing := Finishing(f.done) + asking;
    FinishStop(f3, asking);
    HandedSplit(f2, PrimaryTurn, finishing);
    HandedSplit(f1, PrimaryTurn, [PrimaryTurn] + finishing);
    more := [PrimaryTurn] + ([PrimaryTurn] + ([PrimaryTurn] + finishing));
    HandedSplit(f, PrimaryTurn, [PrimaryTurn] + ([PrimaryTurn] + finishing));
  }

  lemma {:induction false} StopIsOver(f: Fine)
    requires InStep(f) && f.done > 0
    ensures var s := StopFinished(f.s, f.done); !s.active && s.pending == f.s.pending && s.resetDue
    decreases 5 - f.done
  {
    if f.done < 4 {
      StopIsOver(Fine(StopAtom(f.s, f.done), f.done + 1, f.p));
    }
  }

  /** After a launch that overtook a reset, whatever follows, the reset is the next thing handed out
      exactly when the stop had flagged it by the take. In any case it comes after at most two more
      answers, and after at most one when no loop was running at the take. */
  lemma {:induction false} ResetIsNextIff(s: State, turns: seq<Turn>, c: nat, r: nat)
    requires PollAt(Fine(s, 0, AtReset), turns, c, r)
    requires Moves(Run(s, turns), PrimaryTurn).p.AtSession? && ResetOutstanding(Run(s, turns))
    ensures var launched := Moves(Run(s, turns), PrimaryTurn);
            && ((forall more :: ResetIsNext(HandedOut(launched, more)))
                <==> FlaggedAfter(Fine(s, 0, AtReset), turns, c))
            && (forall more :: var out := HandedOut(launched, more);
                  && (|out| > 3 ==> Reset in out[..4])
                  && (|out| > 2 && !launched.s.active ==> Reset in out[..3]))
  {
    var f := Run(s, turns);
    var launched := Moves(f, PrimaryTurn);
    ResetDueIff(Fine(s, 0, AtReset), turns);
    FlaggedSinceCheck(Fine(s, 0, AtReset), turns, c, r);
    forall more
      ensures var out := HandedOut(launched, more);
              && (f.s.resetDue ==> ResetIsNext(out))
              && (|out| > 3 ==> Reset in out[..4])
              && (|out| > 2 && !launched.s.active ==> Reset in out[..3])
    {
      ResetComesWithin(launched, more);
      LaunchComesOut(launched, more);
    }
    if !f.s.resetDue {
      var more := SecondLaunchFirst(launched, "");
      assert !ResetIsNext(HandedOut(launched, more));
    }
  }

  // ---------------------------------------------------------------- runs without overlap

  /** The turn does not come in the middle of the other thread's stop or poll. */
  predicate NoOverlap(f: Fine, turn: Turn) {
    match turn
    case MainTurn => BetweenPolls(f.p)
    case PrimaryTurn => f.done == 0
    case OtherTurn(_) => BetweenPolls(f.p)
  }

  predicate Apart(f: Fine, turns: seq<Turn>)
    decreases |turns|
  {
    turns == [] || (NoOverlap(f, turns[0]) && Apart(Moves(f, turns[0]), turns[1..]))
  }

  /** The whole functions that a run begins. */
  function StepOf(f: Fine, turn: Turn): seq<Step> {
    match turn
    case MainTurn => if f.done == 0 then [ServiceStop] else []
    case PrimaryTurn => if f.p.AtReset? then [Poll] else []
    case OtherTurn(step) => if Free(f, step) then [step] else []
  }

  function StepsOf(f: Fine, turns: seq<Turn>): seq<Step>
    decreases |turns|
  {
    if turns == [] then [] else StepOf(f, turns[0]) + StepsOf(Moves(f, turns[0]), turns[1..])
  }

  /** The poll in progress, or none, run to its answer. */
  function PollFinished(s: State, p: Poller): (State, seq<Handed>) {
    if BetweenPolls(p) then (s, [])
    else
      var (s1, p1) := PollAtom(s, p);
      var (s2, p2) := PollAtom(s1, p1);
      var (s3, p3) := PollAtom(s2, p2);
      (s3, if p3.Answered? && p3.answer.Some? then [p3.answer.value] else [])
  }

  function Finished(f: Fine): State {
    if f.done > 0 then StopFinished(f.s, f.done) else PollFinished(f.s, f.p).0
  }

  lemma {:induction false} AtomKeepsCommands(s: State, done: nat, cmds: seq<Command>)
    ensures StopAtom(s.(cmds := cmds), done) == StopAtom(s, done).(cmds := cmds)
    ensures StopAtom(s, done).cmds == s.cmds
  {
    var t := s.(cmds := cmds);
    if done == 0 {
      assert t.(stopDue := false) == s.(stopDue := false).(cmds := cmds);
    } else if done == 1 {
      assert t.(session := false) == s.(session := false).(cmds := cmds);
    } else if done == 2 {
      assert t.(window := None) == s.(window := None).(cmds := cmds);
    } else if done == 3 {
      assert t.(active := false) == s.(active := false).(cmds := cmds);
    } else if done == 4 {
      assert t.(resetDue := true) == s.(resetDue := true).(cmds := cmds);
    }
  }

  lemma {:induction false} StopKeepsCommands(s: State, done: nat, cmds: seq<Command>)
    ensures StopFinished(s.(cmds := cmds), done) == StopFinished(s, done).(cmds := cmds)
    ensures StopFinished(s, done).cmds == s.cmds
    decreases 5 - done
  {
    if done < 5 {
      AtomKeepsCommands(s, done, cmds);
      StopKeepsCommands(StopAtom(s, done), done + 1, cmds);
    }
  }

  lemma {:induction false} OneStep(s: State, step: Step)
    ensures AfterAll(s, [step]) == After(s, step)
    ensures HandedIn(s, [step]) == if HandedBy(s, step).Some? then [HandedBy(s, step).value] else []
  {
    assert [step][1..] == [];
  }

  lemma {:induction false} ApartMove(f: Fine, turn: Turn)
    requires InStep(f) && (f.done == 0 || BetweenPolls(f.p)) && NoOverlap(f, turn)
    ensures var g, steps := Moves(f, turn), StepOf(f, turn);
            && (g.done == 0 || BetweenPolls(g.p))
            && Finished(g) == AfterAll(Finished(f), steps)
            && PollFinished(f.s, f.p).1 + HandedIn(Finished(f), steps) == Gives(f, turn) + PollFinished(g.s, g.p).1
  {
    if StepOf(f, turn) != [] {
      OneStep(Finished(f), StepOf(f, turn)[0]);
    }
    match turn
    case MainTurn =>
      if f.done == 0 && f.s.stopDue {
        AtomsAreSteps(f.s);
      }
    case PrimaryTurn =>
    case OtherTurn(step) =>
      if step.Emit? {
        StopKeepsCommands(f.s, f.done, f.s.cmds + [step.c]);
      }
  }

  lemma {:induction false} Regroup(a: seq<Handed>, b: seq<Handed>, c: seq<Handed>, d: seq<Handed>, e: seq<Handed>,
                                   x: seq<Handed>, y: seq<Handed>)
    requires a + b == d + e && e + c == x + y
    ensures a + (b + c) == (d + x) + y
  {
    assert a + (b + c) == (a + b) + c;
    assert (d + e) + c == d + (e + c);
  }

  lemma {:induction false} ApartRun(f: Fine, turns: seq<Turn>)
    requires InStep(f) && (f.done == 0 || BetweenPolls(f.p)) && Apart(f, turns)
    ensures var g, steps := MovesAll(f, turns), StepsOf(f, turns);
            && Finished(g) == AfterAll(Finished(f), steps)
            && PollFinished(f.s, f.p).1 + HandedIn(Finished(f), steps) == HandedOut(f, turns) + PollFinished(g.s, g.p).1
    decreases |turns|
  {
    if turns != [] {
      var g, now, rest := Moves(f, turns[0]), StepOf(f, turns[0]), StepsOf(Moves(f, turns[0]), turns[1..]);
      var ending := PollFinished(MovesAll(f, turns).s, MovesAll(f, turns).p).1;
      ApartMove(f, turns[0]);
      MoveFlags(f, turns[0]);
      ApartRun(g, turns[1..]);
      RunsJoin(Finished(f), now, rest);
      MovesSplit(f, [turns[0]], turns[1..]);
      assert [turns[0]] + turns[1..] == turns;
      assert MovesAll(f, [turns[0]]) == g;
      Regroup(PollFinished(f.s, f.p).1, HandedIn(Finished(f), now), HandedIn(Finished(g), rest),
              Gives(f, turns[0]), PollFinished(g.s, g.p).1, HandedOut(g, turns[1..]), ending);
    }
  }

  /** Every run in which no turn comes in the middle of the other thread's stop or poll is a run of whole
      functions: once the last ones are finished it has reached the same state, and handed out the same. */
  lemma {:induction false} ApartRunsAreSteps(s: State, turns: seq<Turn>)
    requires Apart(Fine(s, 0, AtReset), turns)
    ensures var f, steps := Run(s, turns), StepsOf(Fine(s, 0, AtReset), turns);
            && Finished(f) == AfterAll(s, steps)
            && HandedOut(Fine(s, 0, AtReset), turns) + PollFinished(f.s, f.p).1 == HandedIn(s, steps)
            && (f.done == 0 && BetweenPolls(f.p) ==>
                  f.s == AfterAll(s, steps) && HandedOut(Fine(s, 0, AtReset), turns) == HandedIn(s, steps))
  {
    ApartRun(Fine(s, 0, AtReset), turns);
  }

  /** So a stop is followed by its reset in each of them. */
  lemma {:induction false} ApartStopThenReset(s: State, turns: seq<Turn>)
    requires s.stopDue && Apart(Fine(s, 0, AtReset), [MainTurn] + turns)
    ensures var out := HandedOut(Fine(s, 0, AtReset), [MainTurn] + turns); out == [] || out[0] == Reset
  {
    var start := Fine(s, 0, AtReset);
    ApartRunsAreSteps(s, [MainTurn] + turns);
    var rest := StepsOf(Moves(start, MainTurn), turns);
    assert ([MainTurn] + turns)[1..] == turns;
    assert StepsOf(start, [MainTurn] + turns) == [ServiceStop] + rest;
    assert ([ServiceStop] + rest)[1..] == rest;
    assert HandedIn(s, [ServiceStop] + rest) == HandedIn(After(s, ServiceStop), rest);
    StopThenReset(s, rest);
    var out, end := HandedOut(start, [MainTurn] + turns), Run(s, [MainTurn] + turns);
    var ending := PollFinished(end.s, end.p).1;
    assert out + ending == HandedIn(After(s, ServiceStop), rest);
    if out != [] {
      assert (out + ending)[0] == out[0];
    }
  }
}

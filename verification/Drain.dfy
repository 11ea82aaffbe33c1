/** The main thread's drain: it moves the UI worker from one primary generation's inbox to the next
    while every generation may go on sending. */
module Drain {
  import Game

  /** Generations are numbered as their links are sent, from 0; a generation's envelopes as it sends
      them, from 0. */
  datatype Shown = Envelope(generation: nat, number: nat) | Restarted(generation: nat)

  /** Where the main thread is inside a drain. */
  datatype At = Idle | Resyncing | Flushing(link: nat) | Switching(link: nat) | Emptying

  /** A registered generation's inbox and how much it has sent. */
  datatype Sender = Sender(queue: seq<nat>, sent: nat)

  datatype State = State(
    at: At,
    /** The UI worker's adopted role, the recorded id and reply link, and the inbox being drained. */
    role: nat,
    hostedId: nat,
    replyTo: nat,
    inbox: nat,
    /** Links sent and not yet polled. */
    resyncs: seq<nat>,
    senders: seq<Sender>,
    /** For each generation switched away from, how much it had sent when its inbox was last found
        empty. */
    lastDrain: seq<nat>,
    shown: seq<Shown>)

  const START := State(Idle, 0, 0, 0, 0, [], [Sender([], 0)], [], [])

  // ---------------------------------------------------------------- single accesses, interleaved

  /** `Send` by any generation, retired or not; `Link` from the watchdog; `Main` the drain's next
      access. */
  datatype Step = Send(generation: nat) | Link | Main

  function Switched(s: State, link: nat): State {
    s.(role := link, hostedId := link, replyTo := link, inbox := link, at := Resyncing,
       shown := s.shown + [Restarted(link)])
  }

  /** Poll the inbox: dispatch one envelope, or go on to `next` when there is none. */
  function Polled(s: State, next: At): State
    requires s.inbox < |s.senders|
  {
    var from := s.senders[s.inbox];
    if from.queue == [] then s.(at := next)
    else
      s.(senders := s.senders[s.inbox := from.(queue := from.queue[1..])],
         shown := s.shown + [Envelope(s.inbox, from.queue[0])])
  }

  function Noted(s: State): State
    requires s.inbox < |s.senders|
  {
    if s.at.Switching? then s.(lastDrain := s.lastDrain + [s.senders[s.inbox].sent]) else s
  }

  function MainStep(s: State): State
    requires s.inbox < |s.senders|
  {
    match s.at
    case Idle => s.(at := Resyncing)
    case Resyncing =>
      if s.resyncs == [] then s.(at := Emptying)
      else s.(resyncs := s.resyncs[1..], at := Flushing(s.resyncs[0]))
    case Flushing(link) => Noted(Polled(s, Switching(link)))
    case Switching(link) => Switched(s, link)
    case Emptying => Polled(s, Idle)
  }

  function Sent(s: State, g: nat): State {
    if g < |s.senders| then
      var from := s.senders[g];
      s.(senders := s.senders[g := Sender(from.queue + [from.sent], from.sent + 1)])
    else s
  }

  function After(s: State, step: Step): State
    requires s.inbox < |s.senders|
  {
    match step
    case Send(g) => Sent(s, g)
    case Link => s.(resyncs := s.resyncs + [|s.senders|], senders := s.senders + [Sender([], 0)])
    case Main => MainStep(s)
  }

  /** Links wait in order: those after the current inbox's generation and the one in hand. */
  predicate LinksInOrder(s: State) {
    var next := match s.at case Flushing(k) => k + 1 case Switching(k) => k + 1 case _ => s.inbox + 1;
    && s.inbox < |s.senders|
    && next + |s.resyncs| == |s.senders|
    && (forall i :: 0 <= i < |s.resyncs| ==> s.resyncs[i] == next + i)
    && (match s.at case Flushing(k) => k == s.inbox + 1 case Switching(k) => k == s.inbox + 1 case _ => true)
    && |s.lastDrain| == s.inbox + (if s.at.Switching? then 1 else 0)
  }

  lemma {:induction false} StepKeepsLinks(s: State, step: Step)
    requires LinksInOrder(s)
    ensures LinksInOrder(After(s, step))
  {
  }

  function AfterAll(steps: seq<Step>): (s: State)
    ensures LinksInOrder(s)
  {
    if steps == [] then START
    else
      var before := AfterAll(steps[..|steps| - 1]);
      StepKeepsLinks(before, steps[|steps| - 1]);
      After(before, steps[|steps| - 1])
  }

  // ---------------------------------------------------------------- what every run keeps

  /** The numbers of a generation's envelopes, in the order shown. */
  function Numbers(shown: seq<Shown>, g: nat): seq<nat> {
    if shown == [] then []
    else
      var last := shown[|shown| - 1];
      Numbers(shown[..|shown| - 1], g) + if last.Envelope? && last.generation == g then [last.number] else []
  }

  /** 0, 1, ... up to `n`. */
  function UpTo(n: nat): seq<nat> {
    seq(n, i requires 0 <= i < n => i)
  }

  /** Nothing is lost or reordered inside a generation: what was shown, then what is queued, is what was
      sent. */
  predicate Conserved(s: State) {
    forall g :: 0 <= g < |s.senders| ==> Accounted(s, g)
  }

  predicate Accounted(s: State, g: nat)
    requires g < |s.senders|
  {
    Numbers(s.shown, g) + s.senders[g].queue == UpTo(s.senders[g].sent)
  }

  /** Shown items come generation by generation, each later one after its restart note. */
  predicate InOrder(s: State) {
    && (forall i, j :: 0 <= i < j < |s.shown| ==> s.shown[i].generation <= s.shown[j].generation)
    && (forall i, j :: 0 <= i < j < |s.shown| && s.shown[j].Restarted? ==>
          s.shown[i].generation < s.shown[j].generation)
    && (forall i :: 0 <= i < |s.shown| ==> s.shown[i].generation <= s.inbox)
  }

  /** Of a generation whose inbox was found empty before the switch away from it, what it had sent until
      then was shown, and nothing since. */
  predicate LeftBehind(s: State) {
    forall g :: 0 <= g < |s.lastDrain| && g < |s.senders| ==>
      s.lastDrain[g] <= s.senders[g].sent && Numbers(s.shown, g) == UpTo(s.lastDrain[g])
  }

  /** The four fields name one generation. */
  predicate OneGeneration(s: State) {
    s.role == s.hostedId == s.replyTo == s.inbox
  }

  lemma {:induction false} NumbersPush(shown: seq<Shown>, x: Shown, g: nat)
    ensures Numbers(shown + [x], g) == Numbers(shown, g) + if x.Envelope? && x.generation == g then [x.number] else []
  {
    assert (shown + [x])[..|shown|] == shown;
  }

  lemma {:induction false} NumbersBeyond(shown: seq<Shown>, g: nat)
    requires forall i :: 0 <= i < |shown| ==> shown[i].generation < g
    ensures Numbers(shown, g) == []
  {
    if shown != [] {
      NumbersBeyond(shown[..|shown| - 1], g);
    }
  }

  lemma {:induction false} StepKeepsOrder(s: State, step: Step)
    requires LinksInOrder(s) && InOrder(s)
    ensures InOrder(After(s, step))
  {
  }

  lemma {:induction false} SendConserves(s: State, g: nat, h: nat)
    requires h < |s.senders| && Accounted(s, h)
    ensures Accounted(Sent(s, g), h)
  {
    if g == h {
      var from := s.senders[g];
      assert Numbers(s.shown, g) + (from.queue + [from.sent]) == UpTo(from.sent) + [from.sent] == UpTo(from.sent + 1);
    }
  }

  lemma {:induction false} PollConserves(s: State, next: At, h: nat)
    requires s.inbox < |s.senders| && h < |s.senders| && Accounted(s, h)
    ensures Accounted(Polled(s, next), h)
  {
    var queue := s.senders[s.inbox].queue;
    if queue != [] {
      NumbersPush(s.shown, Envelope(s.inbox, queue[0]), h);
      if h == s.inbox {
        assert Numbers(s.shown, h) + [queue[0]] + queue[1..] == Numbers(s.shown, h) + queue;
      } else {
        assert Numbers(s.shown, h) + [] == Numbers(s.shown, h);
      }
    }
  }

  lemma {:induction false} SwitchConserves(s: State, link: nat, h: nat)
    requires h < |s.senders| && Accounted(s, h)
    ensures Accounted(Switched(s, link), h)
  {
    NumbersPush(s.shown, Restarted(link), h);
    assert Numbers(s.shown, h) + [] == Numbers(s.shown, h);
  }

  lemma {:induction false} StepConserves(s: State, step: Step, h: nat)
    requires LinksInOrder(s) && InOrder(s) && (h < |s.senders| ==> Accounted(s, h))
    ensures h < |After(s, step).senders| ==> Accounted(After(s, step), h)
  {
    match step {
      case Send(g) =>
        if h < |s.senders| {
          SendConserves(s, g, h);
        }
      case Link =>
        if h == |s.senders| {
          NumbersBeyond(s.shown, h);
        }
      case Main =>
        if h < |s.senders| {
          if s.at.Flushing? {
            PollConserves(s, Switching(s.at.link), h);
          } else if s.at.Emptying? {
            PollConserves(s, Idle, h);
          } else if s.at.Switching? {
            SwitchConserves(s, s.at.link, h);
          }
        }
    }
  }

  lemma {:induction false} NumbersAreShown(s: State, g: nat)
    requires g < |s.senders| && Accounted(s, g) && s.senders[g].queue == []
    ensures Numbers(s.shown, g) == UpTo(s.senders[g].sent)
  {
    assert Numbers(s.shown, g) + [] == Numbers(s.shown, g);
  }

  lemma {:induction false} StepLeavesBehind(s: State, step: Step)
    requires LinksInOrder(s) && InOrder(s) && Conserved(s) && LeftBehind(s)
    ensures LeftBehind(After(s, step))
  {
    var t := After(s, step);
    forall g | 0 <= g < |t.lastDrain| && g < |t.senders|
      ensures t.lastDrain[g] <= t.senders[g].sent && Numbers(t.shown, g) == UpTo(t.lastDrain[g])
    {
      if g < |s.lastDrain| {
        if |t.shown| > |s.shown| {
          NumbersPush(s.shown, t.shown[|s.shown|], g);
          assert UpTo(s.lastDrain[g]) + [] == UpTo(s.lastDrain[g]);
        }
      } else {
        assert Accounted(s, g);
        NumbersAreShown(s, g);
      }
    }
  }

  lemma {:induction false} Reachable(steps: seq<Step>)
    ensures var s := AfterAll(steps); InOrder(s) && Conserved(s) && LeftBehind(s) && OneGeneration(s)
  {
    if steps == [] {
      assert Accounted(START, 0);
    } else {
      var s, step := AfterAll(steps[..|steps| - 1]), steps[|steps| - 1];
      Reachable(steps[..|steps| - 1]);
      StepKeepsOrder(s, step);
      StepLeavesBehind(s, step);
      forall h | 0 <= h < |After(s, step).senders| ensures Accounted(After(s, step), h) {
        StepConserves(s, step, h);
      }
    }
  }

  ghost predicate NotedAt(shown: seq<Shown>, g: nat, k: nat) {
    k < |shown| && shown[k] == Restarted(g)
  }

  ghost predicate HasNote(shown: seq<Shown>, g: nat) {
    exists k: nat :: NotedAt(shown, g, k)
  }

  /** Every generation the drain switched to has its restart note. */
  lemma {:induction false} EachSwitchIsNoted(steps: seq<Step>, g: nat) returns (k: nat)
    requires 1 <= g <= AfterAll(steps).inbox
    ensures NotedAt(AfterAll(steps).shown, g, k)
  {
    var s, step := AfterAll(steps[..|steps| - 1]), steps[|steps| - 1];
    if g <= s.inbox {
      k := EachSwitchIsNoted(steps[..|steps| - 1], g);
    } else {
      k := |s.shown|;
    }
  }

  /** In every interleaving of drains, sends and links: envelopes are shown generation by generation, in
      send order and at most once within each; every generation switched to has one restart note, after
      all that earlier generations sent and before all its own; and the UI worker's role, id, reply link
      and inbox name one generation. */
  lemma {:induction false} ShownInOrder(steps: seq<Step>)
    ensures var s := AfterAll(steps);
            && (forall i, j :: 0 <= i < j < |s.shown| ==> s.shown[i].generation <= s.shown[j].generation)
            && (forall g :: 0 <= g < |s.senders| ==> Numbers(s.shown, g) <= UpTo(s.senders[g].sent))
            && (forall g: nat :: 1 <= g <= s.inbox ==> HasNote(s.shown, g))
            && (forall g: nat, k: nat, j: nat :: NotedAt(s.shown, g, k) && j < |s.shown| ==>
                  && (j < k ==> s.shown[j].generation < g)
                  && (k < j ==> s.shown[j].generation >= g && s.shown[j] != Restarted(g)))
            && s.role == s.hostedId == s.replyTo == s.inbox
  {
    Reachable(steps);
    var s := AfterAll(steps);
    forall g: nat | 1 <= g <= s.inbox ensures HasNote(s.shown, g) {
      var k := EachSwitchIsNoted(steps, g);
    }
    forall g | 0 <= g < |s.senders| ensures Numbers(s.shown, g) <= UpTo(s.senders[g].sent) {
      assert Accounted(s, g);
    }
  }

  /** Everything a replaced generation sent is delivered exactly when it sent nothing after its inbox was
      last found empty. */
  lemma {:induction false} AllDeliveredIff(steps: seq<Step>, g: nat)
    requires g < AfterAll(steps).inbox
    ensures var s := AfterAll(steps);
            && g < |s.lastDrain| && g < |s.senders|
            && (Numbers(s.shown, g) == UpTo(s.senders[g].sent) <==> s.senders[g].sent == s.lastDrain[g])
  {
    Reachable(steps);
    var s := AfterAll(steps);
    assert |UpTo(s.senders[g].sent)| == s.senders[g].sent && |UpTo(s.lastDrain[g])| == s.lastDrain[g];
  }

  /** Two links, one envelope sent by the first generation between the last empty poll and the switch:
      it is never shown. */
  lemma {:induction false} LateSendIsLost()
    ensures var s1 := After(After(After(After(START, Link), Main), Main), Main);
            var s2 := After(After(After(s1, Send(0)), Main), Main);
            && s1.at == Switching(1) && s2.at == Emptying && s2.inbox == 1 && s2.shown == [Restarted(1)]
            && s2.senders[0].queue == [0]
  {
    var s0 := After(START, Link);
    assert s0.resyncs == [1] && |s0.senders| == 2;
    assert s0.resyncs[1..] == [];
    var s1 := After(After(After(s0, Main), Main), Main);
    assert s1.senders[0] == Sender([], 0);
  }

  // ---------------------------------------------------------------- the drain itself

  function MainSteps(s: State, n: nat): (t: State)
    requires LinksInOrder(s)
    ensures LinksInOrder(t)
  {
    if n == 0 then s
    else
      var before := MainSteps(s, n - 1);
      StepKeepsLinks(before, Main);
      MainStep(before)
  }

  lemma {:induction false} OneMoreStep(s: State, n: nat)
    requires LinksInOrder(s)
    ensures MainSteps(s, n + 1) == MainStep(MainSteps(s, n))
  {
  }

  /** In the flushing and in the last loop an access polls the inbox. */
  lemma {:induction false} PollingStep(s: State, next: At)
    requires s.inbox < |s.senders|
    requires (s.at.Flushing? && next == Switching(s.at.link)) || (s.at.Emptying? && next == Idle)
    ensures s.senders[s.inbox].queue != [] ==> MainStep(s) == Polled(s, s.at)
    ensures s.senders[s.inbox].queue == [] ==> MainStep(s) == Noted(s.(at := next))
  {
  }

  class DrainState {
    var role: nat
    var hostedId: nat
    var toPrimary: nat
    var inbox: nat
    var resyncs: seq<nat>
    var senders: seq<Sender>
    var shown: seq<Shown>
    ghost var at: At
    ghost var lastDrain: seq<nat>

    ghost function View(): State
      reads this
    {
      State(at, role, hostedId, toPrimary, inbox, resyncs, senders, lastDrain, shown)
    }

    /** Dispatch one envelope. */
    method DispatchOne()
      requires inbox < |senders| && senders[inbox].queue != []
      modifies this`senders, this`shown
      ensures View() == Polled(old(View()), at)
      ensures |senders| == old(|senders|) && |senders[inbox].queue| < old(|senders[inbox].queue|)
    {
      var envelope := senders[inbox].queue[0];
      senders := senders[inbox := senders[inbox].(queue := senders[inbox].queue[1..])];
      shown := shown + [Envelope(inbox, envelope)];
    }

    /** The inbox is found empty. */
    ghost method FoundEmpty(next: At)
      requires inbox < |senders| && senders[inbox].queue == []
      modifies this`at, this`lastDrain
      ensures View() == Noted(old(View()).(at := next))
    {
      at := next;
      if next.Switching? {
        lastDrain := lastDrain + [senders[inbox].sent];
      }
    }

    /** Dispatch until the inbox is empty. */
    method DrainInbox(ghost start: State, ghost steps: nat, ghost next: At) returns (ghost n: nat)
      requires LinksInOrder(start) && View() == MainSteps(start, steps)
      requires (at.Flushing? && next == Switching(at.link)) || (at.Emptying? && next == Idle)
      modifies this`senders, this`shown, this`at, this`lastDrain
      ensures View() == MainSteps(start, n)
      ensures at == next && senders[inbox].queue == []
      ensures |senders| == old(|senders|)
    {
      n := steps;
      ghost var from := at;
      while senders[inbox].queue != []
        invariant inbox < |senders| == old(|senders|)
        invariant View() == MainSteps(start, n) && at == from
        decreases |senders[inbox].queue|
      {
        PollingStep(View(), next);
        OneMoreStep(start, n);
        DispatchOne();
        n := n + 1;
      }
      PollingStep(View(), next);
      OneMoreStep(start, n);
      FoundEmpty(next);
      n := n + 1;
    }

    /** Take up the next link: flush the old inbox, then switch over to the new one. */
    method Resync(game: Game.Session, ghost start: State, ghost steps: nat) returns (ghost n: nat)
      requires LinksInOrder(start) && View() == MainSteps(start, steps)
      requires at.Resyncing? && resyncs != []
      modifies this, game
      ensures View() == MainSteps(start, n) && game.View() == Game.Resynced(old(game.View()))
      ensures at.Resyncing? && |resyncs| < old(|resyncs|) && OneGeneration(View())
    {
      var link := resyncs[0];
      resyncs := resyncs[1..];
      at := Flushing(link);
      game.StopForResync();
      n := DrainInbox(start, steps + 1, Switching(link));
      SwitchTo(link);
      n := n + 1;
    }

    /** The four fields together, never a torn mix. */
    method SwitchTo(link: nat)
      modifies this`role, this`hostedId, this`toPrimary, this`inbox, this`shown, this`at
      ensures View() == Switched(old(View()), link)
    {
      role := link;
      hostedId := link;
      toPrimary := link;
      inbox := link;
      shown := shown + [Restarted(link)];
      at := Resyncing;
    }

    /** Take up every waiting link. */
    method ResyncAll(game: Game.Session, ghost start: State, ghost steps: nat) returns (ghost n: nat)
      requires LinksInOrder(start) && View() == MainSteps(start, steps)
      requires at.Resyncing? && OneGeneration(View())
      modifies this, game
      ensures View() == MainSteps(start, n)
      ensures at.Resyncing? && resyncs == [] && OneGeneration(View())
      ensures game.View() == if old(resyncs) == [] then old(game.View()) else Game.Resynced(old(game.View()))
    {
      n := steps;
      ghost var links, was := resyncs, game.View();
      while resyncs != []
        invariant View() == MainSteps(start, n)
        invariant at.Resyncing? && OneGeneration(View()) && |resyncs| <= |links|
        invariant game.View() == if |resyncs| == |links| then was else Game.Resynced(was)
        decreases |resyncs|
      {
        n := Resync(game, start, n);
      }
    }

    /** With no other thread running, one whole drain: it is a run of the accesses above, leaves the UI
        worker on the newest generation with an empty inbox, and stops the game of a replaced primary
        before the game's queue is drained. */
    method DrainPerform(game: Game.Session) returns (ghost n: nat)
      requires LinksInOrder(View()) && OneGeneration(View()) && at.Idle?
      modifies this, game
      ensures View() == MainSteps(old(View()), n)
      ensures at.Idle? && resyncs == [] && inbox + 1 == |senders| && senders[inbox].queue == []
      ensures OneGeneration(View())
      ensures var was := old(game.View());
              game.View() == Game.Drained(Game.StopServiced(if old(resyncs) == [] then was else Game.Resynced(was)))
    {
      ghost var start := View();
      at := Resyncing;
      n := ResyncAll(game, start, 1);
      at, n := Emptying, n + 1;
      n := DrainInbox(start, n, Idle);
      game.ServiceStopOnMain();
      game.Drain();
    }
  }
}

/** File-ins parked for the next primary generation: a request counter, one slot, and the stamp each
    generation reads when its pump starts. */
module FileIn {
  import opened Options

  datatype Request = Request(path: string, number: nat)

  datatype Slot = Slot(reqSeq: nat, pending: Option<Request>)

  /** What the two accesses of a request leave, what a stamp reads and what a take leaves. */
  function Bumped(slot: Slot): Slot {
    slot.(reqSeq := slot.reqSeq + 1)
  }

  function Parked(slot: Slot, r: Request): Slot {
    slot.(pending := Some(r))
  }

  function StampOf(slot: Slot): nat {
    slot.reqSeq
  }

  function Taken(slot: Slot): Slot {
    slot.(pending := None)
  }

  /** What a generation with this birth stamp may take. */
  function Due(slot: Slot, birth: nat): Option<Request> {
    if slot.pending.Some? && slot.pending.value.number <= birth then slot.pending else None
  }

  class Parking {
    var reqSeq: nat
    var pendingFileIn: Option<Request>

    ghost function View(): Slot
      reads this
    {
      Slot(reqSeq, pendingFileIn)
    }

    constructor ()
      ensures View() == Slot(0, None)
    {
      reqSeq, pendingFileIn := 0, None;
    }

    /** The first of a request's two atomic accesses. */
    method Bump() returns (number: nat)
      modifies this`reqSeq
      ensures View() == Bumped(old(View())) && number == reqSeq
    {
      reqSeq := reqSeq + 1;
      number := reqSeq;
    }

    /** The second. */
    method Park(path: string, number: nat)
      modifies this`pendingFileIn
      ensures View() == Parked(old(View()), Request(path, number))
    {
      pendingFileIn := Some(Request(path, number));
    }

    method RequestAfterRestart(path: string)
      modifies this
      ensures View() == Parked(Bumped(old(View())), Request(path, old(reqSeq) + 1))
    {
      var number := Bump();
      Park(path, number);
    }

    /** A stamp counts every request bumped so far, parked or not, and none bumped later. */
    method BirthStamp() returns (birth: nat)
      ensures birth == StampOf(View())
      ensures forall r: Request :: Due(Parked(View(), r), birth) == Some(r) <==> r.number <= reqSeq
    {
      birth := reqSeq;
    }

    method TakeFor(birth: nat) returns (path: Option<string>)
      modifies this`pendingFileIn
      ensures var due := Due(old(View()), birth);
              if due.Some? then path == Some(due.value.path) && View() == Taken(old(View()))
              else path == None && View() == old(View())
    {
      if pendingFileIn.Some? && pendingFileIn.value.number <= birth {
        path := Some(pendingFileIn.value.path);
        pendingFileIn := None;
      } else {
        path := None;
      }
    }
  }

  // ---------------------------------------------------------------- every interleaving

  /** A file-in carried out: by whom, what, and how many requests had been parked by then. */
  datatype Ran = Ran(generation: nat, request: Request, parks: nat)

  /** Requests bumped and not yet parked, every park so far, the generations that registered with the
      watchdog, their stamps, and what ran. */
  datatype State = State(
    slot: Slot,
    inFlight: seq<Request>,
    parked: seq<Request>,
    registered: set<nat>,
    births: map<nat, nat>,
    ran: seq<Ran>)

  const START := State(Slot(0, None), [], [], {}, map[], [])

  /** The threads' atomic accesses, in any order: requesters bump and park, generations register, then
      stamp, then take. */
  datatype Step =
    | Bump(path: string)
    | Park(i: nat)
    | Register(generation: nat)
    | Stamp(generation: nat)
    | Take(generation: nat)

  function After(s: State, step: Step): State {
    match step
    case Bump(path) =>
      s.(slot := Bumped(s.slot), inFlight := s.inFlight + [Request(path, Bumped(s.slot).reqSeq)])
    case Park(i) =>
      if i < |s.inFlight| then
        s.(slot := Parked(s.slot, s.inFlight[i]), inFlight := s.inFlight[..i] + s.inFlight[i + 1..],
           parked := s.parked + [s.inFlight[i]])
      else s
    case Register(g) => s.(registered := s.registered + {g})
    case Stamp(g) => if g in s.births || g !in s.registered then s else s.(births := s.births[g := StampOf(s.slot)])
    case Take(g) =>
      if g in s.births && Due(s.slot, s.births[g]).Some? then
        s.(slot := Taken(s.slot), ran := s.ran + [Ran(g, s.slot.pending.value, |s.parked|)])
      else s
  }

  function AfterAll(s: State, steps: seq<Step>): State {
    if steps == [] then s else After(AfterAll(s, steps[..|steps| - 1]), steps[|steps| - 1])
  }

  /** No request is at once in flight, parked or counted twice. */
  predicate Unique(s: State) {
    && (forall i, j :: 0 <= i < j < |s.inFlight| ==> s.inFlight[i].number != s.inFlight[j].number)
    && (forall i, j :: 0 <= i < j < |s.parked| ==> s.parked[i].number != s.parked[j].number)
    && (forall i, j :: 0 <= i < |s.inFlight| && 0 <= j < |s.parked| ==> s.inFlight[i].number != s.parked[j].number)
    && (forall i :: 0 <= i < |s.inFlight| ==> s.inFlight[i].number <= s.slot.reqSeq)
    && (forall i :: 0 <= i < |s.parked| ==> s.parked[i].number <= s.slot.reqSeq)
  }

  /** What ran was the newest parked request at the time, and no request ran at two parks. */
  predicate RanNewest(s: State) {
    && (s.slot.pending.Some? ==> s.parked != [] && s.slot.pending.value == s.parked[|s.parked| - 1])
    && (forall k :: 0 <= k < |s.ran| ==>
          0 < s.ran[k].parks <= |s.parked| && s.ran[k].request == s.parked[s.ran[k].parks - 1])
    && (forall k :: 0 <= k < |s.ran| && s.slot.pending.Some? ==> s.ran[k].parks < |s.parked|)
    && (forall j, k :: 0 <= j < k < |s.ran| ==> s.ran[j].parks < s.ran[k].parks)
  }

  predicate RanByTheYoung(s: State) {
    forall k :: 0 <= k < |s.ran| ==>
      s.ran[k].generation in s.births && s.ran[k].request.number <= s.births[s.ran[k].generation]
  }

  lemma {:induction false} StepKeepsUnique(s: State, step: Step)
    requires Unique(s)
    ensures Unique(After(s, step))
  {
  }

  lemma {:induction false} StepKeepsNewest(s: State, step: Step)
    requires RanNewest(s)
    ensures RanNewest(After(s, step))
  {
  }

  lemma {:induction false} StepKeepsYoung(s: State, step: Step)
    requires RanByTheYoung(s)
    ensures RanByTheYoung(After(s, step))
  {
  }

  lemma {:induction false} Reachable(steps: seq<Step>)
    ensures var s := AfterAll(START, steps); Unique(s) && RanNewest(s) && RanByTheYoung(s)
  {
    if steps != [] {
      var s := AfterAll(START, steps[..|steps| - 1]);
      Reachable(steps[..|steps| - 1]);
      StepKeepsUnique(s, steps[|steps| - 1]);
      StepKeepsNewest(s, steps[|steps| - 1]);
      StepKeepsYoung(s, steps[|steps| - 1]);
    }
  }

  /** In every interleaving of any number of requesters and generations a request runs at most once over
      all generations, and only as the newest one parked. */
  lemma {:induction false} RunsAtMostOnce(steps: seq<Step>)
    ensures var ran, parked := AfterAll(START, steps).ran, AfterAll(START, steps).parked;
            && (forall j, k :: 0 <= j < k < |ran| ==> ran[j].request.number != ran[k].request.number)
            && (forall k :: 0 <= k < |ran| ==>
                  0 < ran[k].parks <= |parked| && ran[k].request == parked[ran[k].parks - 1])
  {
    Reachable(steps);
  }

  // ---------------------------------------------------------------- who may run it

  function Bumps(steps: seq<Step>): nat {
    if steps == [] then 0 else Bumps(steps[..|steps| - 1]) + if steps[|steps| - 1].Bump? then 1 else 0
  }

  lemma {:induction false} CounterCountsBumps(steps: seq<Step>)
    ensures AfterAll(START, steps).slot.reqSeq == Bumps(steps)
  {
    if steps != [] {
      CounterCountsBumps(steps[..|steps| - 1]);
    }
  }

  /** A request's number is the place of its bump among all bumps. */
  predicate IssuedAt(steps: seq<Step>, r: Request, j: nat) {
    j < |steps| && steps[j] == Bump(r.path) && Bumps(steps[..j]) + 1 == r.number
  }

  predicate StampedAt(steps: seq<Step>, g: nat, birth: nat, i: nat) {
    i < |steps| && steps[i] == Stamp(g) && Bumps(steps[..i]) == birth
  }

  lemma {:induction false} WhenIssued(steps: seq<Step>, r: Request) returns (j: nat)
    requires var s := AfterAll(START, steps); r in s.inFlight || r in s.parked
    ensures IssuedAt(steps, r, j)
  {
    var before, last := steps[..|steps| - 1], steps[|steps| - 1];
    var s := AfterAll(START, before);
    if r in s.inFlight || r in s.parked {
      j := WhenIssued(before, r);
      assert steps[..j] == before[..j];
    } else {
      CounterCountsBumps(before);
      j := |before|;
    }
  }

  lemma {:induction false} WhenStamped(steps: seq<Step>, g: nat) returns (i: nat)
    requires g in AfterAll(START, steps).births
    ensures StampedAt(steps, g, AfterAll(START, steps).births[g], i)
  {
    var before := steps[..|steps| - 1];
    if g in AfterAll(START, before).births {
      i := WhenStamped(before, g);
      assert steps[..i] == before[..i];
    } else {
      CounterCountsBumps(before);
      i := |before|;
    }
  }

  lemma {:induction false} BumpsGrow(steps: seq<Step>, i: nat, j: nat)
    requires i <= j <= |steps|
    ensures Bumps(steps[..i]) <= Bumps(steps[..j])
    decreases j - i
  {
    if i < j {
      BumpsGrow(steps, i, j - 1);
      assert steps[..j][..j - 1] == steps[..j - 1];
    }
  }

  /** Whatever ran was requested before the generation that ran it read its stamp. */
  lemma {:induction false} RunByOneStampedAfterTheRequest(steps: seq<Step>, k: nat) returns (j: nat, i: nat)
    requires k < |AfterAll(START, steps).ran|
    ensures var ran := AfterAll(START, steps).ran[k];
            j < i < |steps| && IssuedAt(steps, ran.request, j) && steps[i] == Stamp(ran.generation)
  {
    var s := AfterAll(START, steps);
    Reachable(steps);
    j := WhenIssued(steps, s.ran[k].request);
    i := WhenStamped(steps, s.ran[k].generation);
    if i <= j {
      BumpsGrow(steps, i, j);
    }
  }

  /** In every run, a stamped generation that comes for the parked request takes it exactly when the
      request was bumped before the stamp was read. */
  lemma {:induction false} TakesIffStampedAfterTheRequest(steps: seq<Step>, g: nat) returns (j: nat, i: nat)
    requires var s := AfterAll(START, steps); s.slot.pending.Some? && g in s.births
    ensures var s := AfterAll(START, steps);
            && IssuedAt(steps, s.slot.pending.value, j) && StampedAt(steps, g, s.births[g], i)
            && (After(s, Take(g)).ran == s.ran + [Ran(g, s.slot.pending.value, |s.parked|)] <==> j < i)
            && (After(s, Take(g)) == s <==> i <= j)
  {
    var s := AfterAll(START, steps);
    Reachable(steps);
    j := WhenIssued(steps, s.slot.pending.value);
    i := WhenStamped(steps, g);
    if j < i {
      BumpsGrow(steps, j + 1, i);
      assert steps[..j + 1][..j] == steps[..j];
    } else {
      BumpsGrow(steps, i, j);
    }
  }

  /** The stamp, not the start: a generation that registered before the request runs it when it reads its
      stamp only afterwards. */
  lemma {:induction false} RegisteredBeforeTheRequest(path: string, g: nat)
    ensures var s := After(After(After(After(After(START, Register(g)), Bump(path)), Park(0)), Stamp(g)), Take(g));
            s.ran == [Ran(g, Request(path, 1), 1)]
  {
  }

  // ---------------------------------------------------------------- the last request wins

  predicate OneRequester(steps: seq<Step>) {
    forall n :: 0 <= n <= |steps| ==> |AfterAll(START, steps[..n]).inFlight| <= 1
  }

  predicate ParkedInOrder(s: State) {
    && (forall i, j :: 0 <= i < j < |s.parked| ==> s.parked[i].number < s.parked[j].number)
    && (forall i, j :: 0 <= i < |s.parked| && 0 <= j < |s.inFlight| ==> s.parked[i].number < s.inFlight[j].number)
    && (forall i :: 0 <= i < |s.parked| ==> s.parked[i].number <= s.slot.reqSeq)
    && (forall i :: 0 <= i < |s.inFlight| ==> s.inFlight[i].number <= s.slot.reqSeq)
  }

  lemma {:induction false} StepParksInOrder(s: State, step: Step)
    requires ParkedInOrder(s) && |s.inFlight| <= 1
    ensures ParkedInOrder(After(s, step))
  {
  }

  /** With one requesting thread the newest parked request is the newest request. */
  lemma {:induction false} OneRequesterParksInOrder(steps: seq<Step>)
    requires OneRequester(steps)
    ensures ParkedInOrder(AfterAll(START, steps))
  {
    if steps != [] {
      var before := steps[..|steps| - 1];
      assert forall n :: 0 <= n <= |before| ==> before[..n] == steps[..n];
      OneRequesterParksInOrder(before);
      assert |AfterAll(START, steps[..|before|]).inFlight| <= 1;
      StepParksInOrder(AfterAll(START, before), steps[|before|]);
    }
  }

  /** With two, the slot can be left holding the older request. */
  lemma {:induction false} TwoRequestersMayParkOutOfOrder(older: string, newer: string)
    ensures var s := After(After(After(After(START, Bump(older)), Bump(newer)), Park(1)), Park(0));
            s.slot == Slot(2, Some(Request(older, 1)))
  {
  }
}

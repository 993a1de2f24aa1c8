/**
 The life of one RPC node (common/client/node.go, node_fsm.go, node_lifecycle.go) as a state machine
 over its atomic steps: reading or writing `state` under its lock, one call to the endpoint, one pass
 through a `select`, one wait-group operation.

 A lifecycle goroutine watches the node and hands control to the next one as it leaves. `Close` may
 come between any two steps. What the endpoint answers is part of the event.
 */
module NodeLifecycle {
  datatype NodeState = Undialed | Dialed | InvalidChainID | Alive | Unreachable | OutOfSync | Unusable | Closed

  datatype Target = ToAlive | ToInSync | ToOutOfSync | ToUnreachable | ToInvalidChainID

  datatype Transition = Ignored | Moved(state: NodeState) | Forbidden

  /** The `transitionToX` functions: nothing happens to a closed node, and an unexpected state panics. */
  function TransitionFrom(state: NodeState, target: Target): Transition {
    if state == Closed then Ignored
    else match target
      case ToAlive => if state in {Dialed, InvalidChainID} then Moved(Alive) else Forbidden
      case ToInSync => if state == OutOfSync then Moved(Alive) else Forbidden
      case ToOutOfSync => if state == Alive then Moved(OutOfSync) else Forbidden
      case ToUnreachable =>
        if state in {Undialed, Dialed, Alive, OutOfSync, InvalidChainID} then Moved(Unreachable) else Forbidden
      case ToInvalidChainID => if state in {Dialed, OutOfSync} then Moved(InvalidChainID) else Forbidden
  }

  /** Where a goroutine is. The last two are common to all: about to declare a state, and returned before `Done`. */
  datatype Pc =
    | StartDial | StartSetDialed | StartVerify
    | AliveEntry | AliveSubscribe | AliveSelect
    | OutOfSyncEntry | OutOfSyncDial | OutOfSyncVerify | OutOfSyncSubscribe | OutOfSyncSelect
    | UnreachableEntry | UnreachableSelect | UnreachableDial | UnreachableSetDialed | UnreachableVerify
    | InvalidEntry | InvalidSelect | InvalidVerify
    | Declaring(target: Target)
    | Leaving

  /** The caller of `Start` runs it outside the wait group. */
  datatype Goroutine = Goroutine(isLoop: bool, pc: Pc)

  datatype Panic = NoPanic | TransitionPanic | EntryPanic | VerifyPanic

  datatype Node = Node(state: NodeState, ctxDone: bool, running: seq<Goroutine>, wg: int, panic: Panic)

  /** The node right after `Start` found it undialed. */
  const STARTED := Node(Undialed, false, [Goroutine(false, StartDial)], 0, NoPanic)

  /** How a step turns out: what the endpoint answers, or which case of a `select` is taken. */
  datatype Answer =
    | Ok                       // the call succeeds, the timer fires, or nothing of note arrives
    | Fails                    // the call fails, or the subscription ends
    | WrongChain
    | CtxDone
    | PollsFail                // the poll failure threshold is reached
    | FallsBehind              // out of sync with the best node, or no new heads
    | InSync                   // a head that is not out of sync
    | Zombie                   // the zombie check

  /** `live` is what `nLiveNodes` reports at that moment. */
  datatype Event = Close | Run(i: nat, answer: Answer, live: nat)

  function Entry(target: Target): Pc {
    match target
    case ToAlive | ToInSync => AliveEntry
    case ToOutOfSync => OutOfSyncEntry
    case ToUnreachable => UnreachableEntry
    case ToInvalidChainID => InvalidEntry
  }

  /** The state a loop may be entered in. */
  function EntryState(pc: Pc): NodeState
    requires pc in {AliveEntry, OutOfSyncEntry, UnreachableEntry, InvalidEntry}
  {
    match pc
    case AliveEntry => Alive
    case OutOfSyncEntry => OutOfSync
    case UnreachableEntry => Unreachable
    case InvalidEntry => InvalidChainID
  }

  function AfterEntry(pc: Pc): Pc {
    match pc
    case AliveEntry => AliveSubscribe
    case OutOfSyncEntry => OutOfSyncDial
    case UnreachableEntry => UnreachableSelect
    case _ => InvalidSelect
  }

  predicate Verifies(pc: Pc) {
    pc in {StartVerify, OutOfSyncVerify, UnreachableVerify, InvalidVerify}
  }

  predicate Verifiable(state: NodeState) {
    state in {Dialed, OutOfSync, InvalidChainID}
  }

  /** Where a step that only consults the endpoint or a channel leads. */
  function Follow(pc: Pc, answer: Answer, live: nat, ctxDone: bool): Pc {
    match pc
    case StartDial => if answer == Fails then Declaring(ToUnreachable) else StartSetDialed
    case StartVerify | UnreachableVerify =>
      if answer == WrongChain then Declaring(ToInvalidChainID)
      else if answer == Fails then Declaring(ToUnreachable)
      else Declaring(ToAlive)
    case AliveSubscribe => if answer == Fails then Declaring(ToUnreachable) else AliveSelect
    case AliveSelect =>
      if answer == CtxDone && ctxDone then Leaving
      else if answer == Fails then Declaring(ToUnreachable)
      else if answer == PollsFail && live >= 2 then Declaring(ToUnreachable)
      else if answer == FallsBehind && live >= 2 then Declaring(ToOutOfSync)
      else AliveSelect
    case OutOfSyncDial => if answer == Fails then Declaring(ToUnreachable) else OutOfSyncVerify
    case OutOfSyncVerify =>
      if answer == Fails || answer == WrongChain then Declaring(ToInvalidChainID) else OutOfSyncSubscribe
    case OutOfSyncSubscribe => if answer == Fails then Declaring(ToUnreachable) else OutOfSyncSelect
    case OutOfSyncSelect =>
      if answer == CtxDone && ctxDone then Leaving
      else if answer == Fails then Declaring(ToUnreachable)
      else if answer == InSync || (answer == Zombie && live < 1) then Declaring(ToInSync)
      else OutOfSyncSelect
    case UnreachableSelect =>
      if answer == CtxDone && ctxDone then Leaving else if answer == Ok then UnreachableDial else UnreachableSelect
    case UnreachableDial => if answer == Fails then UnreachableSelect else UnreachableSetDialed
    case InvalidSelect =>
      if answer == CtxDone && ctxDone then Leaving else if answer == Ok then InvalidVerify else InvalidSelect
    case InvalidVerify =>
      if answer == WrongChain then InvalidSelect
      else if answer == Fails then Declaring(ToUnreachable)
      else Declaring(ToAlive)
    case _ => pc
  }

  function At(n: Node, i: nat, pc: Pc): Node
    requires i < |n.running|
  {
    n.(running := n.running[i := n.running[i].(pc := pc)])
  }

  /** The deferred `wg.Done`. */
  function Finish(n: Node, i: nat): Node
    requires i < |n.running|
  {
    n.(running := n.running[..i] + n.running[i + 1..], wg := if n.running[i].isLoop then n.wg - 1 else n.wg)
  }

  /** `declareX`: changes the state and hands control to a new loop, all under the state lock. */
  function Declare(n: Node, i: nat, target: Target): Node
    requires i < |n.running|
  {
    match TransitionFrom(n.state, target)
    case Ignored => At(n, i, Leaving)
    case Forbidden => n.(panic := TransitionPanic)
    case Moved(state) =>
      n.(state := state, wg := n.wg + 1, running := At(n, i, Leaving).running + [Goroutine(true, Entry(target))])
  }

  /** The sanity check at the top of a loop. */
  function Enter(n: Node, i: nat): Node
    requires i < |n.running| && n.running[i].pc in {AliveEntry, OutOfSyncEntry, UnreachableEntry, InvalidEntry}
  {
    if n.state == EntryState(n.running[i].pc) then At(n, i, AfterEntry(n.running[i].pc))
    else if n.state == Closed then At(n, i, Leaving)
    else n.(panic := EntryPanic)
  }

  /** `setState(nodeStateDialed)`, which looks at nothing. */
  function SetDialed(n: Node, i: nat): Node
    requires i < |n.running|
  {
    At(n, i, if n.running[i].pc == StartSetDialed then StartVerify else UnreachableVerify).(state := Dialed)
  }

  function Consult(n: Node, i: nat, answer: Answer, live: nat): Node
    requires i < |n.running|
  {
    var pc := n.running[i].pc;
    if Verifies(pc) && !Verifiable(n.state) then n.(panic := VerifyPanic)
    else At(n, i, Follow(pc, answer, live, n.ctxDone))
  }

  function Step(n: Node, e: Event): Node {
    if n.panic != NoPanic then n
    else if e.Close? then n.(state := Closed, ctxDone := true)
    else if e.i >= |n.running| then n
    else
      var pc := n.running[e.i].pc;
      if pc == Leaving then Finish(n, e.i)
      else if pc.Declaring? then Declare(n, e.i, pc.target)
      else if pc in {AliveEntry, OutOfSyncEntry, UnreachableEntry, InvalidEntry} then Enter(n, e.i)
      else if pc in {StartSetDialed, UnreachableSetDialed} then SetDialed(n, e.i)
      else Consult(n, e.i, e.answer, e.live)
  }

  function After(n: Node, events: seq<Event>): Node
    decreases |events|
  {
    if events == [] then n else After(Step(n, events[0]), events[1..])
  }

  function Loops(running: seq<Goroutine>): nat {
    if running == [] then 0 else (if running[0].isLoop then 1 else 0) + Loops(running[1..])
  }

  predicate InControl(g: Goroutine) {
    g.pc != Leaving
  }

  /** Besides Closed, the states a goroutine at this point can find. */
  function Expected(pc: Pc): set<NodeState> {
    match pc
    case StartDial | StartSetDialed => {Undialed}
    case StartVerify | UnreachableVerify => {Dialed}
    case AliveEntry | AliveSubscribe | AliveSelect => {Alive}
    case OutOfSyncEntry | OutOfSyncDial | OutOfSyncVerify | OutOfSyncSubscribe | OutOfSyncSelect => {OutOfSync}
    case UnreachableEntry | UnreachableSelect | UnreachableDial | UnreachableSetDialed => {Unreachable}
    case InvalidEntry | InvalidSelect | InvalidVerify => {InvalidChainID}
    case Declaring(ToAlive) => {Dialed, InvalidChainID}
    case Declaring(ToInSync) => {OutOfSync}
    case Declaring(ToOutOfSync) => {Alive}
    case Declaring(ToUnreachable) => {Undialed, Dialed, Alive, OutOfSync, InvalidChainID}
    case Declaring(ToInvalidChainID) => {Dialed, OutOfSync}
    case Leaving => {}
  }

  ghost predicate OneInControl(running: seq<Goroutine>) {
    forall i, j :: 0 <= i < j < |running| ==> !InControl(running[i]) || !InControl(running[j])
  }

  ghost predicate Safe(n: Node) {
    && n.wg == Loops(n.running)
    && OneInControl(n.running)
    && (forall i :: 0 <= i < |n.running| && InControl(n.running[i]) ==>
         n.state == Closed || n.state in Expected(n.running[i].pc))
    && n.panic in {NoPanic, VerifyPanic}
  }

  lemma {:induction false} LoopsConcat(a: seq<Goroutine>, b: seq<Goroutine>)
    ensures Loops(a + b) == Loops(a) + Loops(b)
  {
    if a == [] {
      assert a + b == b;
    } else {
      assert (a + b)[1..] == a[1..] + b;
      LoopsConcat(a[1..], b);
    }
  }

  lemma LoopsAround(running: seq<Goroutine>, i: nat)
    requires i < |running|
    ensures Loops(running) == Loops(running[..i]) + (if running[i].isLoop then 1 else 0) + Loops(running[i + 1..])
    ensures running[i].isLoop ==> Loops(running) >= 1
  {
    var rest := running[i..];
    assert running == running[..i] + rest;
    LoopsConcat(running[..i], rest);
    assert rest[0] == running[i] && rest[1..] == running[i + 1..];
  }

  /** A goroutine that moves on without leaving keeps its place in every count. */
  lemma MoveIsSafe(n: Node, i: nat, pc: Pc, state: NodeState)
    requires Safe(n) && i < |n.running| && InControl(n.running[i]) && n.panic == NoPanic
    requires pc == Leaving || state == Closed || state in Expected(pc)
    ensures Safe(At(n, i, pc).(state := state))
  {
    var m := At(n, i, pc);
    LoopsAround(n.running, i);
    LoopsAround(m.running, i);
    assert m.running[..i] == n.running[..i] && m.running[i + 1..] == n.running[i + 1..];
  }

  lemma HandoverIsSafe(n: Node, i: nat, state: NodeState, next: Pc)
    requires Safe(n) && i < |n.running| && InControl(n.running[i]) && n.panic == NoPanic
    requires state in Expected(next)
    ensures Safe(n.(state := state, wg := n.wg + 1, running := At(n, i, Leaving).running + [Goroutine(true, next)]))
  {
    var m := At(n, i, Leaving);
    MoveIsSafe(n, i, Leaving, n.state);
    LoopsConcat(m.running, [Goroutine(true, next)]);
    assert Loops([Goroutine(true, next)]) == 1;
  }

  lemma DoneIsSafe(n: Node, i: nat)
    requires Safe(n) && i < |n.running| && n.running[i].pc == Leaving
    ensures Safe(Finish(n, i))
  {
    LoopsAround(n.running, i);
    LoopsConcat(n.running[..i], n.running[i + 1..]);
    var rest := n.running[..i] + n.running[i + 1..];
    assert forall k :: 0 <= k < |rest| ==> rest[k] == n.running[if k < i then k else k + 1];
  }

  /** A step that only consults the endpoint or a channel leads to a point that fits the state it found. */
  lemma FollowFits(pc: Pc, answer: Answer, live: nat, ctxDone: bool, state: NodeState)
    requires state in Expected(pc)
    ensures var next := Follow(pc, answer, live, ctxDone);
            next == Leaving || next in {StartSetDialed, UnreachableSetDialed} || state in Expected(next)
    ensures Follow(pc, answer, live, ctxDone) == StartSetDialed ==> state == Undialed
    ensures Follow(pc, answer, live, ctxDone) == UnreachableSetDialed ==> state == Unreachable
  {
  }

  lemma ConsultIsSafe(n: Node, i: nat, answer: Answer, live: nat)
    requires Safe(n) && n.panic == NoPanic && i < |n.running| && InControl(n.running[i])
    ensures Safe(Consult(n, i, answer, live))
  {
    if n.state != Closed {
      FollowFits(n.running[i].pc, answer, live, n.ctxDone, n.state);
    }
    if !(Verifies(n.running[i].pc) && !Verifiable(n.state)) {
      MoveIsSafe(n, i, Follow(n.running[i].pc, answer, live, n.ctxDone), n.state);
    }
  }

  lemma DeclareIsSafe(n: Node, i: nat)
    requires Safe(n) && n.panic == NoPanic && i < |n.running| && n.running[i].pc.Declaring?
    ensures Safe(Declare(n, i, n.running[i].pc.target))
  {
    var target := n.running[i].pc.target;
    if n.state == Closed {
      MoveIsSafe(n, i, Leaving, n.state);
    } else {
      HandoverIsSafe(n, i, TransitionFrom(n.state, target).state, Entry(target));
    }
  }

  lemma StepIsSafe(n: Node, e: Event)
    requires Safe(n)
    ensures Safe(Step(n, e))
  {
    if n.panic == NoPanic && e.Run? && e.i < |n.running| {
      var pc := n.running[e.i].pc;
      if pc == Leaving {
        DoneIsSafe(n, e.i);
      } else if pc.Declaring? {
        DeclareIsSafe(n, e.i);
      } else if pc in {AliveEntry, OutOfSyncEntry, UnreachableEntry, InvalidEntry} {
        MoveIsSafe(n, e.i, if n.state == Closed then Leaving else AfterEntry(pc), n.state);
      } else if pc in {StartSetDialed, UnreachableSetDialed} {
        MoveIsSafe(n, e.i, if pc == StartSetDialed then StartVerify else UnreachableVerify, Dialed);
      } else {
        ConsultIsSafe(n, e.i, e.answer, e.live);
      }
    }
  }

  /**
   Under every interleaving with `Close` and every answer: no forbidden transition and no loop entered in
   a wrong state, one goroutine at most in control, and the wait group counts exactly the running loops.
   */
  lemma LifecycleIsSafe(events: seq<Event>)
    ensures Safe(After(STARTED, events))
  {
    assert Loops(STARTED.running) == 0;
    RunIsSafe(STARTED, events);
  }

  lemma {:induction false} RunIsSafe(n: Node, events: seq<Event>)
    requires Safe(n)
    ensures Safe(After(n, events))
    decreases |events|
  {
    if events != [] {
      StepIsSafe(n, events[0]);
      RunIsSafe(Step(n, events[0]), events[1..]);
    }
  }

  /** A step panics exactly where `verify` is called just after a `Close`. */
  lemma VerifyPanicsWhenClosed(events: seq<Event>, i: nat, answer: Answer, live: nat)
    requires var n := After(STARTED, events); n.panic == NoPanic && i < |n.running|
    ensures var n := After(STARTED, events);
            Step(n, Run(i, answer, live)).panic != NoPanic <==>
            && n.state == Closed
            && n.running[i].pc in {StartVerify, OutOfSyncVerify, UnreachableVerify, InvalidVerify}
  {
    LifecycleIsSafe(events);
    PanicsAtVerify(After(STARTED, events), i, answer, live);
  }

  lemma PanicsAtVerify(n: Node, i: nat, answer: Answer, live: nat)
    requires Safe(n) && n.panic == NoPanic && i < |n.running|
    ensures Step(n, Run(i, answer, live)).panic != NoPanic <==>
            && n.state == Closed
            && n.running[i].pc in {StartVerify, OutOfSyncVerify, UnreachableVerify, InvalidVerify}
  {
    var pc := n.running[i].pc;
    StepIsSafe(n, Run(i, answer, live));
    if pc == Leaving || pc.Declaring? || pc in {AliveEntry, OutOfSyncEntry, UnreachableEntry, InvalidEntry} {
      OnlyConsultingPanics(n, i, answer, live);
    } else {
      assert n.state == Closed || n.state in Expected(pc);
    }
  }

  lemma OnlyConsultingPanics(n: Node, i: nat, answer: Answer, live: nat)
    requires n.panic == NoPanic && i < |n.running|
    requires var pc := n.running[i].pc;
             pc == Leaving || pc.Declaring? || pc in {AliveEntry, OutOfSyncEntry, UnreachableEntry, InvalidEntry}
    ensures Step(n, Run(i, answer, live)).panic != VerifyPanic
  {
  }

  /** A loop that starts the next one is itself counted: the wait group is never raised from zero while waited for. */
  lemma AddedFromNonzero(events: seq<Event>, e: Event)
    requires var n := After(STARTED, events);
             e.Run? && e.i < |n.running| && n.running[e.i].isLoop && Step(n, e).wg > n.wg
    ensures After(STARTED, events).wg >= 1
  {
    LifecycleIsSafe(events);
    LoopsAround(After(STARTED, events).running, e.i);
  }

  lemma {:induction false} AfterConcat(n: Node, a: seq<Event>, b: seq<Event>)
    ensures After(n, a + b) == After(After(n, a), b)
    decreases |a|
  {
    if a == [] {
      assert a + b == b;
    } else {
      assert (a + b)[1..] == a[1..] + b;
      AfterConcat(Step(n, a[0]), a[1..], b);
    }
  }

  lemma AfterTwo(n: Node, first: Event, second: Event)
    ensures After(n, [first, second]) == Step(Step(n, first), second)
  {
    var events := [first, second];
    assert events[1..] == [second] && events[1..][1..] == [];
    assert After(n, events) == After(Step(n, first), events[1..]);
    assert After(Step(n, first), [second]) == After(Step(Step(n, first), second), [second][1..]);
  }

  /** Where a goroutine can still come to `setState(nodeStateDialed)` without being stopped by a closed node. */
  predicate CanReopen(pc: Pc) {
    pc in {StartDial, StartSetDialed, UnreachableSelect, UnreachableDial, UnreachableSetDialed}
  }

  predicate Shut(n: Node) {
    n.state == Closed && forall i :: 0 <= i < |n.running| ==> !CanReopen(n.running[i].pc)
  }

  lemma FinishedStaysShut(n: Node, i: nat)
    requires Shut(n) && i < |n.running|
    ensures Shut(Finish(n, i))
  {
    var m := Finish(n, i);
    assert forall j :: 0 <= j < |m.running| ==> m.running[j] == n.running[if j < i then j else j + 1];
  }

  lemma StaysShut(n: Node, e: Event)
    requires Shut(n)
    ensures Shut(Step(n, e))
  {
    var m := Step(n, e);
    if n.panic == NoPanic && e.Run? && e.i < |n.running| {
      if n.running[e.i].pc == Leaving {
        FinishedStaysShut(n, e.i);
      } else {
        assert forall j :: 0 <= j < |m.running| && j != e.i ==> m.running[j] == n.running[j];
      }
    }
  }

  lemma {:induction false} StaysShutForGood(n: Node, events: seq<Event>)
    requires Shut(n)
    ensures After(n, events).state == Closed
    decreases |events|
  {
    if events != [] {
      StaysShut(n, events[0]);
      StaysShutForGood(Step(n, events[0]), events[1..]);
    }
  }

  /** How far it is to `setState`. */
  function ToReopening(pc: Pc): nat {
    if pc in {StartSetDialed, UnreachableSetDialed} then 0 else if pc in {StartDial, UnreachableDial} then 1 else 2
  }

  lemma {:induction false} Reopens(n: Node, i: nat) returns (events: seq<Event>)
    requires n.state == Closed && n.panic == NoPanic && i < |n.running| && CanReopen(n.running[i].pc)
    ensures After(n, events).state == Dialed
    decreases ToReopening(n.running[i].pc)
  {
    var e := Run(i, Ok, 0);
    var m := Step(n, e);
    if ToReopening(n.running[i].pc) == 0 {
      events := [e];
      assert After(m, [e][1..]) == m;
    } else {
      assert m.running[i].pc == Follow(n.running[i].pc, Ok, 0, n.ctxDone);
      var rest := Reopens(m, i);
      events := [e] + rest;
      assert events[1..] == rest;
    }
  }

  /**
   Closed is permanent, whatever comes after, if and only if no goroutine is between the start of a dial, or the wait
   for a redial, and `setState(nodeStateDialed)` when the node is closed.
   */
  lemma ClosedIsPermanent(n: Node)
    requires Safe(n) && n.state == Closed && n.panic == NoPanic
    ensures (forall events :: After(n, events).state == Closed) <==>
            (forall i :: 0 <= i < |n.running| ==> !CanReopen(n.running[i].pc))
  {
    if i :| 0 <= i < |n.running| && CanReopen(n.running[i].pc) {
      var events := Reopens(n, i);
      assert After(n, events).state != Closed;
    } else {
      forall events ensures After(n, events).state == Closed {
        StaysShutForGood(n, events);
      }
    }
  }

  /**
   So a node can outlive its `Close`: started, closed between a redial and `setState(nodeStateDialed)`, with
   verification then failing on the cancelled context, it declares itself Unreachable and comes to rest there with no
   goroutine left. Closed is absorbing for the guarded transitions only.
   */
  lemma ClosedNodeReopens() returns (events: seq<Event>)
    ensures Close in events
    ensures After(STARTED, events) == Node(Unreachable, true, [], 0, NoPanic)
  {
    var redialing := Redials();
    var closed := ClosedWhileRedialing(redialing);
    events := ComesToRest(closed);
    assert closed <= events && redialing + [Close] <= closed;
    assert closed[|redialing|] == Close && events[|redialing|] == closed[|redialing|];
  }

  /** One loop, after `Start` has returned. */
  function Loop(state: NodeState, pc: Pc, ctxDone: bool): Node {
    Node(state, ctxDone, [Goroutine(true, pc)], 1, NoPanic)
  }

  lemma AfterOneMore(events: seq<Event>, e: Event)
    ensures After(STARTED, events + [e]) == Step(After(STARTED, events), e)
  {
    AfterConcat(STARTED, events, [e]);
    var n := After(STARTED, events);
    assert After(n, [e]) == After(Step(n, e), [e][1..]);
  }

  /** One step of the loop within its own states. */
  lemma Walk(events: seq<Event>, state: NodeState, pc: Pc, ctxDone: bool, answer: Answer)
    requires After(STARTED, events) == Loop(state, pc, ctxDone)
    requires pc in {UnreachableSelect, UnreachableDial} || (pc == UnreachableVerify && state == Dialed)
    ensures After(STARTED, events + [Run(0, answer, 0)]) == Loop(state, Follow(pc, answer, 0, ctxDone), ctxDone)
  {
    AfterOneMore(events, Run(0, answer, 0));
  }

  lemma EntersUnreachable(events: seq<Event>, ctxDone: bool)
    requires After(STARTED, events) == Loop(Unreachable, UnreachableEntry, ctxDone)
    ensures After(STARTED, events + [Run(0, Ok, 0)]) == Loop(Unreachable, UnreachableSelect, ctxDone)
  {
    AfterOneMore(events, Run(0, Ok, 0));
  }

  /** The first dial fails, `Start` returns, and the loop dials again. */
  lemma StartFails() returns (events: seq<Event>)
    ensures After(STARTED, events) == Loop(Unreachable, UnreachableEntry, false)
  {
    events := [Run(0, Fails, 0), Run(0, Ok, 0)];
    AfterTwo(STARTED, Run(0, Fails, 0), Run(0, Ok, 0));
    assert Step(STARTED, Run(0, Fails, 0)).running == [Goroutine(false, Declaring(ToUnreachable))];
    var declared := After(STARTED, events);
    assert declared.running == [Goroutine(false, Leaving), Goroutine(true, UnreachableEntry)];
    AfterOneMore(events, Run(0, Ok, 0));
    events := events + [Run(0, Ok, 0)];
    assert After(STARTED, events).running == Loop(Unreachable, UnreachableEntry, false).running;
  }

  lemma Redials() returns (events: seq<Event>)
    ensures After(STARTED, events) == Loop(Unreachable, UnreachableSetDialed, false)
  {
    events := StartFails();
    EntersUnreachable(events, false);
    events := events + [Run(0, Ok, 0)];
    Walk(events, Unreachable, UnreachableSelect, false, Ok);
    events := events + [Run(0, Ok, 0)];
    Walk(events, Unreachable, UnreachableDial, false, Ok);
    events := events + [Run(0, Ok, 0)];
  }

  lemma ClosedWhileRedialing(events: seq<Event>) returns (longer: seq<Event>)
    requires After(STARTED, events) == Loop(Unreachable, UnreachableSetDialed, false)
    ensures events + [Close] <= longer
    ensures After(STARTED, longer) == Loop(Dialed, Declaring(ToUnreachable), true)
  {
    longer := events + [Close];
    AfterOneMore(events, Close);
    AfterOneMore(longer, Run(0, Ok, 0));
    longer := longer + [Run(0, Ok, 0)];
    Walk(longer, Dialed, UnreachableVerify, true, Fails);
    longer := longer + [Run(0, Fails, 0)];
  }

  /** The first loop declares and is done; the new one sees the cancelled context and is done as well. */
  lemma ComesToRest(events: seq<Event>) returns (longer: seq<Event>)
    requires After(STARTED, events) == Loop(Dialed, Declaring(ToUnreachable), true)
    ensures events <= longer
    ensures After(STARTED, longer) == Node(Unreachable, true, [], 0, NoPanic)
  {
    longer := HandsOver(events);
    EntersUnreachable(longer, true);
    longer := longer + [Run(0, Ok, 0)];
    Walk(longer, Unreachable, UnreachableSelect, true, CtxDone);
    longer := longer + [Run(0, CtxDone, 0)];
    AfterOneMore(longer, Run(0, Ok, 0));
    longer := longer + [Run(0, Ok, 0)];
    assert After(STARTED, longer).running == [];
  }

  lemma HandsOver(events: seq<Event>) returns (longer: seq<Event>)
    requires After(STARTED, events) == Loop(Dialed, Declaring(ToUnreachable), true)
    ensures longer == events + [Run(0, Ok, 0)] + [Run(0, Ok, 0)]
    ensures After(STARTED, longer) == Loop(Unreachable, UnreachableEntry, true)
  {
    longer := events + [Run(0, Ok, 0)];
    AfterOneMore(events, Run(0, Ok, 0));
    var declared := After(STARTED, longer);
    assert declared.running == [Goroutine(true, Leaving), Goroutine(true, UnreachableEntry)];
    AfterOneMore(longer, Run(0, Ok, 0));
    longer := longer + [Run(0, Ok, 0)];
    assert After(STARTED, longer).running == Loop(Unreachable, UnreachableEntry, true).running;
  }
}

/**
 What becomes of an RPC node (common/client/node.go, node_lifecycle.go): which state each answer of the endpoint leads
 to, that no node is alive whose chain has not been verified, and that an open node is always watched.
 */
module NodeOutcomes {
  import opened NodeLifecycle

  // Verification

  /** The endpoint's answer when this step asks it for its chain. */
  function Verification(n: Node, e: Event): seq<Answer> {
    if n.panic == NoPanic && e.Run? && e.i < |n.running|
       && n.running[e.i].pc in {StartVerify, OutOfSyncVerify, UnreachableVerify, InvalidVerify}
    then [e.answer] else []
  }

  function Verifications(n: Node, events: seq<Event>): seq<Answer>
    decreases |events|
  {
    if events == [] then [] else Verification(n, events[0]) + Verifications(Step(n, events[0]), events[1..])
  }

  /** The last time it was asked, it named the right chain. */
  predicate Verified(answers: seq<Answer>) {
    answers != [] && answers[|answers| - 1] != Fails && answers[|answers| - 1] != WrongChain
  }

  /** Where the chain has just been verified. */
  predicate PastVerify(pc: Pc) {
    pc in {Declaring(ToAlive), Declaring(ToInSync), OutOfSyncSubscribe, OutOfSyncSelect}
  }

  ghost predicate Trusted(n: Node, answers: seq<Answer>) {
    && Safe(n)
    && (n.state == Alive ==> Verified(answers))
    && (forall i :: 0 <= i < |n.running| && PastVerify(n.running[i].pc) ==> Verified(answers))
  }

  lemma FinishIsTrusted(n: Node, i: nat, answers: seq<Answer>)
    requires Trusted(n, answers) && i < |n.running| && n.running[i].pc == Leaving
    ensures Trusted(Finish(n, i), answers)
  {
    DoneIsSafe(n, i);
    var m := Finish(n, i);
    assert forall j :: 0 <= j < |m.running| ==> m.running[j] == n.running[if j < i then j else j + 1];
  }

  /** The others have nothing left to declare. */
  lemma DeclareIsTrusted(n: Node, i: nat, answers: seq<Answer>)
    requires Trusted(n, answers) && n.panic == NoPanic && i < |n.running| && n.running[i].pc.Declaring?
    ensures Trusted(Declare(n, i, n.running[i].pc.target), answers)
  {
    DeclareIsSafe(n, i);
    var m := Declare(n, i, n.running[i].pc.target);
    assert forall j :: 0 <= j < |n.running| && j != i ==> m.running[j] == n.running[j] && !InControl(n.running[j]);
  }

  lemma MoveIsTrusted(n: Node, i: nat, pc: Pc, state: NodeState, answers: seq<Answer>, more: seq<Answer>)
    requires Trusted(n, answers) && i < |n.running| && InControl(n.running[i])
    requires Safe(At(n, i, pc).(state := state)) && (state == Alive ==> n.state == Alive && more == [])
    requires PastVerify(pc) ==> Verified(answers + more)
    ensures Trusted(At(n, i, pc).(state := state), answers + more)
  {
    var m := At(n, i, pc);
    assert forall j :: 0 <= j < |n.running| && j != i ==> m.running[j] == n.running[j] && !InControl(n.running[j]);
    assert more == [] ==> answers + more == answers;
  }

  lemma ConsultIsTrusted(n: Node, i: nat, answer: Answer, live: nat, answers: seq<Answer>)
    requires Trusted(n, answers) && n.panic == NoPanic && i < |n.running| && InControl(n.running[i])
    requires Step(n, Run(i, answer, live)) == Consult(n, i, answer, live)
    ensures Trusted(Consult(n, i, answer, live), answers + Verification(n, Run(i, answer, live)))
  {
    var pc := n.running[i].pc;
    var more := Verification(n, Run(i, answer, live));
    StepIsSafe(n, Run(i, answer, live));
    if Verifies(pc) && !Verifiable(n.state) {
      assert n.state == Closed;
      assert forall j :: 0 <= j < |n.running| && j != i ==> !InControl(n.running[j]);
    } else {
      assert more == [answer] || answers + more == answers;
      MoveIsTrusted(n, i, Follow(pc, answer, live, n.ctxDone), n.state, answers, more);
    }
  }

  lemma ControlIsTrusted(n: Node, e: Event, answers: seq<Answer>)
    requires Trusted(n, answers) && n.panic == NoPanic && e.Run? && e.i < |n.running| && InControl(n.running[e.i])
    ensures Trusted(Step(n, e), answers + Verification(n, e))
  {
    var pc := n.running[e.i].pc;
    if pc in {StartVerify, OutOfSyncVerify, UnreachableVerify, InvalidVerify} {
      ConsultIsTrusted(n, e.i, e.answer, e.live, answers);
    } else {
      assert answers + [] == answers;
      if pc.Declaring? {
        DeclareIsTrusted(n, e.i, answers);
      } else if pc in {AliveEntry, OutOfSyncEntry, UnreachableEntry, InvalidEntry} {
        StepIsSafe(n, e);
        MoveIsTrusted(n, e.i, if n.state == Closed then Leaving else AfterEntry(pc), n.state, answers, []);
      } else if pc in {StartSetDialed, UnreachableSetDialed} {
        StepIsSafe(n, e);
        MoveIsTrusted(n, e.i, if pc == StartSetDialed then StartVerify else UnreachableVerify, Dialed, answers, []);
      } else {
        ConsultIsTrusted(n, e.i, e.answer, e.live, answers);
      }
    }
  }

  lemma StepIsTrusted(n: Node, e: Event, answers: seq<Answer>)
    requires Trusted(n, answers)
    ensures Trusted(Step(n, e), answers + Verification(n, e))
  {
    if n.panic == NoPanic && e.Run? && e.i < |n.running| {
      if n.running[e.i].pc == Leaving {
        FinishIsTrusted(n, e.i, answers);
        assert answers + [] == answers;
      } else {
        ControlIsTrusted(n, e, answers);
      }
    } else {
      StepIsSafe(n, e);
      assert answers + [] == answers;
    }
  }

  lemma {:induction false} RunIsTrusted(n: Node, events: seq<Event>, answers: seq<Answer>)
    requires Trusted(n, answers)
    ensures Trusted(After(n, events), answers + Verifications(n, events))
    decreases |events|
  {
    if events == [] {
      assert answers + [] == answers;
    } else {
      StepIsTrusted(n, events[0], answers);
      RunIsTrusted(Step(n, events[0]), events[1..], answers + Verification(n, events[0]));
      Joined(answers, n, events);
    }
  }

  lemma Joined(answers: seq<Answer>, n: Node, events: seq<Event>)
    requires events != []
    ensures answers + Verification(n, events[0]) + Verifications(Step(n, events[0]), events[1..]) ==
            answers + Verifications(n, events)
  {
  }

  /** Over every run: a node that is alive named the right chain the last time it was asked. */
  lemma AliveIsVerified(events: seq<Event>)
    requires After(STARTED, events).state == Alive
    ensures Verified(Verifications(STARTED, events))
  {
    assert Loops(STARTED.running) == 0;
    RunIsTrusted(STARTED, events, []);
    assert [] + Verifications(STARTED, events) == Verifications(STARTED, events);
  }

  // Which answer leads where

  /** An open node with this goroutine at this point. */
  ghost predicate Watches(n: Node, i: nat, pc: Pc) {
    Safe(n) && n.panic == NoPanic && n.state != Closed && i < |n.running| && n.running[i].pc == pc
  }

  /** The state after the goroutine got this answer and, if that makes it leave, has declared. */
  function Next(n: Node, i: nat, answer: Answer, live: nat, again: Answer, later: nat): NodeState {
    Step(Step(n, Run(i, answer, live)), Run(i, again, later)).state
  }

  /** The first of the two steps, and then the second if it declares. */
  lemma FirstStep(n: Node, i: nat, pc: Pc, answer: Answer, live: nat)
    requires Watches(n, i, pc) && !pc.Declaring? && pc !in {Leaving, StartSetDialed, UnreachableSetDialed}
    requires pc !in {AliveEntry, OutOfSyncEntry, UnreachableEntry, InvalidEntry}
    ensures var m := Step(n, Run(i, answer, live));
            Watches(m, i, Follow(pc, answer, live, n.ctxDone)) && m.state == n.state && n.state in Expected(pc)
  {
    StepIsSafe(n, Run(i, answer, live));
  }

  lemma SecondStep(n: Node, i: nat, pc: Pc, again: Answer, later: nat)
    requires Watches(n, i, pc)
    ensures var m := Step(n, Run(i, again, later));
            m.state == if pc.Declaring? then EntryState(Entry(pc.target))
                       else if pc in {StartSetDialed, UnreachableSetDialed} then Dialed else n.state
  {
  }

  lemma FromDial(n: Node, i: nat, pc: Pc, answer: Answer, live: nat, again: Answer, later: nat)
    requires Watches(n, i, pc) && pc in {StartDial, UnreachableDial}
    ensures Next(n, i, answer, live, again, later) == if answer == Fails then Unreachable else Dialed
  {
    FirstStep(n, i, pc, answer, live);
    SecondStep(Step(n, Run(i, answer, live)), i, Follow(pc, answer, live, n.ctxDone), again, later);
  }

  /** The wrong chain is not an error like the others: the node is kept, and asked again. */
  lemma FromVerify(n: Node, i: nat, pc: Pc, answer: Answer, live: nat, again: Answer, later: nat)
    requires Watches(n, i, pc) && pc in {StartVerify, UnreachableVerify, InvalidVerify}
    ensures Next(n, i, answer, live, again, later) ==
            if answer == WrongChain then InvalidChainID else if answer == Fails then Unreachable else Alive
  {
    FirstStep(n, i, pc, answer, live);
    SecondStep(Step(n, Run(i, answer, live)), i, Follow(pc, answer, live, n.ctxDone), again, later);
  }

  lemma FromSubscribe(n: Node, i: nat, pc: Pc, answer: Answer, live: nat, again: Answer, later: nat)
    requires Watches(n, i, pc) && pc in {AliveSubscribe, OutOfSyncSubscribe}
    ensures Next(n, i, answer, live, again, later) ==
            if answer == Fails then Unreachable else if pc == AliveSubscribe then Alive else OutOfSync
  {
    FirstStep(n, i, pc, answer, live);
    SecondStep(Step(n, Run(i, answer, live)), i, Follow(pc, answer, live, n.ctxDone), again, later);
  }

  /** The subscription ended, the polls failed, or the node fell behind: but the last live node stays. */
  lemma FromAlive(n: Node, i: nat, answer: Answer, live: nat, again: Answer, later: nat)
    requires Watches(n, i, AliveSelect)
    ensures Next(n, i, answer, live, again, later) ==
            if answer == Fails || (answer == PollsFail && live >= 2) then Unreachable
            else if answer == FallsBehind && live >= 2 then OutOfSync
            else Alive
  {
    FirstStep(n, i, AliveSelect, answer, live);
    SecondStep(Step(n, Run(i, answer, live)), i, Follow(AliveSelect, answer, live, n.ctxDone), again, later);
  }

  /** Out of sync: the redial, the verification, for which any error counts as the wrong chain, and the heads. */
  lemma FromOutOfSync(n: Node, i: nat, pc: Pc, answer: Answer, live: nat, again: Answer, later: nat)
    requires Watches(n, i, pc) && pc in {OutOfSyncDial, OutOfSyncVerify, OutOfSyncSelect}
    ensures Next(n, i, answer, live, again, later) ==
            if pc == OutOfSyncDial then if answer == Fails then Unreachable else OutOfSync
            else if pc == OutOfSyncVerify then
              if answer == Fails || answer == WrongChain then InvalidChainID else OutOfSync
            else if answer == Fails then Unreachable
            else if answer == InSync || (answer == Zombie && live == 0) then Alive
            else OutOfSync
  {
    FirstStep(n, i, pc, answer, live);
    SecondStep(Step(n, Run(i, answer, live)), i, Follow(pc, answer, live, n.ctxDone), again, later);
  }

  /** An answer of no consequence: nothing happens at all. */
  lemma NothingHappens(n: Node, i: nat, answer: Answer, live: nat)
    requires n.panic == NoPanic && i < |n.running| && !(answer == CtxDone && n.ctxDone)
    requires var pc := n.running[i].pc;
             || (pc == AliveSelect && answer != Fails && (live >= 2 ==> answer != PollsFail && answer != FallsBehind))
             || (pc == OutOfSyncSelect && answer != Fails && answer != InSync && (live == 0 ==> answer != Zombie))
             || (pc in {UnreachableSelect, InvalidSelect} && answer != Ok)
    ensures Step(n, Run(i, answer, live)) == n
  {
    assert n.running[i := n.running[i]] == n.running;
  }

  /** After a dial that failed, or the wrong chain once more, the loop waits again before it tries. */
  lemma WaitsAgain(n: Node, i: nat, live: nat)
    requires n.panic == NoPanic && n.state != Closed && i < |n.running|
    ensures n.running[i].pc == UnreachableDial ==> Step(n, Run(i, Fails, live)) == At(n, i, UnreachableSelect)
    ensures n.running[i].pc == InvalidVerify && n.state == InvalidChainID ==>
              Step(n, Run(i, WrongChain, live)) == At(n, i, InvalidSelect)
  {
  }

  // Loops

  /** The next point of a goroutine when all goes well. */
  function Onward(pc: Pc): Pc {
    match pc
    case StartDial => StartSetDialed
    case StartSetDialed => StartVerify
    case AliveEntry => AliveSubscribe
    case AliveSubscribe => AliveSelect
    case OutOfSyncEntry => OutOfSyncDial
    case OutOfSyncDial => OutOfSyncVerify
    case OutOfSyncVerify => OutOfSyncSubscribe
    case OutOfSyncSubscribe => OutOfSyncSelect
    case UnreachableEntry => UnreachableSelect
    case UnreachableSelect => UnreachableDial
    case UnreachableDial => UnreachableSetDialed
    case UnreachableSetDialed => UnreachableVerify
    case InvalidEntry => InvalidSelect
    case InvalidSelect => InvalidVerify
    case _ => pc
  }

  /** The answers `Ok` to one goroutine, so many times. */
  function Onwards(n: Node, i: nat, times: nat): Node
    decreases times
  {
    if times == 0 then n else Onwards(Step(n, Run(i, Ok, 0)), i, times - 1)
  }

  lemma GoesOnward(n: Node, i: nat, pc: Pc)
    requires Watches(n, i, pc) && Onward(pc) != pc
    ensures Watches(Step(n, Run(i, Ok, 0)), i, Onward(pc))
  {
    StepIsSafe(n, Run(i, Ok, 0));
  }

  /** When the endpoint answers well, a started or redialed node is verified and declared alive. */
  lemma {:induction false} ComesAlive(n: Node, i: nat, pc: Pc, times: nat)
    requires Watches(n, i, pc)
    requires (pc, times) in {(StartVerify, 0), (UnreachableVerify, 0), (InvalidVerify, 0), (StartSetDialed, 1),
                             (UnreachableSetDialed, 1), (InvalidSelect, 1), (StartDial, 2), (UnreachableDial, 2),
                             (InvalidEntry, 2), (UnreachableSelect, 3), (UnreachableEntry, 4)}
    ensures Onwards(n, i, times + 2).state == Alive
    decreases times
  {
    if times == 0 {
      FromVerify(n, i, pc, Ok, 0, Ok, 0);
      var verified := Step(n, Run(i, Ok, 0));
      assert Onwards(verified, i, 1) == Onwards(Step(verified, Run(i, Ok, 0)), i, 0);
    } else {
      GoesOnward(n, i, pc);
      ComesAlive(Step(n, Run(i, Ok, 0)), i, Onward(pc), times - 1);
    }
  }

  /** A node out of sync is redialed, verified and subscribed, and then watched for a head that is in sync. */
  lemma {:induction false} WaitsForHeads(n: Node, i: nat, pc: Pc, times: nat)
    requires Watches(n, i, pc)
    requires (pc, times) in {(OutOfSyncSelect, 0), (OutOfSyncSubscribe, 1), (OutOfSyncVerify, 2), (OutOfSyncDial, 3),
                             (OutOfSyncEntry, 4), (AliveSelect, 0), (AliveSubscribe, 1), (AliveEntry, 2)}
    ensures Watches(Onwards(n, i, times), i, if n.state == Alive then AliveSelect else OutOfSyncSelect)
    ensures Onwards(n, i, times).state == n.state && n.state in {Alive, OutOfSync}
    decreases times
  {
    if times > 0 {
      GoesOnward(n, i, pc);
      WaitsForHeads(Step(n, Run(i, Ok, 0)), i, Onward(pc), times - 1);
    }
  }

  /** An open node has a goroutine in control. */
  ghost predicate Watched(n: Node) {
    && Safe(n) && n.panic == NoPanic && n.state != Closed && !n.ctxDone
    && exists i :: 0 <= i < |n.running| && InControl(n.running[i])
  }

  lemma OthersFinish(n: Node, i: nat)
    requires Watched(n) && i < |n.running| && n.running[i].pc == Leaving
    ensures Watched(Finish(n, i))
  {
    DoneIsSafe(n, i);
    var m := Finish(n, i);
    var k :| 0 <= k < |n.running| && InControl(n.running[k]);
    assert m.running[if k < i then k else k - 1] == n.running[k];
  }

  /** A goroutine in control hands it over, */
  lemma ControlHandedOver(n: Node, i: nat)
    requires n.panic == NoPanic && n.state != Closed && !n.ctxDone
    requires i < |n.running| && n.running[i].pc.Declaring? && n.state in Expected(n.running[i].pc)
    ensures var m := Declare(n, i, n.running[i].pc.target);
            && m.panic == NoPanic && m.state != Closed && !m.ctxDone
            && |m.running| == |n.running| + 1 && InControl(m.running[|n.running|])
  {
  }

  /** or keeps it. */
  lemma ControlKept(n: Node, i: nat, answer: Answer, live: nat)
    requires n.panic == NoPanic && n.state != Closed && !n.ctxDone && i < |n.running|
    requires InControl(n.running[i]) && !n.running[i].pc.Declaring? && n.state in Expected(n.running[i].pc)
    ensures var m := Step(n, Run(i, answer, live));
            && m.panic == NoPanic && m.state != Closed && !m.ctxDone
            && |m.running| == |n.running| && InControl(m.running[i])
  {
  }

  lemma StepIsWatched(n: Node, e: Event)
    requires Watched(n) && e != Close
    ensures Watched(Step(n, e))
  {
    if e.i < |n.running| {
      StepIsSafe(n, e);
      if n.running[e.i].pc == Leaving {
        OthersFinish(n, e.i);
      } else {
        if n.running[e.i].pc.Declaring? {
          ControlHandedOver(n, e.i);
        } else {
          ControlKept(n, e.i, e.answer, e.live);
        }
      }
    }
  }

  lemma {:induction false} RunIsWatched(n: Node, events: seq<Event>)
    requires Watched(n) && Close !in events
    ensures Watched(After(n, events))
    decreases |events|
  {
    if events != [] {
      StepIsWatched(n, events[0]);
      RunIsWatched(Step(n, events[0]), events[1..]);
    }
  }

  /** Over every run without `Close`: exactly one goroutine is in control, whatever the endpoint answers. */
  lemma AlwaysWatched(events: seq<Event>) returns (i: nat)
    requires Close !in events
    ensures i < |After(STARTED, events).running| && AloneInControl(After(STARTED, events), i)
  {
    assert Loops(STARTED.running) == 0 && InControl(STARTED.running[0]);
    RunIsWatched(STARTED, events);
    var n := After(STARTED, events);
    i :| 0 <= i < |n.running| && InControl(n.running[i]);
  }

  predicate AloneInControl(n: Node, i: nat)
    requires i < |n.running|
  {
    InControl(n.running[i]) && forall j :: 0 <= j < |n.running| && j != i ==> !InControl(n.running[j])
  }

  /** Once the context is cancelled, a loop that waits ends, which is what `Close` waits for. */
  lemma CancelledLoopEnds(n: Node, i: nat, live: nat, again: Answer, later: nat)
    requires n.panic == NoPanic && n.ctxDone && i < |n.running| && n.running[i].isLoop
    requires n.running[i].pc in {AliveSelect, OutOfSyncSelect, UnreachableSelect, InvalidSelect}
    ensures var m := Step(Step(n, Run(i, CtxDone, live)), Run(i, again, later));
            m == n.(running := n.running[..i] + n.running[i + 1..], wg := n.wg - 1)
  {
    var m := Step(n, Run(i, CtxDone, live));
    assert m.running[..i] == n.running[..i] && m.running[i + 1..] == n.running[i + 1..];
  }
}

/**
 The transition methods of common/client/node_fsm.go as they are written: each takes the state lock, looks at
 `state` and changes it in place. Each is proved to be the step of the state machine in NodeLifecycle, which keeps a
 safe node safe and never panics in one.
 */
module NodeFsm {
  import opened NodeLifecycle

  /** In a safe node, the goroutine in control has come to the point of making this declaration. */
  ghost predicate MayDeclare(n: Node, i: nat, target: Target) {
    Safe(n) && n.panic == NoPanic && i < |n.running| && n.running[i].pc == Declaring(target)
  }

  class NodeFsm {
    var state: NodeState
    var ctxDone: bool
    var running: seq<Goroutine>
    var wg: int
    var panic: Panic

    ghost function Abstract(): Node
      reads this
    {
      Node(state, ctxDone, running, wg, panic)
    }

    /** A new node on which `Start` is called. */
    constructor ()
      ensures Abstract() == STARTED
    {
      state := Undialed;
      ctxDone := false;
      running := [Goroutine(false, StartDial)];
      wg := 0;
      panic := NoPanic;
    }

    method SetPc(i: nat, pc: Pc)
      requires i < |running|
      modifies `running
      ensures Abstract() == At(old(Abstract()), i, pc)
    {
      running := running[i := running[i].(pc := pc)];
    }

    /** `wg.Add(1)` and `go loop()`, after which the caller returns. */
    method HandOver(i: nat, entry: Pc)
      requires i < |running|
      modifies `running, `wg
      ensures running == At(old(Abstract()), i, Leaving).running + [Goroutine(true, entry)] && wg == old(wg) + 1
    {
      wg := wg + 1;
      SetPc(i, Leaving);
      running := running + [Goroutine(true, entry)];
    }

    method DeclareAlive(i: nat)
      requires i < |running|
      modifies this
      ensures Abstract() == Declare(old(Abstract()), i, ToAlive)
      ensures MayDeclare(old(Abstract()), i, ToAlive) ==> Safe(Abstract()) && panic == NoPanic
    {
      if MayDeclare(Abstract(), i, ToAlive) {
        DeclareIsSafe(Abstract(), i);
      }
      if state == Closed {
        SetPc(i, Leaving);
        return;
      }
      if state in {Dialed, InvalidChainID} {
        state := Alive;
        HandOver(i, AliveEntry);
      } else {
        panic := TransitionPanic;
      }
    }

    method DeclareInSync(i: nat)
      requires i < |running|
      modifies this
      ensures Abstract() == Declare(old(Abstract()), i, ToInSync)
      ensures MayDeclare(old(Abstract()), i, ToInSync) ==> Safe(Abstract()) && panic == NoPanic
    {
      if MayDeclare(Abstract(), i, ToInSync) {
        DeclareIsSafe(Abstract(), i);
      }
      if state == Closed {
        SetPc(i, Leaving);
        return;
      }
      if state == OutOfSync {
        state := Alive;
        HandOver(i, AliveEntry);
      } else {
        panic := TransitionPanic;
      }
    }

    method DeclareOutOfSync(i: nat)
      requires i < |running|
      modifies this
      ensures Abstract() == Declare(old(Abstract()), i, ToOutOfSync)
      ensures MayDeclare(old(Abstract()), i, ToOutOfSync) ==> Safe(Abstract()) && panic == NoPanic
    {
      if MayDeclare(Abstract(), i, ToOutOfSync) {
        DeclareIsSafe(Abstract(), i);
      }
      if state == Closed {
        SetPc(i, Leaving);
        return;
      }
      if state == Alive {
        state := OutOfSync;
        HandOver(i, OutOfSyncEntry);
      } else {
        panic := TransitionPanic;
      }
    }

    method DeclareUnreachable(i: nat)
      requires i < |running|
      modifies this
      ensures Abstract() == Declare(old(Abstract()), i, ToUnreachable)
      ensures MayDeclare(old(Abstract()), i, ToUnreachable) ==> Safe(Abstract()) && panic == NoPanic
    {
      if MayDeclare(Abstract(), i, ToUnreachable) {
        DeclareIsSafe(Abstract(), i);
      }
      if state == Closed {
        SetPc(i, Leaving);
        return;
      }
      if state in {Undialed, Dialed, Alive, OutOfSync, InvalidChainID} {
        state := Unreachable;
        HandOver(i, UnreachableEntry);
      } else {
        panic := TransitionPanic;
      }
    }

    method DeclareInvalidChainID(i: nat)
      requires i < |running|
      modifies this
      ensures Abstract() == Declare(old(Abstract()), i, ToInvalidChainID)
      ensures MayDeclare(old(Abstract()), i, ToInvalidChainID) ==> Safe(Abstract()) && panic == NoPanic
    {
      if MayDeclare(Abstract(), i, ToInvalidChainID) {
        DeclareIsSafe(Abstract(), i);
      }
      if state == Closed {
        SetPc(i, Leaving);
        return;
      }
      if state in {Dialed, OutOfSync} {
        state := InvalidChainID;
        HandOver(i, InvalidEntry);
      } else {
        panic := TransitionPanic;
      }
    }

    /** Cancels the node's context; waiting for the loops and closing the connection come later. */
    method CloseNode()
      requires panic == NoPanic
      modifies this
      ensures Abstract() == Step(old(Abstract()), Close)
      ensures Safe(old(Abstract())) ==> Safe(Abstract())
    {
      if Safe(Abstract()) {
        StepIsSafe(Abstract(), Close);
      }
      ctxDone := true;
      state := Closed;
    }
  }
}

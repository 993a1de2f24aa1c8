/**
 The nodes of one chain together (common/client/multi_node.go and the guards of node_lifecycle.go). Every
 guard reads how many nodes are alive, and only a later step takes its node out of the pool.
 */
module Pool {
  import opened NodeLifecycle

  datatype Move = CloseNode(k: nat) | RunNode(k: nat, i: nat, answer: Answer)

  function LiveCount(pool: seq<Node>): nat {
    if pool == [] then 0 else (if pool[0].state == Alive then 1 else 0) + LiveCount(pool[1..])
  }

  function PoolStep(pool: seq<Node>, e: Move): seq<Node> {
    if e.k >= |pool| then pool
    else if e.CloseNode? then pool[e.k := Step(pool[e.k], Close)]
    else pool[e.k := Step(pool[e.k], Run(e.i, e.answer, LiveCount(pool)))]
  }

  function PoolAfter(pool: seq<Node>, events: seq<Move>): seq<Node>
    decreases |events|
  {
    if events == [] then pool else PoolAfter(PoolStep(pool, events[0]), events[1..])
  }

  ghost predicate AllSafe(pool: seq<Node>) {
    forall k :: 0 <= k < |pool| ==> Safe(pool[k])
  }

  const LEAVING: set<Pc> := {Declaring(ToUnreachable), Declaring(ToOutOfSync)}

  /** Nobody has decided to take the node out of the pool. */
  predicate Undecided(n: Node) {
    forall i :: 0 <= i < |n.running| ==> n.running[i].pc !in LEAVING
  }

  predicate Staying(n: Node) {
    n.state == Alive && Undecided(n)
  }

  ghost predicate SomeStaying(pool: seq<Node>) {
    exists k :: 0 <= k < |pool| && Staying(pool[k])
  }

  /** No live node is between its guard and its transition. */
  ghost predicate NoneDecided(pool: seq<Node>) {
    forall k :: 0 <= k < |pool| && pool[k].state == Alive ==> Undecided(pool[k])
  }

  predicate RunsAt(pool: seq<Node>, e: Move, at: set<Pc>) {
    && e.RunNode? && e.k < |pool| && pool[e.k].panic == NoPanic
    && e.i < |pool[e.k].running| && pool[e.k].running[e.i].pc in at
  }

  /** The polls failed, or the node fell behind, and the guard lets it go. */
  predicate PassesGuard(pool: seq<Node>, e: Move) {
    RunsAt(pool, e, {AliveSelect}) && e.answer in {PollsFail, FallsBehind} && LiveCount(pool) >= 2
  }

  /** The exits no guard protects: the subscription cannot be had or ends, or the node is closed. */
  predicate Unguarded(pool: seq<Node>, e: Move) {
    || (e.CloseNode? && e.k < |pool| && pool[e.k].panic == NoPanic)
    || (RunsAt(pool, e, {AliveSubscribe, AliveSelect}) && e.answer == Fails)
  }

  lemma {:induction false} LiveNodeCounts(pool: seq<Node>, k: nat)
    requires k < |pool| && pool[k].state == Alive
    ensures LiveCount(pool) >= 1
  {
    if k > 0 {
      LiveNodeCounts(pool[1..], k - 1);
    }
  }

  lemma {:induction false} SomeLive(pool: seq<Node>) returns (k: nat)
    requires LiveCount(pool) >= 1
    ensures k < |pool| && pool[k].state == Alive
  {
    k := 0;
    if pool[0].state != Alive {
      k := SomeLive(pool[1..]);
      k := k + 1;
    }
  }

  lemma {:induction false} AnotherLive(pool: seq<Node>, k: nat) returns (j: nat)
    requires LiveCount(pool) >= 2
    ensures j < |pool| && j != k && pool[j].state == Alive
  {
    if pool[0].state == Alive && k != 0 {
      j := 0;
    } else if k == 0 {
      j := SomeLive(pool[1..]);
      j := j + 1;
    } else {
      j := AnotherLive(pool[1..], k - 1);
      j := j + 1;
    }
  }

  lemma FinishedIsUndecided(n: Node, i: nat)
    requires i < |n.running| && Undecided(n)
    ensures Undecided(Finish(n, i))
  {
    var m := Finish(n, i);
    assert forall j :: 0 <= j < |m.running| ==> m.running[j] == n.running[if j < i then j else j + 1];
  }

  lemma MovedIsUndecided(n: Node, i: nat, pc: Pc)
    requires i < |n.running| && Undecided(n)
    ensures Undecided(At(n, i, pc)) <==> pc !in {Declaring(ToUnreachable), Declaring(ToOutOfSync)}
  {
    var m := At(n, i, pc);
    assert m.running[i].pc == pc;
    assert forall j :: 0 <= j < |m.running| && j != i ==> m.running[j] == n.running[j];
  }

  lemma FollowFromAlive(pc: Pc, answer: Answer, live: nat, ctxDone: bool)
    requires pc in {AliveSubscribe, AliveSelect}
    ensures Follow(pc, answer, live, ctxDone) in {Declaring(ToUnreachable), Declaring(ToOutOfSync)} <==>
            answer == Fails || (pc == AliveSelect && answer in {PollsFail, FallsBehind} && live >= 2)
  {
  }

  lemma NodeStopsStaying(n: Node, i: nat, answer: Answer, live: nat)
    requires Safe(n) && Staying(n)
    ensures var m := Step(n, Run(i, answer, live));
            !Staying(m) <==>
            && n.panic == NoPanic && i < |n.running| && n.running[i].pc in {AliveSubscribe, AliveSelect}
            && (answer == Fails || (n.running[i].pc == AliveSelect && answer in {PollsFail, FallsBehind} && live >= 2))
  {
    if n.panic == NoPanic && i < |n.running| {
      var pc := n.running[i].pc;
      if pc == Leaving {
        FinishedIsUndecided(n, i);
      } else if pc == AliveEntry {
        MovedIsUndecided(n, i, AliveSubscribe);
      } else {
        assert n.state in Expected(pc);
        assert pc in {AliveSubscribe, AliveSelect};
        FollowFromAlive(pc, answer, live, n.ctxDone);
        MovedIsUndecided(n, i, Follow(pc, answer, live, n.ctxDone));
      }
    }
  }

  /** A staying node stops staying in one step exactly when it passes its guard or leaves by an unguarded exit. */
  lemma StopsStaying(pool: seq<Node>, e: Move)
    requires AllSafe(pool) && e.k < |pool| && Staying(pool[e.k])
    ensures !Staying(PoolStep(pool, e)[e.k]) <==> PassesGuard(pool, e) || Unguarded(pool, e)
  {
    if e.RunNode? {
      NodeStopsStaying(pool[e.k], e.i, e.answer, LiveCount(pool));
    }
  }

  /**
   The exact way a pool loses its last staying node: that node passes its guard although every other live
   node has already decided to leave, or it leaves by an unguarded exit.
   */
  lemma FloorIsLost(pool: seq<Node>, e: Move)
    requires AllSafe(pool) && SomeStaying(pool)
    ensures !SomeStaying(PoolStep(pool, e)) <==>
            && e.k < |pool|
            && (forall j :: 0 <= j < |pool| && Staying(pool[j]) ==> j == e.k)
            && (PassesGuard(pool, e) || Unguarded(pool, e))
  {
    var after := PoolStep(pool, e);
    var k :| 0 <= k < |pool| && Staying(pool[k]);
    if e.k >= |pool| || !Staying(pool[e.k]) {
      assert Staying(after[k]);
    } else {
      StopsStaying(pool, e);
      if j :| 0 <= j < |pool| && Staying(pool[j]) && j != e.k {
        assert Staying(after[j]);
      }
    }
  }

  lemma PoolStepIsSafe(pool: seq<Node>, e: Move)
    requires AllSafe(pool)
    ensures AllSafe(PoolStep(pool, e)) && |PoolStep(pool, e)| == |pool|
  {
    if e.k < |pool| {
      StepIsSafe(pool[e.k], if e.CloseNode? then Close else Run(e.i, e.answer, LiveCount(pool)));
    }
  }

  /** No unguarded exit, and a guard is passed only while no other live node is on its way out. */
  ghost predicate Careful(pool: seq<Node>, events: seq<Move>)
    decreases |events|
  {
    events != [] ==>
      && !Unguarded(pool, events[0])
      && (PassesGuard(pool, events[0]) ==>
            forall j :: 0 <= j < |pool| && j != events[0].k && pool[j].state == Alive ==> Undecided(pool[j]))
      && Careful(PoolStep(pool, events[0]), events[1..])
  }

  /** Over any run of that kind, however the steps of the nodes interleave, the pool keeps a live node. */
  lemma {:induction false} PoolFloor(pool: seq<Node>, events: seq<Move>)
    requires AllSafe(pool) && SomeStaying(pool) && Careful(pool, events)
    ensures LiveCount(PoolAfter(pool, events)) >= 1
    decreases |events|
  {
    if events == [] {
      var k :| 0 <= k < |pool| && Staying(pool[k]);
      LiveNodeCounts(pool, k);
    } else {
      PoolStepIsSafe(pool, events[0]);
      FloorIsLost(pool, events[0]);
      if PassesGuard(pool, events[0]) {
        var j := AnotherLive(pool, events[0].k);
        assert Staying(pool[j]);
      }
      PoolFloor(PoolStep(pool, events[0]), events[1..]);
    }
  }

  /** Only what nodes have already decided is carried out. */
  predicate OnlyDecided(pool: seq<Node>, events: seq<Move>)
    decreases |events|
  {
    events != [] ==> RunsAt(pool, events[0], LEAVING) && OnlyDecided(PoolStep(pool, events[0]), events[1..])
  }

  ghost predicate NoPanics(pool: seq<Node>) {
    forall k :: 0 <= k < |pool| ==> pool[k].panic == NoPanic
  }

  /** What nodes have already decided can empty the pool if and only if no node is staying. */
  lemma DecidedEmpties(pool: seq<Node>)
    requires AllSafe(pool) && NoPanics(pool)
    ensures (exists events :: OnlyDecided(pool, events) && LiveCount(PoolAfter(pool, events)) == 0) <==>
            !SomeStaying(pool)
  {
    if k :| 0 <= k < |pool| && Staying(pool[k]) {
      forall events | OnlyDecided(pool, events) ensures LiveCount(PoolAfter(pool, events)) != 0 {
        StayingStays(pool, events, k);
      }
    } else {
      var events := EmptyingRun(pool);
    }
  }

  lemma {:induction false} StayingStays(pool: seq<Node>, events: seq<Move>, k: nat)
    requires k < |pool| && Staying(pool[k]) && OnlyDecided(pool, events)
    ensures LiveCount(PoolAfter(pool, events)) >= 1
    decreases |events|
  {
    if events == [] {
      LiveNodeCounts(pool, k);
    } else {
      StayingStays(PoolStep(pool, events[0]), events[1..], k);
    }
  }

  lemma {:induction false} EmptyingRun(pool: seq<Node>) returns (events: seq<Move>)
    requires AllSafe(pool) && NoPanics(pool) && !SomeStaying(pool)
    ensures OnlyDecided(pool, events) && LiveCount(PoolAfter(pool, events)) == 0
    decreases LiveCount(pool)
  {
    events := [];
    if LiveCount(pool) > 0 {
      var k := SomeLive(pool);
      assert !Staying(pool[k]);
      var i :| 0 <= i < |pool[k].running| && pool[k].running[i].pc in LEAVING;
      var e := RunNode(k, i, Ok);
      var after := PoolStep(pool, e);
      ExitLeaves(pool[k], i, LiveCount(pool));
      PoolStepIsSafe(pool, e);
      OneFewer(pool, k, after[k]);
      assert !SomeStaying(after) by {
        assert forall j :: 0 <= j < |pool| && j != k ==> after[j] == pool[j];
      }
      var rest := EmptyingRun(after);
      events := [e] + rest;
      assert events[1..] == rest;
    }
  }

  lemma ExitLeaves(n: Node, i: nat, live: nat)
    requires Safe(n) && n.panic == NoPanic && n.state == Alive && i < |n.running| && n.running[i].pc in LEAVING
    ensures var m := Step(n, Run(i, Ok, live)); m.state != Alive && m.panic == NoPanic
  {
  }

  lemma {:induction false} OneFewer(pool: seq<Node>, k: nat, m: Node)
    requires k < |pool| && pool[k].state == Alive && m.state != Alive
    ensures LiveCount(pool[k := m]) == LiveCount(pool) - 1
  {
    if k > 0 {
      assert pool[k := m][1..] == pool[1..][k - 1 := m];
      OneFewer(pool[1..], k - 1, m);
    } else {
      assert pool[k := m][1..] == pool[1..];
    }
  }

  /** A guard and its transition as one step. */
  function AtomicStep(pool: seq<Node>, e: Move): seq<Node> {
    var next := PoolStep(pool, e);
    if PassesGuard(pool, e) then PoolStep(next, e) else next
  }

  function AtomicAfter(pool: seq<Node>, events: seq<Move>): seq<Node>
    decreases |events|
  {
    if events == [] then pool else AtomicAfter(AtomicStep(pool, events[0]), events[1..])
  }

  predicate OnlyGuarded(pool: seq<Node>, events: seq<Move>)
    decreases |events|
  {
    events != [] ==> !Unguarded(pool, events[0]) && OnlyGuarded(AtomicStep(pool, events[0]), events[1..])
  }

  /** A node that comes alive is watched by a loop that has decided nothing yet. */
  lemma ComesAliveUndecided(n: Node, i: nat)
    requires Safe(n) && n.panic == NoPanic && i < |n.running| && n.running[i].pc.Declaring?
    ensures var m := Declare(n, i, n.running[i].pc.target); m.state == Alive && n.state != Alive ==> Undecided(m)
  {
    var m := Declare(n, i, n.running[i].pc.target);
    if m.state == Alive && n.state != Alive {
      assert forall j :: 0 <= j < |n.running| && j != i ==> m.running[j] == n.running[j] && !InControl(n.running[j]);
      assert m.running[i].pc == Leaving && m.running[|n.running|].pc == AliveEntry;
    }
  }

  lemma StepDecidesNothing(n: Node, i: nat, answer: Answer, live: nat)
    requires Safe(n) && (n.state == Alive ==> Staying(Step(n, Run(i, answer, live))))
    ensures var m := Step(n, Run(i, answer, live)); m.state == Alive ==> Undecided(m)
  {
    if n.state != Alive && n.panic == NoPanic && i < |n.running| && n.running[i].pc.Declaring? {
      ComesAliveUndecided(n, i);
    }
  }

  /** A node that passes its guard is on its way out, and the next step takes it there. */
  lemma DecidedLeaves(n: Node, i: nat, answer: Answer, live: nat, later: nat)
    requires Safe(n) && n.panic == NoPanic && i < |n.running| && n.running[i].pc == AliveSelect
    requires answer in {PollsFail, FallsBehind} && live >= 2
    ensures Step(Step(n, Run(i, answer, live)), Run(i, answer, later)).state != Alive
  {
    var target := if answer == PollsFail then ToUnreachable else ToOutOfSync;
    var decided := Step(n, Run(i, answer, live));
    assert decided.running[i].pc == Declaring(target) && decided.state == n.state;
  }

  /** With the guard and its transition in one step, the node that goes leaves another one alive behind. */
  lemma GuardedExit(pool: seq<Node>, e: Move)
    requires AllSafe(pool) && NoneDecided(pool) && PassesGuard(pool, e)
    ensures AllSafe(AtomicStep(pool, e)) && NoneDecided(AtomicStep(pool, e))
    ensures LiveCount(AtomicStep(pool, e)) >= 1
  {
    var decided := PoolStep(pool, e);
    PoolStepIsSafe(pool, e);
    PoolStepIsSafe(decided, e);
    DecidedLeaves(pool[e.k], e.i, e.answer, LiveCount(pool), LiveCount(decided));
    OthersUntouched(pool, e);
  }

  lemma OthersUntouched(pool: seq<Node>, e: Move)
    requires NoneDecided(pool) && PassesGuard(pool, e) && AtomicStep(pool, e)[e.k].state != Alive
    ensures NoneDecided(AtomicStep(pool, e)) && LiveCount(AtomicStep(pool, e)) >= 1
  {
    var after := AtomicStep(pool, e);
    assert forall k :: 0 <= k < |pool| && k != e.k ==> after[k] == pool[k];
    var j := AnotherLive(pool, e.k);
    LiveNodeCounts(after, j);
  }

  lemma OtherStep(pool: seq<Node>, e: Move)
    requires AllSafe(pool) && NoneDecided(pool) && LiveCount(pool) >= 1
    requires !PassesGuard(pool, e) && !Unguarded(pool, e)
    ensures AllSafe(PoolStep(pool, e)) && NoneDecided(PoolStep(pool, e)) && LiveCount(PoolStep(pool, e)) >= 1
  {
    PoolStepIsSafe(pool, e);
    var k := SomeLive(pool);
    assert Staying(pool[k]);
    FloorIsLost(pool, e);
    var after := PoolStep(pool, e);
    var j :| 0 <= j < |after| && Staying(after[j]);
    LiveNodeCounts(after, j);
    if e.RunNode? && e.k < |pool| {
      if pool[e.k].state == Alive {
        StopsStaying(pool, e);
      }
      StepDecidesNothing(pool[e.k], e.i, e.answer, LiveCount(pool));
    }
  }

  /** No run of poll failures, nodes fallen behind and silent heads takes the last live node, if guards were atomic. */
  lemma {:induction false} AtomicFloor(pool: seq<Node>, events: seq<Move>)
    requires AllSafe(pool) && NoneDecided(pool) && LiveCount(pool) >= 1 && OnlyGuarded(pool, events)
    ensures LiveCount(AtomicAfter(pool, events)) >= 1
    decreases |events|
  {
    if events != [] {
      if PassesGuard(pool, events[0]) {
        GuardedExit(pool, events[0]);
      } else {
        OtherStep(pool, events[0]);
      }
      AtomicFloor(AtomicStep(pool, events[0]), events[1..]);
    }
  }

  /** The zombie check: an out-of-sync node goes back to the pool exactly when nobody is left in it. */
  lemma ZombieCheck(pool: seq<Node>, k: nat, i: nat)
    requires AllSafe(pool) && k < |pool| && pool[k].panic == NoPanic && pool[k].state == OutOfSync
    requires i < |pool[k].running| && pool[k].running[i].pc == OutOfSyncSelect
    ensures var after := PoolStep(PoolStep(pool, RunNode(k, i, Zombie)), RunNode(k, i, Zombie));
            after[k].state == Alive <==> LiveCount(pool) == 0
    ensures LiveCount(pool) == 0 ==>
              LiveCount(PoolStep(PoolStep(pool, RunNode(k, i, Zombie)), RunNode(k, i, Zombie))) >= 1
  {
    var checked := PoolStep(pool, RunNode(k, i, Zombie));
    assert checked[k].state == OutOfSync && checked[k].panic == NoPanic;
    assert checked[k].running[i].pc == if LiveCount(pool) == 0 then Declaring(ToInSync) else OutOfSyncSelect;
    var after := PoolStep(checked, RunNode(k, i, Zombie));
    if LiveCount(pool) == 0 {
      LiveNodeCounts(after, k);
    } else {
      assert after[k].state == OutOfSync;
    }
  }

  /** A started node that is watched by its alive loop. */
  const WATCHED := Node(Alive, false, [Goroutine(false, Leaving), Goroutine(true, AliveSelect)], 1, NoPanic)

  lemma {:induction false} PoolAfterOneMore(pool: seq<Node>, events: seq<Move>, e: Move)
    ensures PoolAfter(pool, events + [e]) == PoolStep(PoolAfter(pool, events), e)
    decreases |events|
  {
    if events == [] {
      assert events + [e] == [e] && [e][1..] == [];
      assert PoolAfter(pool, [e]) == PoolAfter(PoolStep(pool, e), [e][1..]);
    } else {
      assert (events + [e])[1..] == events[1..] + [e];
      PoolAfterOneMore(PoolStep(pool, events[0]), events[1..], e);
    }
  }

  function Starting(pc: Pc): Node {
    Node(if pc in {StartDial, StartSetDialed} then Undialed else Dialed, false, [Goroutine(false, pc)], 0, NoPanic)
  }

  function Declared(pc: Pc): Node {
    Node(Alive, false, [Goroutine(false, Leaving), Goroutine(true, pc)], 1, NoPanic)
  }

  /** A step that goes well and does not depend on the pool. */
  ghost predicate GoesOn(n: Node, i: nat, m: Node) {
    forall live: nat :: Step(n, Run(i, Ok, live)) == m
  }

  /** What a node does between `Start` and its alive loop does not look at the pool. */
  lemma NodeStarts()
    ensures STARTED == Starting(StartDial)
    ensures GoesOn(Starting(StartDial), 0, Starting(StartSetDialed))
        && GoesOn(Starting(StartSetDialed), 0, Starting(StartVerify))
  {
  }

  lemma NodeDeclares()
    ensures GoesOn(Starting(StartVerify), 0, Starting(Declaring(ToAlive)))
    ensures GoesOn(Starting(Declaring(ToAlive)), 0, Declared(AliveEntry))
  {
    assert [Goroutine(false, Leaving)] + [Goroutine(true, AliveEntry)] == Declared(AliveEntry).running;
  }

  lemma LoopStarts()
    ensures GoesOn(Declared(AliveEntry), 1, Declared(AliveSubscribe)) && GoesOn(Declared(AliveSubscribe), 1, WATCHED)
  {
    assert Declared(AliveEntry).running[1 := Goroutine(true, AliveSubscribe)] == Declared(AliveSubscribe).running;
    assert Declared(AliveSubscribe).running[1 := Goroutine(true, AliveSelect)] == WATCHED.running;
  }

  /** One more step of node `k`, on its own. */
  lemma NodeMoves(pool: seq<Node>, events: seq<Move>, k: nat, i: nat, answer: Answer) returns (longer: seq<Move>)
    requires k < |PoolAfter(pool, events)|
    ensures longer == events + [RunNode(k, i, answer)]
    ensures var now := PoolAfter(pool, events);
            PoolAfter(pool, longer) == now[k := Step(now[k], Run(i, answer, LiveCount(now)))]
  {
    longer := events + [RunNode(k, i, answer)];
    PoolAfterOneMore(pool, events, RunNode(k, i, answer));
  }

  lemma NodeComesUp(pool: seq<Node>, events: seq<Move>, k: nat) returns (longer: seq<Move>)
    requires k < |PoolAfter(pool, events)| && PoolAfter(pool, events)[k] == STARTED
    requires forall e :: e in events ==> e.RunNode? && e.answer == Ok
    ensures forall e :: e in longer ==> e.RunNode? && e.answer == Ok
    ensures PoolAfter(pool, longer) == PoolAfter(pool, events)[k := WATCHED]
  {
    var now := PoolAfter(pool, events);
    assert now == now[k := STARTED];
    NodeStarts();
    NodeDeclares();
    LoopStarts();
    longer := NodeGoesOn(pool, events, now, k, Starting(StartDial), 0, Starting(StartSetDialed));
    longer := NodeGoesOn(pool, longer, now, k, Starting(StartSetDialed), 0, Starting(StartVerify));
    longer := NodeGoesOn(pool, longer, now, k, Starting(StartVerify), 0, Starting(Declaring(ToAlive)));
    longer := NodeGoesOn(pool, longer, now, k, Starting(Declaring(ToAlive)), 0, Declared(AliveEntry));
    longer := NodeGoesOn(pool, longer, now, k, Declared(AliveEntry), 1, Declared(AliveSubscribe));
    longer := NodeGoesOn(pool, longer, now, k, Declared(AliveSubscribe), 1, WATCHED);
  }

  lemma NodeGoesOn(pool: seq<Node>, events: seq<Move>, now: seq<Node>, k: nat, n: Node, i: nat, m: Node)
    returns (longer: seq<Move>)
    requires k < |now| && PoolAfter(pool, events) == now[k := n] && GoesOn(n, i, m)
    requires forall e :: e in events ==> e.RunNode? && e.answer == Ok
    ensures forall e :: e in longer ==> e.RunNode? && e.answer == Ok
    ensures PoolAfter(pool, longer) == now[k := m]
  {
    longer := NodeMoves(pool, events, k, i, Ok);
    assert Step(n, Run(i, Ok, LiveCount(now[k := n]))) == m;
  }

  /** How a watched node goes once its polls failed. */
  lemma NodeGoes(live: nat)
    requires live >= 2
    ensures Step(WATCHED, Run(1, PollsFail, live)) == Declared(Declaring(ToUnreachable))
    ensures forall now: nat :: Step(Declared(Declaring(ToUnreachable)), Run(1, Ok, now)).state == Unreachable
  {
    assert WATCHED.running[1 := Goroutine(true, Declaring(ToUnreachable))] ==
        Declared(Declaring(ToUnreachable)).running;
  }

  /**
   The guards are not atomic in the code: from two freshly started nodes, both can read a live count of two
   before either leaves, and then none is left, though every exit was guarded.
   */
  lemma GuardsRace() returns (events: seq<Move>)
    ensures LiveCount(PoolAfter([STARTED, STARTED], events)) == 0
    ensures forall e :: e in events ==> e.RunNode? && e.answer in {Ok, PollsFail}
  {
    var pool := [STARTED, STARTED];
    events := BothUp();
    TwoLive(WATCHED, WATCHED);
    events := NodeMoves(pool, events, 0, 1, PollsFail);
    NodeGoes(2);
    TwoLive(Declared(Declaring(ToUnreachable)), WATCHED);
    assert PoolAfter(pool, events) == [Declared(Declaring(ToUnreachable)), WATCHED];
    events := NodeMoves(pool, events, 1, 1, PollsFail);
    assert PoolAfter(pool, events) == [Declared(Declaring(ToUnreachable)), Declared(Declaring(ToUnreachable))];
    events := NodeMoves(pool, events, 0, 1, Ok);
    events := NodeMoves(pool, events, 1, 1, Ok);
    NoneLive(PoolAfter(pool, events));
  }

  lemma BothUp() returns (events: seq<Move>)
    ensures PoolAfter([STARTED, STARTED], events) == [WATCHED, WATCHED]
    ensures forall e :: e in events ==> e.RunNode? && e.answer == Ok
  {
    var pool := [STARTED, STARTED];
    events := NodeComesUp(pool, [], 0);
    assert PoolAfter(pool, events) == [WATCHED, STARTED];
    events := NodeComesUp(pool, events, 1);
    assert PoolAfter(pool, events) == [WATCHED, WATCHED];
  }

  lemma TwoLive(first: Node, second: Node)
    ensures LiveCount([first, second]) ==
        (if first.state == Alive then 1 else 0) + (if second.state == Alive then 1 else 0)
  {
    assert [first, second][1..] == [second] && [second][1..] == [];
    assert LiveCount([second]) == (if second.state == Alive then 1 else 0) + LiveCount([second][1..]);
  }

  lemma {:induction false} NoneLive(pool: seq<Node>)
    requires forall k :: 0 <= k < |pool| ==> pool[k].state != Alive
    ensures LiveCount(pool) == 0
  {
    if pool != [] {
      NoneLive(pool[1..]);
    }
  }
}

/** How a pool picks its active node (common/client/node_selector_*.go). Nodes are named by their place in the list. */
module Selectors {
  import opened Options
  import opened NodeLifecycle
  import opened Endpoints
  import opened SyncStatus
  import opened Sorting
  import opened Division

  ghost predicate AllInRange(nodes: seq<Endpoint>) {
    forall k :: 0 <= k < |nodes| ==> InRange(nodes[k])
  }

  /** In the list and before `b` in priority: a smaller order, or the same order and an earlier place. */
  predicate Outranks(nodes: seq<Endpoint>, a: int, b: int)
    requires 0 <= a < |nodes| && 0 <= b < |nodes|
  {
    nodes[a].order < nodes[b].order || (nodes[a].order == nodes[b].order && a < b)
  }

  /**
   The pick from a set of candidates: the one that outranks all others. An order of MaxInt32 cannot be picked,
   and without another candidate there is no pick.
   */
  ghost predicate IsPick(nodes: seq<Endpoint>, candidates: set<int>, pick: Option<int>)
    requires forall k :: k in candidates ==> 0 <= k < |nodes|
  {
    && (pick.None? <==> forall k :: k in candidates ==> nodes[k].order >= MAX_INT32)
    && (pick.Some? ==>
          pick.value in candidates && forall k :: k in candidates && k != pick.value ==> Outranks(nodes, pick.value, k))
  }

  /** Places below `n`, each once and in order. */
  predicate InOrder(s: seq<int>, n: int) {
    (forall i :: 0 <= i < |s| ==> 0 <= s[i] < n) && (forall i, j :: 0 <= i < j < |s| ==> s[i] < s[j])
  }

  function Elements(s: seq<int>): set<int> {
    set i | 0 <= i < |s| :: s[i]
  }

  method FirstOrHighestPriority(nodes: seq<Endpoint>, candidates: seq<int>) returns (pick: Option<int>)
    requires InOrder(candidates, |nodes|)
    ensures IsPick(nodes, Elements(candidates), pick)
  {
    var hp := MAX_INT32;
    pick := None;
    for i := 0 to |candidates|
      invariant pick.None? ==> hp == MAX_INT32 && forall j :: 0 <= j < i ==> nodes[candidates[j]].order >= MAX_INT32
      invariant pick.Some? ==> pick.value in candidates[..i] && hp == nodes[pick.value].order < MAX_INT32
      invariant pick.Some? ==> forall j :: 0 <= j < i && candidates[j] != pick.value ==>
          Outranks(nodes, pick.value, candidates[j])
    {
      var n := candidates[i];
      if nodes[n].order < hp {
        hp := nodes[n].order;
        pick := Some(n);
      }
    }
    if pick.None? {
      assert forall k :: k in Elements(candidates) ==> nodes[k].order >= MAX_INT32;
    } else {
      assert pick.value in Elements(candidates);
    }
  }

  /** The live nodes with no live node ahead of them. */
  ghost function HighestHeads(nodes: seq<Endpoint>): (heads: set<int>) {
    set k | 0 <= k < |nodes| && IsLive(nodes, k) && forall j :: IsLive(nodes, j) ==> nodes[j].num <= nodes[k].num
  }

  method SelectHighestHead(nodes: seq<Endpoint>) returns (pick: Option<int>)
    requires AllInRange(nodes)
    ensures IsPick(nodes, HighestHeads(nodes), pick)
  {
    var highest, candidates := MIN_INT64, [];
    for i := 0 to |nodes|
      invariant InOrder(candidates, i)
      invariant forall k :: 0 <= k < i && IsLive(nodes, k) ==> nodes[k].num <= highest
      invariant forall k :: k in candidates <==> 0 <= k < i && IsLive(nodes, k) && nodes[k].num == highest
      invariant candidates == [] ==> highest == MIN_INT64 && forall k :: 0 <= k < i ==> !IsLive(nodes, k)
    {
      if nodes[i].state == Alive && nodes[i].num >= highest {
        if highest < nodes[i].num {
          highest, candidates := nodes[i].num, [];
        }
        candidates := candidates + [i];
      }
    }
    if candidates != [] {
      assert candidates[0] in candidates;
    }
    assert Elements(candidates) == HighestHeads(nodes);
    pick := FirstOrHighestPriority(nodes, candidates);
  }

  /** The live nodes whose difficulty is known and not exceeded; where none is known, all live nodes. */
  ghost function Heaviest(nodes: seq<Endpoint>): (heavy: set<int>) {
    if exists j :: IsLive(nodes, j) && nodes[j].td.Some? then
      set k | 0 <= k < |nodes| && IsLive(nodes, k) && nodes[k].td.Some?
              && forall j :: IsLive(nodes, j) && nodes[j].td.Some? ==> nodes[j].td.value <= nodes[k].td.value
    else LiveSet(nodes)
  }

  /** Among the first `i`: the greatest known difficulty of a live node, and the nodes that have it. */
  ghost predicate Leading(nodes: seq<Endpoint>, i: nat, highest: Option<int>, candidates: seq<int>) {
    && InOrder(candidates, i) && (highest.None? <==> candidates == [])
    && (forall k :: 0 <= k < i && IsLive(nodes, k) && nodes[k].td.Some? ==>
          highest.Some? && nodes[k].td.value <= highest.value)
    && (forall k :: k in candidates <==> 0 <= k < i && IsLive(nodes, k) && highest.Some? && nodes[k].td == highest)
  }

  lemma LeadingOn(nodes: seq<Endpoint>, i: nat, highest: Option<int>, candidates: seq<int>)
    requires i < |nodes| && Leading(nodes, i, highest, candidates)
    ensures var td := nodes[i].td;
            if nodes[i].state != Alive || td.None? || (highest.Some? && td.value < highest.value) then
              Leading(nodes, i + 1, highest, candidates)
            else if td == highest then Leading(nodes, i + 1, highest, candidates + [i])
            else Leading(nodes, i + 1, td, [i])
  {
  }

  method SelectTotalDifficulty(nodes: seq<Endpoint>) returns (pick: Option<int>)
    ensures IsPick(nodes, Heaviest(nodes), pick)
  {
    var highest: Option<int> := None;
    var candidates, alive: seq<int> := [], [];
    for i := 0 to |nodes|
      invariant InOrder(alive, i) && forall k :: k in alive <==> 0 <= k < i && IsLive(nodes, k)
      invariant Leading(nodes, i, highest, candidates)
    {
      LeadingOn(nodes, i, highest, candidates);
      if nodes[i].state == Alive {
        alive := alive + [i];
        var td := nodes[i].td;
        if td.Some? && (highest.None? || td.value >= highest.value) {
          if highest.None? || td.value > highest.value {
            highest, candidates := td, [];
          }
          candidates := candidates + [i];
        }
      }
    }
    if candidates == [] {
      AliveAreHeaviest(nodes, alive);
      pick := FirstOrHighestPriority(nodes, alive);
    } else {
      CandidatesAreHeaviest(nodes, candidates, highest.value);
      pick := FirstOrHighestPriority(nodes, candidates);
    }
  }

  lemma AliveAreHeaviest(nodes: seq<Endpoint>, alive: seq<int>)
    requires forall k :: k in alive <==> IsLive(nodes, k)
    requires forall k :: IsLive(nodes, k) ==> nodes[k].td.None?
    ensures Elements(alive) == Heaviest(nodes)
  {
    assert forall k :: k in Elements(alive) <==> k in alive;
    assert Elements(alive) == LiveSet(nodes);
  }

  lemma CandidatesAreHeaviest(nodes: seq<Endpoint>, candidates: seq<int>, highest: int)
    requires candidates != [] && InOrder(candidates, |nodes|)
    requires forall k :: IsLive(nodes, k) && nodes[k].td.Some? ==> nodes[k].td.value <= highest
    requires forall k :: k in candidates <==> IsLive(nodes, k) && nodes[k].td == Some(highest)
    ensures Elements(candidates) == Heaviest(nodes)
  {
    assert candidates[0] in candidates;
    assert IsLive(nodes, candidates[0]) && nodes[candidates[0]].td.Some?;
  }

  /** The node picked by the highest head is never out of sync in the modes that compare heads. */
  lemma PickIsInSync(nodes: seq<Endpoint>, pick: Option<int>, threshold: nat)
    requires IsPick(nodes, HighestHeads(nodes), pick) && pick.Some? && nodes[pick.value].num + threshold >= 0
    ensures !BehindByHead(nodes, threshold, nodes[pick.value].num)
  {
  }

  /** With difficulties known throughout, neither is the one picked by difficulty. */
  lemma HeaviestPickIsInSync(nodes: seq<Endpoint>, pick: Option<int>, threshold: nat)
    requires IsPick(nodes, Heaviest(nodes), pick) && pick.Some?
    requires nodes[pick.value].td.Some? && nodes[pick.value].td.value >= 0
    ensures !BehindByDifficulty(nodes, threshold, nodes[pick.value].td.value)
  {
    assert IsLive(nodes, pick.value);
  }

  // Round robin

  const TWO32 := 0x1_0000_0000

  /** The live nodes in their order. */
  function Live(nodes: seq<Endpoint>): (live: seq<int>)
    ensures InOrder(live, |nodes|) && forall k :: k in live <==> IsLive(nodes, k)
  {
    if nodes == [] then []
    else
      var n := |nodes| - 1;
      var before := Live(nodes[..n]);
      assert forall k :: 0 <= k < n ==> (IsLive(nodes, k) <==> IsLive(nodes[..n], k));
      if nodes[n].state == Alive then before + [n] else before
  }

  /** One selection: the live node at the counter, which moves only when there is something to pick. */
  ghost predicate Turns(nodes: seq<Endpoint>, before: nat, after: int, pick: Option<int>) {
    var live := Live(nodes);
    if live == [] then pick.None? && after == before
    else pick == Some(live[before % |live|]) && after == (before + 1) % TWO32
  }

  class RoundRobin {
    var count: int

    ghost predicate Valid()
      reads this
    {
      0 <= count < TWO32
    }

    constructor ()
      ensures Valid() && count == 0
    {
      count := 0;
    }

    /** The counter moves only when there is something to pick: incremented, then used less one, both wrapping. */
    method Select(nodes: seq<Endpoint>) returns (pick: Option<int>)
      requires Valid()
      modifies this
      ensures Valid()
      ensures pick.None? <==> LiveSet(nodes) == {}
      ensures Turns(nodes, old(count), count, pick)
    {
      var live := [];
      for i := 0 to |nodes|
        invariant live == Live(nodes[..i])
        invariant count == old(count)
      {
        assert nodes[..i + 1][..i] == nodes[..i];
        if nodes[i].state == Alive {
          live := live + [i];
        }
      }
      assert nodes[..|nodes|] == nodes;
      if |live| == 0 {
        assert forall k :: k in LiveSet(nodes) ==> k in live;
        return None;
      }
      assert live[0] in live && live[0] in LiveSet(nodes);
      var current := AddOne();
      pick := Some(live[current % |live|]);
    }

    /** The counter as it was before it is incremented. */
    method AddOne() returns (current: nat)
      requires Valid()
      modifies this
      ensures Valid()
      ensures current == old(count) && count == (current + 1) % TWO32
    {
      count := (count + 1) % TWO32;
      current := (count - 1) % TWO32;
    }
  }

  /** The places in a list of `len` taken by `m` selections in a row. */
  function Picks(count: nat, m: nat, len: nat): (picks: seq<nat>)
    requires len > 0
  {
    seq(m, i requires 0 <= i < m => ((count + i) % TWO32) % len)
  }

  function Count<T(==)>(s: seq<T>, x: T): nat {
    if s == [] then 0 else Count(s[..|s| - 1], x) + if s[|s| - 1] == x then 1 else 0
  }

  lemma {:induction false} TimesIsDifference(count: nat, m: nat, len: nat, place: nat)
    requires place < len && count + m <= TWO32
    ensures Count(Picks(count, m, len), place) == Below(count + m, len, place) - Below(count, len, place)
  {
    if m > 0 {
      TimesIsDifference(count, m - 1, len, place);
      TimesLast(count, m, len, place);
      BelowNext(count + m - 1, len, place);
    }
  }

  lemma TimesLast(count: nat, m: nat, len: nat, place: nat)
    requires place < len && count + m <= TWO32 && m > 0
    ensures Count(Picks(count, m, len), place) ==
            Count(Picks(count, m - 1, len), place) + if (count + m - 1) % len == place then 1 else 0
  {
    var picks := Picks(count, m, len);
    assert picks[..m - 1] == Picks(count, m - 1, len);
    NoWrap(count + m - 1);
    PickAt(count, m, len, m - 1);
  }

  /**
   Any `m` places in a row of the rotation, without a wrap of the counter, take each place floor(m/L) or ceil(m/L)
   times.
   */
  lemma Fair(count: nat, m: nat, len: nat, place: nat)
    requires place < len && count < TWO32 && count + m <= TWO32
    ensures FairShare(Count(Picks(count, m, len), place), m, len)
  {
    TimesIsDifference(count, m, len, place);
    BelowSpread(count, m, len, place);
  }

  /** What was picked, counted by place or by node, when every place holds another node. */
  lemma {:induction false} CountThrough<T>(picks: seq<T>, places: seq<nat>, tier: seq<int>, named: int -> T, p: nat)
    requires |picks| == |places| && p < |tier|
    requires forall i, j :: 0 <= i < j < |tier| ==> tier[i] < tier[j]
    requires forall a, b :: named(a) == named(b) ==> a == b
    requires forall t :: 0 <= t < |picks| ==> places[t] < |tier| && picks[t] == named(tier[places[t]])
    ensures Count(picks, named(tier[p])) == Count(places, p)
  {
    if picks != [] {
      var last := |picks| - 1;
      CountThrough(picks[..last], places[..last], tier, named, p);
    }
  }

  lemma {:induction false} CountNone<T>(picks: seq<T>, x: T)
    requires forall t :: 0 <= t < |picks| ==> picks[t] != x
    ensures Count(picks, x) == 0
  {
    if picks != [] {
      CountNone(picks[..|picks| - 1], x);
    }
  }

  /** As often as any other of them, give or take one. */
  ghost predicate FairShare(times: nat, m: nat, len: nat)
    requires len > 0
  {
    times == m / len || (times == m / len + 1 && m % len != 0)
  }

  /** Selections in a row over the same nodes, with the counter before and after each. */
  ghost predicate IsRotation(nodes: seq<Endpoint>, counts: seq<nat>, picks: seq<Option<int>>) {
    && |counts| == |picks| + 1
    && forall t {:trigger picks[t]} :: 0 <= t < |picks| ==> Turns(nodes, counts[t], counts[t + 1], picks[t])
  }

  lemma {:induction false} CountsOn(nodes: seq<Endpoint>, counts: seq<nat>, picks: seq<Option<int>>, t: nat)
    requires IsRotation(nodes, counts, picks) && Live(nodes) != [] && t < |picks| && counts[0] + |picks| <= TWO32
    ensures counts[t] == counts[0] + t
    decreases t
  {
    if t > 0 {
      CountsOn(nodes, counts, picks, t - 1);
      var pick := picks[t - 1];
      assert Turns(nodes, counts[t - 1], counts[t], pick);
      NoWrap(counts[0] + t);
    }
  }

  /**
   Round robin is fair: over any selections in a row on the same nodes, without a wrap, each live node is picked
   floor(m/L) or ceil(m/L) times, and no other node is picked.
   */
  lemma RoundRobinIsFair(nodes: seq<Endpoint>, counts: seq<nat>, picks: seq<Option<int>>, k: int)
    requires IsRotation(nodes, counts, picks) && Live(nodes) != []
    requires counts[0] < TWO32 && counts[0] + |picks| <= TWO32
    ensures IsLive(nodes, k) ==> FairShare(Count(picks, Some(k)), |picks|, |Live(nodes)|)
    ensures !IsLive(nodes, k) ==> Count(picks, Some(k)) == 0
  {
    var live := Live(nodes);
    var places := Picks(counts[0], |picks|, |live|);
    forall t | 0 <= t < |picks| ensures places[t] < |live| && picks[t] == Some(live[places[t]]) {
      CountsOn(nodes, counts, picks, t);
      NoWrap(counts[0] + t);
      PickAt(counts[0], |picks|, |live|, t);
    }
    if IsLive(nodes, k) {
      var p :| 0 <= p < |live| && live[p] == k;
      CountThrough(picks, places, live, n => Some(n), p);
      Fair(counts[0], |picks|, |live|, p);
    } else {
      forall t | 0 <= t < |picks| ensures picks[t] != Some(k) {
        assert live[places[t]] in live;
      }
      CountNone(picks, Some(k));
    }
  }

  /** Where the counter wraps, the rotation goes on to the next place exactly when the length divides 2^32. */
  lemma WrapKeepsRotation(len: nat)
    requires 0 < len
    ensures var picks := Picks(TWO32 - 1, 2, len);
            |picks| == 2 && (picks[1] == (picks[0] + 1) % len <==> TWO32 % len == 0)
  {
    assert (TWO32 - 1 + 1) % TWO32 == 0;
    QuotientIs(0, len, 0, 0);
    StartOver(TWO32, len);
  }

  // Priority levels

  datatype WithPriority = WithPriority(node: int, priority: int)

  function Descending(n: WithPriority): int {
    -n.priority
  }

  /** The live nodes with their orders, in their places' order. */
  function LivePriorities(nodes: seq<Endpoint>): (r: seq<WithPriority>) {
    if nodes == [] then []
    else
      var n := |nodes| - 1;
      LivePriorities(nodes[..n]) + if nodes[n].state == Alive then [WithPriority(n, nodes[n].order)] else []
  }

  /** No live node has a smaller order. */
  ghost predicate IsLowestOrder(nodes: seq<Endpoint>, order: int) {
    && (exists k :: IsLive(nodes, k) && nodes[k].order == order)
    && (forall k :: IsLive(nodes, k) ==> nodes[k].order >= order)
  }

  /** The live nodes of one order, in their places' order. */
  function Tier(nodes: seq<Endpoint>, order: int): (tier: seq<int>)
    ensures InOrder(tier, |nodes|)
    ensures forall k :: k in tier <==> IsLive(nodes, k) && nodes[k].order == order
  {
    if nodes == [] then []
    else
      var n := |nodes| - 1;
      var before := Tier(nodes[..n], order);
      assert forall k :: 0 <= k < n ==> (IsLive(nodes, k) <==> IsLive(nodes[..n], k)) && nodes[k] == nodes[..n][k];
      if nodes[n].state == Alive && nodes[n].order == order then before + [n] else before
  }

  function Names(s: seq<WithPriority>): seq<int> {
    if s == [] then [] else [s[0].node] + Names(s[1..])
  }

  lemma {:induction false} NamesConcat(a: seq<WithPriority>, b: seq<WithPriority>)
    ensures Names(a + b) == Names(a) + Names(b)
  {
    if a == [] {
      assert a + b == b;
    } else {
      assert (a + b)[1..] == a[1..] + b;
      NamesConcat(a[1..], b);
    }
  }

  lemma {:induction false} TierIsFiltered(nodes: seq<Endpoint>, order: int)
    ensures Names(WithKey(LivePriorities(nodes), Descending, -order)) == Tier(nodes, order)
  {
    if nodes != [] {
      var n := |nodes| - 1;
      TierIsFiltered(nodes[..n], order);
      if nodes[n].state == Alive {
        FilteredMore(LivePriorities(nodes[..n]), WithPriority(n, nodes[n].order), order);
      } else {
        assert LivePriorities(nodes[..n]) + [] == LivePriorities(nodes[..n]);
      }
    }
  }

  lemma FilteredMore(before: seq<WithPriority>, last: WithPriority, order: int)
    ensures Names(WithKey(before + [last], Descending, -order)) ==
            Names(WithKey(before, Descending, -order)) + if last.priority == order then [last.node] else []
  {
    WithKeyConcat(before, [last], Descending, -order);
    NamesConcat(WithKey(before, Descending, -order), WithKey([last], Descending, -order));
    OneFiltered(last, order);
  }

  lemma OneFiltered(p: WithPriority, order: int)
    ensures Names(WithKey([p], Descending, -order)) == if p.priority == order then [p.node] else []
  {
    assert WithKey([p][1..], Descending, -order) == [];
    assert WithKey([p], Descending, -order) == if p.priority == order then [p] else [];
  }

  lemma {:induction false} LivePrioritiesMember(nodes: seq<Endpoint>, p: WithPriority)
    ensures p in LivePriorities(nodes) <==> IsLive(nodes, p.node) && nodes[p.node].order == p.priority
  {
    if nodes != [] {
      LivePrioritiesMember(nodes[..|nodes| - 1], p);
    }
  }

  /** Sorts and keeps the tier of the last node: the live nodes of the lowest order, in their places' order. */
  method RemoveLowerTiers(priorities: seq<WithPriority>) returns (tier: seq<WithPriority>, priority: int)
    requires priorities != []
    ensures exists p :: p in priorities && p.priority == priority
    ensures forall p :: p in priorities ==> p.priority >= priority
    ensures tier == WithKey(priorities, Descending, -priority) && tier != []
  {
    var sorted := Sort(priorities, Descending);
    var lowest := sorted[|sorted| - 1];
    priority := lowest.priority;
    assert lowest in multiset(sorted) && lowest in priorities;
    forall p | p in priorities ensures p.priority >= priority {
      assert p in multiset(sorted) && p in sorted;
    }
    tier := WithPriorityOnly(sorted, priority);
    LastHasItsKey(sorted, priority);
  }

  method WithPriorityOnly(nodes: seq<WithPriority>, currentPriority: int) returns (nodes2: seq<WithPriority>)
    ensures nodes2 == WithKey(nodes, Descending, -currentPriority)
  {
    nodes2 := [];
    for i := 0 to |nodes|
      invariant nodes2 == WithKey(nodes[..i], Descending, -currentPriority)
    {
      assert nodes[..i + 1] == nodes[..i] + [nodes[i]];
      WithKeyConcat(nodes[..i], [nodes[i]], Descending, -currentPriority);
      if nodes[i].priority == currentPriority {
        nodes2 := nodes2 + [nodes[i]];
      }
    }
    assert nodes[..|nodes|] == nodes;
  }

  lemma LastHasItsKey(nodes: seq<WithPriority>, priority: int)
    requires nodes != [] && nodes[|nodes| - 1].priority == priority
    ensures WithKey(nodes, Descending, -priority) != []
  {
    var n := |nodes| - 1;
    assert nodes == nodes[..n] + [nodes[n]];
    WithKeyConcat(nodes[..n], [nodes[n]], Descending, -priority);
  }

  /** Selections in a row over the same nodes, with the counters before and after each. */
  ghost predicate IsRun(nodes: seq<Endpoint>, counters: seq<seq<int>>, picks: seq<PriorityPick>) {
    && |counters| == |picks| + 1
    && forall t {:trigger picks[t]} :: 0 <= t < |picks| ==> Rotates(nodes, counters[t], counters[t + 1], picks[t])
  }

  /**
   While the same nodes are alive, the picks of a run rotate through the lowest-order tier, whatever the
   counters of the other tiers.
   */
  lemma PriorityRunRotates(nodes: seq<Endpoint>, order: nat, counters: seq<seq<int>>, picks: seq<PriorityPick>)
    requires IsRun(nodes, counters, picks) && LiveSet(nodes) != {} && IsLowestOrder(nodes, order)
    requires order < |counters[0]| && 0 <= counters[0][order] < TWO32 && Tier(nodes, order) != []
    ensures var tier := Tier(nodes, order);
            var places := Picks(counters[0][order], |picks|, |tier|);
            |places| == |picks| && forall t :: 0 <= t < |picks| ==>
                0 <= places[t] < |tier| && picks[t] == Picked(tier[places[t]])
  {
    var tier := Tier(nodes, order);
    RunWithinTier(nodes, order, counters, picks);
    forall t | 0 <= t < |picks|
      ensures Picks(counters[0][order], |picks|, |tier|)[t] < |tier|
      ensures picks[t] == Picked(tier[Picks(counters[0][order], |picks|, |tier|)[t]])
    {
      PickWithinTier(tier, order, counters, picks, t);
    }
  }

  lemma PickWithinTier(tier: seq<int>, order: nat, counters: seq<seq<int>>, picks: seq<PriorityPick>, t: nat)
    requires |counters| == |picks| + 1 && t < |picks| && tier != []
    requires forall k :: 0 <= k < |picks| ==> WithinTier(tier, order, counters, picks, k)
    requires order < |counters[0]| && 0 <= counters[0][order] < TWO32
    ensures var place := Picks(counters[0][order], |picks|, |tier|)[t];
            place < |tier| && picks[t] == Picked(tier[place])
  {
    CounterAfter(tier, order, counters, picks, t);
    PickAt(counters[0][order], |picks|, |tier|, t);
    assert WithinTier(tier, order, counters, picks, t);
  }

  /** So the priority mode is fair inside that tier, and picks no node outside it. */
  lemma PriorityIsFair(nodes: seq<Endpoint>, order: nat, counters: seq<seq<int>>, picks: seq<PriorityPick>, k: int)
    requires IsRun(nodes, counters, picks) && LiveSet(nodes) != {} && IsLowestOrder(nodes, order)
        && Tier(nodes, order) != []
    requires order < |counters[0]| && 0 <= counters[0][order] < TWO32 && counters[0][order] + |picks| <= TWO32
    ensures k in Tier(nodes, order) ==> FairShare(Count(picks, Picked(k)), |picks|, |Tier(nodes, order)|)
    ensures k !in Tier(nodes, order) ==> Count(picks, Picked(k)) == 0
  {
    var tier := Tier(nodes, order);
    var places := Picks(counters[0][order], |picks|, |tier|);
    PriorityRunRotates(nodes, order, counters, picks);
    if k in tier {
      var p :| 0 <= p < |tier| && tier[p] == k;
      CountThrough(picks, places, tier, n => Picked(n), p);
      Fair(counters[0][order], |picks|, |tier|, p);
    } else {
      forall t | 0 <= t < |picks| ensures picks[t] != Picked(k) {
        assert tier[places[t]] in tier;
      }
      CountNone(picks, Picked(k));
    }
  }

  lemma PickAt(count: nat, m: nat, len: nat, t: nat)
    requires len > 0 && t < m
    ensures Picks(count, m, len)[t] == ((count + t) % TWO32) % len < len
  {
  }

  /** One selection of a run: the pick is within the tier, and its counter moves by one. */
  ghost predicate WithinTier(tier: seq<int>, order: nat, counters: seq<seq<int>>, picks: seq<PriorityPick>, t: nat)
    requires |counters| == |picks| + 1 && t < |picks| && tier != []
  {
    && order < |counters[t]| && order < |counters[t + 1]|
    && picks[t] == Picked(tier[counters[t][order] % |tier|])
    && counters[t + 1][order] == (counters[t][order] + 1) % TWO32
  }

  lemma RunWithinTier(nodes: seq<Endpoint>, order: nat, counters: seq<seq<int>>, picks: seq<PriorityPick>)
    requires IsRun(nodes, counters, picks) && LiveSet(nodes) != {} && IsLowestOrder(nodes, order)
    requires Tier(nodes, order) != []
    ensures forall t :: 0 <= t < |picks| ==> WithinTier(Tier(nodes, order), order, counters, picks, t)
  {
    forall t | 0 <= t < |picks| ensures WithinTier(Tier(nodes, order), order, counters, picks, t) {
      var pick := picks[t];
      RotatesLowest(nodes, order, counters[t], counters[t + 1], pick);
    }
  }

  lemma {:induction false} CounterAfter(tier: seq<int>, order: nat, counters: seq<seq<int>>,
      picks: seq<PriorityPick>, t: nat)
    requires |counters| == |picks| + 1 && t < |picks| && tier != []
    requires forall k :: 0 <= k < |picks| ==> WithinTier(tier, order, counters, picks, k)
    requires order < |counters[0]| && 0 <= counters[0][order] < TWO32
    ensures order < |counters[t]| && counters[t][order] == (counters[0][order] + t) % TWO32
  {
    assert WithinTier(tier, order, counters, picks, t);
    if t > 0 {
      CounterAfter(tier, order, counters, picks, t - 1);
      assert WithinTier(tier, order, counters, picks, t - 1);
      NextCount(counters[0][order] + t - 1);
    }
  }

  lemma NoWrap(n: nat)
    requires n < TWO32
    ensures n % TWO32 == n
  {
  }

  lemma NextCount(n: nat)
    ensures (n % TWO32 + 1) % TWO32 == (n + 1) % TWO32
  {
  }

  lemma RotatesLowest(nodes: seq<Endpoint>, order: nat, before: seq<int>, after: seq<int>, pick: PriorityPick)
    requires LiveSet(nodes) != {} && IsLowestOrder(nodes, order) && Rotates(nodes, before, after, pick)
    ensures order < |before| == |after|
    ensures Tier(nodes, order) != [] && pick == Picked(Tier(nodes, order)[before[order] % |Tier(nodes, order)|])
    ensures after[order] == (before[order] + 1) % TWO32
  {
    var lowest :| IsLowestOrder(nodes, lowest) && RotatesAt(Tier(nodes, lowest), lowest, before, after, pick);
    assert lowest == order;
  }

  method GetLivePriorities(nodes: seq<Endpoint>) returns (live: seq<WithPriority>)
    ensures live == LivePriorities(nodes)
    ensures live == [] <==> LiveSet(nodes) == {}
    ensures forall p: WithPriority :: p in live <==> IsLive(nodes, p.node) && nodes[p.node].order == p.priority
  {
    live := [];
    for i := 0 to |nodes|
      invariant live == LivePriorities(nodes[..i])
    {
      assert nodes[..i + 1][..i] == nodes[..i];
      if nodes[i].state == Alive {
        live := live + [WithPriority(i, nodes[i].order)];
      }
    }
    assert nodes[..|nodes|] == nodes;
    forall p: WithPriority ensures p in live <==> IsLive(nodes, p.node) && nodes[p.node].order == p.priority {
      LivePrioritiesMember(nodes, p);
    }
    if k :| k in LiveSet(nodes) {
      assert WithPriority(k, nodes[k].order) in live;
    } else {
      assert LiveSet(nodes) == {};
    }
    if live != [] {
      assert live[0] in live && live[0].node in LiveSet(nodes);
    }
  }

  method GetHighestPriorityAliveTier(nodes: seq<Endpoint>) returns (tier: seq<WithPriority>, priority: int)
    ensures tier == [] <==> LiveSet(nodes) == {}
    ensures tier == [] ==> forall order :: !IsLowestOrder(nodes, order)
    ensures tier != [] ==> forall order :: IsLowestOrder(nodes, order) <==> order == priority
    ensures tier != [] ==> Names(tier) == Tier(nodes, priority)
  {
    var live := GetLivePriorities(nodes);
    if |live| == 0 {
      forall k | IsLive(nodes, k) ensures k in LiveSet(nodes) {
      }
      return [], 0;
    }
    tier, priority := RemoveLowerTiers(live);
    LowestOrderIs(nodes, live, priority);
    TierIsFiltered(nodes, priority);
  }

  datatype PriorityPick = NoNode | Picked(node: int) | IndexOutOfRange

  /**
   A pick within the lowest-order tier that has a live node, and the step of that tier's own counter. An
   order below zero has no counter.
   */
  ghost predicate Rotates(nodes: seq<Endpoint>, before: seq<int>, after: seq<int>, pick: PriorityPick) {
    if LiveSet(nodes) == {} then pick == NoNode && after == before
    else exists order :: IsLowestOrder(nodes, order) && RotatesAt(Tier(nodes, order), order, before, after, pick)
  }

  ghost predicate RotatesAt(tier: seq<int>, order: int, before: seq<int>, after: seq<int>, pick: PriorityPick) {
    if order < 0 then pick == IndexOutOfRange && after == before
    else
      && order < |before| && tier != []
      && pick == Picked(tier[before[order] % |tier|])
      && after == before[order := (before[order] + 1) % TWO32]
  }

  /** So the index is out of range exactly when some live node has a negative order. */
  lemma OutOfRangeIsNegative(nodes: seq<Endpoint>, before: seq<int>, after: seq<int>, pick: PriorityPick)
    requires Rotates(nodes, before, after, pick)
    ensures pick == IndexOutOfRange <==> exists k :: IsLive(nodes, k) && nodes[k].order < 0
  {
    if k :| IsLive(nodes, k) && nodes[k].order < 0 {
      assert k in LiveSet(nodes);
    }
  }

  /** Whatever is picked is live, and no live node has a higher priority. */
  lemma PickedIsLiveAndFirst(nodes: seq<Endpoint>, before: seq<int>, after: seq<int>, pick: PriorityPick)
    requires Rotates(nodes, before, after, pick) && pick.Picked?
    ensures IsLive(nodes, pick.node) && forall k :: IsLive(nodes, k) ==> nodes[pick.node].order <= nodes[k].order
  {
    var order :| IsLowestOrder(nodes, order) && RotatesAt(Tier(nodes, order), order, before, after, pick);
    assert pick.node in Tier(nodes, order);
  }

  class PriorityLevel {
    /** The orders of the nodes never change; one counter for every order from zero to the highest. */
    const orders: seq<int>
    const counts: array<int>

    ghost predicate Valid()
      reads this, counts
    {
      && (forall k :: 0 <= k < |orders| ==> orders[k] < counts.Length)
      && (forall p :: 0 <= p < counts.Length ==> 0 <= counts[p] < TWO32)
    }

    /** The number of tiers is an int32, so no order may be its maximum. */
    constructor (orders: seq<int>)
      requires forall k :: 0 <= k < |orders| ==> orders[k] < MAX_INT32
      ensures Valid() && this.orders == orders && fresh(counts)
      ensures forall p :: 0 <= p < counts.Length ==> counts[p] == 0
    {
      var highest := 0;
      for i := 0 to |orders|
        invariant highest >= 0 && forall k :: 0 <= k < i ==> orders[k] <= highest
      {
        if highest < orders[i] {
          highest := orders[i];
        }
      }
      this.orders := orders;
      counts := new int[highest + 1](_ => 0);
    }

    /** A node of this snapshot keeps the order it was configured with. */
    predicate Describes(nodes: seq<Endpoint>)
      reads this
    {
      |nodes| == |orders| && forall k :: 0 <= k < |nodes| ==> nodes[k].order == orders[k]
    }

    /** The counter as it was before it is incremented. */
    method AddOne(p: nat) returns (current: nat)
      requires Valid() && p < counts.Length
      modifies counts
      ensures Valid()
      ensures current == old(counts[p]) && counts[p] == (current + 1) % TWO32
      ensures counts[..] == old(counts[..])[p := (current + 1) % TWO32]
    {
      counts[p] := (counts[p] + 1) % TWO32;
      current := (counts[p] - 1) % TWO32;
    }

    method Select(nodes: seq<Endpoint>) returns (pick: PriorityPick)
      requires Valid() && Describes(nodes)
      modifies counts
      ensures Valid()
      ensures Rotates(nodes, old(counts[..]), counts[..], pick)
    {
      var tier, priority := GetHighestPriorityAliveTier(nodes);
      if |tier| == 0 {
        return NoNode;
      }
      LowestHasCounter(nodes, priority);
      pick := Rotate(tier, priority);
      MakesRotation(nodes, Names(tier), priority, old(counts[..]), counts[..], pick);
    }

    method Rotate(tier: seq<WithPriority>, priority: int) returns (pick: PriorityPick)
      requires Valid() && tier != [] && priority < counts.Length
      modifies counts
      ensures Valid()
      ensures RotatesAt(Names(tier), priority, old(counts[..]), counts[..], pick)
    {
      if priority < 0 {
        return IndexOutOfRange;
      }
      var current := AddOne(priority);
      pick := Picked(Rotated(tier, current));
    }

    lemma LowestHasCounter(nodes: seq<Endpoint>, order: int)
      requires Valid() && Describes(nodes) && IsLowestOrder(nodes, order)
      ensures order < counts.Length
    {
    }
  }

  lemma MakesRotation(nodes: seq<Endpoint>, tier: seq<int>, order: int, before: seq<int>, after: seq<int>,
      pick: PriorityPick)
    requires LiveSet(nodes) != {} && IsLowestOrder(nodes, order) && tier == Tier(nodes, order)
    requires RotatesAt(tier, order, before, after, pick)
    ensures Rotates(nodes, before, after, pick)
  {
  }

  function Rotated(tier: seq<WithPriority>, count: nat): (node: int)
    requires tier != []
    ensures |Names(tier)| == |tier| && node == Names(tier)[count % |tier|]
  {
    NamesAt(tier, count % |tier|);
    tier[count % |tier|].node
  }

  lemma LowestOrderIs(nodes: seq<Endpoint>, live: seq<WithPriority>, priority: int)
    requires forall p: WithPriority :: p in live <==> IsLive(nodes, p.node) && nodes[p.node].order == p.priority
    requires exists p :: p in live && p.priority == priority
    requires forall p :: p in live ==> p.priority >= priority
    ensures forall order :: IsLowestOrder(nodes, order) <==> order == priority
  {
    var p :| p in live && p.priority == priority;
    assert IsLive(nodes, p.node) && nodes[p.node].order == priority;
    forall k | IsLive(nodes, k) ensures nodes[k].order >= priority {
      assert WithPriority(k, nodes[k].order) in live;
    }
  }

  lemma {:induction false} NamesAt(s: seq<WithPriority>, i: nat)
    requires i < |s|
    ensures |Names(s)| == |s| && Names(s)[i] == s[i].node
  {
    if i > 0 {
      NamesAt(s[1..], i - 1);
    } else if |s| > 1 {
      NamesAt(s[1..], 0);
    } else {
      assert s[1..] == [];
    }
  }
}

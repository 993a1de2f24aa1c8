/** The active node of a pool (`selectNode` and `checkLease` in common/client/multi_node.go). */
module MultiNode {
  import opened Options
  import opened Endpoints
  import opened Selectors
  import opened SyncStatus
  import opened SetFacts

  class MultiNode {
    const mode: SelectionMode
    var activeNode: Option<int>

    /** For the modes that compare the nodes; the rotating ones have selectors with a state of their own. */
    constructor (mode: SelectionMode)
      requires mode == HighestHead || mode == TotalDifficulty
      ensures this.mode == mode && activeNode == None
    {
      this.mode := mode;
      activeNode := None;
    }

    /** What the selector may answer in the modes that compare the nodes. */
    ghost predicate IsBest(nodes: seq<Endpoint>, pick: Option<int>) {
      if mode == TotalDifficulty then IsPick(nodes, Heaviest(nodes), pick) else IsPick(nodes, HighestHeads(nodes), pick)
    }

    method Best(nodes: seq<Endpoint>) returns (pick: Option<int>)
      requires AllInRange(nodes)
      ensures IsBest(nodes, pick)
    {
      if mode == TotalDifficulty {
        pick := SelectTotalDifficulty(nodes);
      } else {
        pick := SelectHighestHead(nodes);
      }
    }

    /** The active node is kept for as long as it is alive, even when a better one turns up. */
    method SelectNode(nodes: seq<Endpoint>) returns (node: Option<int>)
      requires AllInRange(nodes)
      modifies this
      ensures node == activeNode
      ensures node.Some? ==> IsLive(nodes, node.value)
      ensures old(activeNode).Some? && IsLive(nodes, old(activeNode).value) ==> node == old(activeNode)
      ensures !(old(activeNode).Some? && IsLive(nodes, old(activeNode).value)) ==> IsBest(nodes, node)
    {
      if activeNode.Some? && IsLive(nodes, activeNode.value) {
        return activeNode;
      }
      activeNode := Best(nodes);
      node := activeNode;
    }

    /** The live nodes other than the best one that serve more than their own alive loop. */
    ghost function ToMove(nodes: seq<Endpoint>, subscribers: seq<int>, best: Option<int>): (moved: set<int>)
      requires |subscribers| == |nodes|
    {
      set k | 0 <= k < |nodes| && IsLive(nodes, k) && Some(k) != best && subscribers[k] > 1
    }

    /**
     Moves the subscriptions of all others to the best node. The log line names the best node, and panics when
     there is none although somebody has subscriptions to move.
     */
    method CheckLease(nodes: seq<Endpoint>, subscribers: seq<int>)
      returns (moved: set<int>, ghost best: Option<int>, panicked: bool)
      requires AllInRange(nodes) && |subscribers| == |nodes|
      modifies this
      ensures IsBest(nodes, best)
      ensures panicked <==> best.None? && ToMove(nodes, subscribers, best) != {}
      ensures !panicked ==> activeNode == best && moved == ToMove(nodes, subscribers, best)
      ensures panicked ==> activeNode == old(activeNode) && moved == {}
    {
      var bestNode := Best(nodes);
      best := bestNode;
      moved, panicked := {}, false;
      for i := 0 to |nodes|
        invariant moved == set k | 0 <= k < i && k in ToMove(nodes, subscribers, best)
        invariant best.None? ==> moved == {}
        invariant activeNode == old(activeNode)
      {
        if IsLive(nodes, i) && Some(i) != bestNode && subscribers[i] > 1 {
          assert i in ToMove(nodes, subscribers, best);
          if bestNode.None? {
            return {}, best, true;
          }
          moved := moved + {i};
        }
      }
      if bestNode != activeNode {
        activeNode := bestNode;
      }
      assert moved == ToMove(nodes, subscribers, best);
    }

    /** With every order below MaxInt32 there is a best node whenever one is alive, so that panic is out of reach. */
    lemma BestExists(nodes: seq<Endpoint>, best: Option<int>)
      requires IsBest(nodes, best) && forall k :: 0 <= k < |nodes| ==> nodes[k].order < MAX_INT32
      ensures best.None? <==> LiveSet(nodes) == {}
    {
      if best.Some? {
        assert IsLive(nodes, best.value) && best.value in LiveSet(nodes);
      }
      if k :| k in LiveSet(nodes) {
        if mode == TotalDifficulty {
          var heaviest := SomeHeaviest(nodes, k);
        } else {
          var highest := Maximum(LiveSet(nodes), j => if 0 <= j < |nodes| then nodes[j].num else 0);
          forall j | IsLive(nodes, j) ensures nodes[j].num <= nodes[highest].num {
            assert j in LiveSet(nodes);
          }
          assert highest in HighestHeads(nodes);
        }
      } else {
        assert LiveSet(nodes) == {};
      }
    }
  }

  lemma SomeHeaviest(nodes: seq<Endpoint>, k: int) returns (heaviest: int)
    requires IsLive(nodes, k)
    ensures heaviest in Heaviest(nodes)
  {
    heaviest := k;
    if known :| IsLive(nodes, known) && nodes[known].td.Some? {
      var candidates := set j | j in LiveSet(nodes) && nodes[j].td.Some?;
      assert known in candidates;
      heaviest := Maximum(candidates, j => if 0 <= j < |nodes| && nodes[j].td.Some? then nodes[j].td.value else 0);
      forall j | IsLive(nodes, j) && nodes[j].td.Some? ensures nodes[j].td.value <= nodes[heaviest].td.value {
        assert j in candidates;
      }
    }
  }
}

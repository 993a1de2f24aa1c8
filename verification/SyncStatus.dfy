/**
 How a node learns that it has fallen behind: `nLiveNodes` in common/client/multi_node.go and `syncStatus`
 in common/client/node_lifecycle.go, on one snapshot of the pool.
 */
module SyncStatus {
  import opened Options
  import opened NodeLifecycle
  import opened Endpoints
  import opened SetFacts

  datatype SelectionMode = HighestHead | RoundRobin | PriorityLevel | TotalDifficulty

  /** Comparing a nil difficulty panics. */
  datatype Status = Status(outOfSync: bool, liveNodes: nat) | NilDifficulty

  /** The count of live nodes, and the highest number and difficulty among them; both start from zero. */
  method NLiveNodes(nodes: seq<Endpoint>) returns (count: nat, blockNumber: int, totalDifficulty: int)
    ensures count == |LiveSet(nodes)|
    ensures blockNumber >= 0 && forall k :: IsLive(nodes, k) ==> nodes[k].num <= blockNumber
    ensures blockNumber == 0 || exists k :: IsLive(nodes, k) && nodes[k].num == blockNumber
    ensures totalDifficulty >= 0
            && forall k :: IsLive(nodes, k) && nodes[k].td.Some? ==> nodes[k].td.value <= totalDifficulty
    ensures totalDifficulty == 0 || exists k :: IsLive(nodes, k) && nodes[k].td == Some(totalDifficulty)
  {
    count, blockNumber, totalDifficulty := 0, 0, 0;
    for i := 0 to |nodes|
      invariant count == |LiveSet(nodes[..i])|
      invariant blockNumber >= 0 && forall k :: 0 <= k < i && IsLive(nodes, k) ==> nodes[k].num <= blockNumber
      invariant blockNumber == 0 || exists k :: IsLive(nodes, k) && nodes[k].num == blockNumber
      invariant totalDifficulty >= 0
      invariant forall k :: 0 <= k < i && IsLive(nodes, k) && nodes[k].td.Some? ==> nodes[k].td.value <= totalDifficulty
      invariant totalDifficulty == 0 || exists k :: IsLive(nodes, k) && nodes[k].td == Some(totalDifficulty)
    {
      LiveSetGrows(nodes[..i], nodes[i]);
      assert nodes[..i + 1] == nodes[..i] + [nodes[i]];
      if nodes[i].state == Alive {
        assert IsLive(nodes, i);
        count := count + 1;
        if nodes[i].num > blockNumber {
          blockNumber := nodes[i].num;
        }
        if nodes[i].td.Some? && nodes[i].td.value > totalDifficulty {
          totalDifficulty := nodes[i].td.value;
        }
      }
    }
    assert nodes[..|nodes|] == nodes;
  }

  /** More than the threshold behind some live node, or behind block zero. */
  ghost predicate BehindByHead(nodes: seq<Endpoint>, threshold: nat, num: int) {
    num + threshold < 0 || exists k :: IsLive(nodes, k) && num + threshold < nodes[k].num
  }

  ghost predicate BehindByDifficulty(nodes: seq<Endpoint>, threshold: nat, td: int) {
    td + threshold < 0 || exists k :: IsLive(nodes, k) && nodes[k].td.Some? && td + threshold < nodes[k].td.value
  }

  method Check(nodes: seq<Endpoint>, mode: SelectionMode, threshold: nat, num: int, td: Option<int>) returns (r: Status)
    ensures threshold == 0 ==> r == Status(false, 0)
    ensures threshold > 0 && mode != TotalDifficulty ==>
        r == Status(BehindByHead(nodes, threshold, num), |LiveSet(nodes)|)
    ensures threshold > 0 && mode == TotalDifficulty ==>
              r == if td.Some? then Status(BehindByDifficulty(nodes, threshold, td.value), |LiveSet(nodes)|)
                  else NilDifficulty
  {
    if threshold == 0 {
      return Status(false, 0);
    }
    var ln, highest, greatest := NLiveNodes(nodes);
    match mode
    case HighestHead | RoundRobin | PriorityLevel =>
      r := Status(num < highest - threshold, ln);
    case TotalDifficulty =>
      if td.None? {
        return NilDifficulty;
      }
      r := Status(td.value < greatest - threshold, ln);
  }

  lemma TwoLive(nodes: seq<Endpoint>, i: int, j: int)
    requires IsLive(nodes, i) && IsLive(nodes, j) && i != j
    ensures |LiveSet(nodes)| >= 2
  {
    SubsetCardinality({i, j}, LiveSet(nodes));
  }

  /**
   The note in aliveLoop: for a live node to be out of sync, a different live node must be ahead of it, and so
   at least two are alive. A node that has seen no head yet stands at -1.
   */
  lemma SomebodyElseIsAhead(nodes: seq<Endpoint>, i: int, threshold: nat) returns (j: int)
    requires IsLive(nodes, i) && threshold > 0 && nodes[i].num >= -1
    requires BehindByHead(nodes, threshold, nodes[i].num)
    ensures j != i && IsLive(nodes, j) && nodes[j].num > nodes[i].num + threshold
    ensures |LiveSet(nodes)| >= 2
  {
    j :| IsLive(nodes, j) && nodes[i].num + threshold < nodes[j].num;
    TwoLive(nodes, i, j);
  }

  lemma SomebodyElseIsHeavier(nodes: seq<Endpoint>, i: int, threshold: nat) returns (j: int)
    requires IsLive(nodes, i) && threshold > 0 && nodes[i].td.Some? && nodes[i].td.value >= 0
    requires BehindByDifficulty(nodes, threshold, nodes[i].td.value)
    ensures j != i && IsLive(nodes, j) && nodes[j].td.Some? && nodes[j].td.value > nodes[i].td.value + threshold
    ensures |LiveSet(nodes)| >= 2
  {
    j :| IsLive(nodes, j) && nodes[j].td.Some? && nodes[i].td.value + threshold < nodes[j].td.value;
    TwoLive(nodes, i, j);
  }

  /** Exactly when a node that is alone in the pool is reported out of sync all the same. */
  lemma AloneAndBehind(nodes: seq<Endpoint>, i: int, threshold: nat)
    requires LiveSet(nodes) == {i}
    ensures BehindByHead(nodes, threshold, nodes[i].num) <==> nodes[i].num + threshold < 0
  {
    assert i in LiveSet(nodes);
    forall k | IsLive(nodes, k) ensures k == i {
      assert k in LiveSet(nodes);
    }
  }
}

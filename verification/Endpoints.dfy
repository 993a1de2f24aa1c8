/** What one pass over the nodes of a pool sees of them (`StateAndLatest` and `Order` in common/client/node.go). */
module Endpoints {
  import opened Options
  import opened NodeLifecycle

  const MAX_INT32 := 0x7fff_ffff
  const MIN_INT64 := -0x8000_0000_0000_0000

  /** `num` and `td` are the latest head's number and total difficulty; a smaller `order` means a higher priority. */
  datatype Endpoint = Endpoint(state: NodeState, num: int, td: Option<int>, order: int)

  predicate InRange(n: Endpoint) {
    MIN_INT64 <= n.num && n.order <= MAX_INT32
  }

  predicate IsLive(nodes: seq<Endpoint>, k: int) {
    0 <= k < |nodes| && nodes[k].state == Alive
  }

  function LiveSet(nodes: seq<Endpoint>): set<int> {
    set k | 0 <= k < |nodes| && IsLive(nodes, k)
  }

  lemma LiveSetGrows(nodes: seq<Endpoint>, n: Endpoint)
    ensures LiveSet(nodes + [n]) == LiveSet(nodes) + (if n.state == Alive then {|nodes|} else {})
    ensures |nodes| !in LiveSet(nodes)
  {
    var more := nodes + [n];
    assert forall k :: 0 <= k < |nodes| ==> more[k] == nodes[k];
    assert forall k :: k in LiveSet(more) <==> k in LiveSet(nodes) || (k == |nodes| && n.state == Alive);
  }
}

/**
 Which transactions the Confirmer sends again on a head
 (FindTxsRequiringRebroadcast in common/txmgr/confirmer.go): the two query results merged,
 ordered by sequence and cut to the in-flight limit.
 */
module RebroadcastList {
  import opened Options
  import opened TxStore
  import opened Sorting

  predicate DistinctIds(txs: seq<Tx>) {
    forall i, j :: 0 <= i < j < |txs| ==> txs[i].id != txs[j].id
  }

  predicate AllSequenced(txs: seq<Tx>) {
    forall i :: 0 <= i < |txs| ==> txs[i].sequence.Some?
  }

  function Ids(txs: seq<Tx>): set<Id> {
    set i | 0 <= i < |txs| :: txs[i].id
  }

  function SequenceOf(tx: Tx): int {
    if tx.sequence.Some? then tx.sequence.value else 0
  }

  /** In the union of the two lists; where both hold a transaction, the first list's copy. */
  ghost predicate InUnion(insufficientFunds: seq<Tx>, bumps: seq<Tx>, tx: Tx) {
    tx in insufficientFunds || (tx in bumps && tx.id !in Ids(insufficientFunds))
  }

  /** The first list, then whatever the second adds to it. */
  method Merge(insufficientFunds: seq<Tx>, bumps: seq<Tx>) returns (merged: seq<Tx>)
    requires DistinctIds(insufficientFunds) && DistinctIds(bumps)
    ensures DistinctIds(merged)
    ensures forall tx :: tx in merged <==> InUnion(insufficientFunds, bumps, tx)
    ensures Ids(merged) == Ids(insufficientFunds) + Ids(bumps)
  {
    var seen: set<Id> := {};
    merged := [];
    for i := 0 to |insufficientFunds|
      invariant merged == insufficientFunds[..i]
      invariant seen == Ids(merged)
    {
      IdsAppend(merged, insufficientFunds[i]);
      seen := seen + {insufficientFunds[i].id};
      merged := merged + [insufficientFunds[i]];
    }
    assert merged == insufficientFunds;
    for i := 0 to |bumps|
      invariant DistinctIds(merged)
      invariant forall tx :: tx in merged <==> InUnion(insufficientFunds, bumps[..i], tx)
      invariant Ids(merged) == seen + Ids(bumps[..i])
    {
      assert bumps[..i + 1] == bumps[..i] + [bumps[i]];
      IdsAppend(bumps[..i], bumps[i]);
      if bumps[i].id !in seen {
        IdsAppend(merged, bumps[i]);
        assert forall tx :: tx in merged ==> tx.id != bumps[i].id;
        merged := merged + [bumps[i]];
      }
    }
    assert bumps[..|bumps|] == bumps;
  }

  /** Without duplicates, in the order of the sequences, the lowest ones of the union up to the cap. */
  ghost predicate IsRebroadcastList(insufficientFunds: seq<Tx>, bumps: seq<Tx>, maxInFlight: nat, etxs: seq<Tx>) {
    && DistinctIds(etxs) && SortedBy(etxs, SequenceOf)
    && (forall tx :: tx in etxs ==> InUnion(insufficientFunds, bumps, tx))
    && (forall tx, kept :: InUnion(insufficientFunds, bumps, tx) && tx !in etxs && kept in etxs ==>
          SequenceOf(kept) <= SequenceOf(tx))
    && var size := |Ids(insufficientFunds) + Ids(bumps)|;
       |etxs| == if maxInFlight > 0 && size > maxInFlight then maxInFlight else size
  }

  method FindTxsRequiringRebroadcast(insufficientFunds: seq<Tx>, bumps: seq<Tx>, maxInFlight: nat)
    returns (etxs: seq<Tx>)
    requires DistinctIds(insufficientFunds) && DistinctIds(bumps)
    requires AllSequenced(insufficientFunds) && AllSequenced(bumps)
    ensures IsRebroadcastList(insufficientFunds, bumps, maxInFlight, etxs)
  {
    var merged := Merge(insufficientFunds, bumps);
    DistinctCardinality(merged);
    etxs := Sort(merged, SequenceOf);
    SameElements(merged, etxs);
    if maxInFlight > 0 && |etxs| > maxInFlight {
      LowestFirst(etxs, maxInFlight);
      etxs := etxs[..maxInFlight];
    }
  }

  lemma LowestFirst(etxs: seq<Tx>, n: nat)
    requires SortedBy(etxs, SequenceOf) && n <= |etxs|
    ensures SortedBy(etxs[..n], SequenceOf)
    ensures forall tx, kept :: tx in etxs && tx !in etxs[..n] && kept in etxs[..n] ==>
        SequenceOf(kept) <= SequenceOf(tx)
  {
    assert forall i :: 0 <= i < n ==> etxs[i] in etxs[..n];
    forall tx, kept | tx in etxs && tx !in etxs[..n] && kept in etxs[..n]
      ensures SequenceOf(kept) <= SequenceOf(tx)
    {
      var i :| 0 <= i < |etxs| && etxs[i] == tx;
      var j :| 0 <= j < n && etxs[..n][j] == kept;
      assert etxs[j] == kept;
    }
  }

  lemma IdsAppend(txs: seq<Tx>, tx: Tx)
    ensures Ids(txs + [tx]) == Ids(txs) + {tx.id}
  {
    var more := txs + [tx];
    assert forall i :: 0 <= i < |txs| ==> more[i] == txs[i];
    assert more[|txs|].id == tx.id;
    forall id | id in Ids(txs) ensures id in Ids(more) {
      var i :| 0 <= i < |txs| && txs[i].id == id;
      assert more[i].id == id;
    }
  }

  lemma {:induction false} DistinctCardinality(txs: seq<Tx>)
    requires DistinctIds(txs)
    ensures |Ids(txs)| == |txs|
  {
    if txs != [] {
      var rest := txs[..|txs| - 1];
      DistinctCardinality(rest);
      assert Ids(txs) == Ids(rest) + {txs[|txs| - 1].id};
    }
  }

  /** A rearrangement keeps the elements and keeps their identities apart. */
  lemma SameElements(before: seq<Tx>, after: seq<Tx>)
    requires multiset(before) == multiset(after) && DistinctIds(before)
    ensures forall tx :: tx in after <==> tx in before
    ensures DistinctIds(after)
  {
    assert forall tx :: tx in after <==> tx in multiset(after);
    assert forall tx :: tx in before <==> tx in multiset(before);
    forall i, j | 0 <= i < j < |after|
      ensures after[i].id != after[j].id
    {
      if after[i].id == after[j].id {
        assert after[i] in before && after[j] in before;
        assert after[i] == after[j];
        TwiceInMultiset(after, i, j);
        OnceInMultiset(before, after[i]);
        assert false;
      }
    }
  }

  lemma TwiceInMultiset(s: seq<Tx>, i: int, j: int)
    requires 0 <= i < j < |s| && s[i] == s[j]
    ensures multiset(s)[s[i]] >= 2
  {
    assert s == s[..j] + [s[j]] + s[j + 1..];
    assert s[i] in s[..j];
  }

  lemma {:induction false} OnceInMultiset(s: seq<Tx>, tx: Tx)
    requires DistinctIds(s)
    ensures multiset(s)[tx] <= 1
  {
    if s != [] {
      var rest := s[..|s| - 1];
      OnceInMultiset(rest, tx);
      assert s == rest + [s[|s| - 1]];
      if tx == s[|s| - 1] {
        assert tx !in rest;
      }
    }
  }
}

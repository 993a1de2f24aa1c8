/**
 A head with the chain of its ancestors, as far back as it is known (common/types/head.go), and the
 search for a transaction's receipt on that chain.
 */
module Chain {
  import opened Options
  import opened TxStore

  type Hash = int

  /** `GetParent` is nil where the known chain ends. */
  datatype Head = Head(number: int, hash: Hash, parentHash: Hash, parent: Option<Head>)

  function ChainLength(head: Head): nat {
    1 + if head.parent.Some? then ChainLength(head.parent.value) else 0
  }

  function EarliestHeadInChain(head: Head): Head {
    if head.parent.Some? then EarliestHeadInChain(head.parent.value) else head
  }

  /** The source gives the zero hash where this gives `None`. */
  function HashAtHeight(head: Head, number: int): Option<Hash> {
    if head.number == number then Some(head.hash)
    else if head.parent.Some? then HashAtHeight(head.parent.value, number)
    else None
  }

  /** Block numbers fall along the chain. */
  ghost predicate Descending(head: Head) {
    head.parent.Some? ==> head.parent.value.number < head.number && Descending(head.parent.value)
  }

  ghost predicate IncludesBlock(head: Head, receipt: Receipt) {
    || (head.number == receipt.blockNumber && head.hash == receipt.blockHash)
    || (head.parent.Some? && IncludesBlock(head.parent.value, receipt))
  }

  ghost predicate HasReceipt(tx: Tx, receipt: Receipt) {
    exists attempt :: attempt in tx.attempts && receipt in attempt.receipts
  }

  ghost predicate ReceiptOnChain(tx: Tx, head: Head) {
    exists receipt :: HasReceipt(tx, receipt) && IncludesBlock(head, receipt)
  }

  method HasReceiptInBlock(etx: Tx, head: Head) returns (found: bool)
    ensures found <==> exists r :: HasReceipt(etx, r) && r.blockNumber == head.number && r.blockHash == head.hash
  {
    for i := 0 to |etx.attempts|
      invariant forall k :: 0 <= k < i ==> Receipt(head.number, head.hash) !in etx.attempts[k].receipts
    {
      var receipts := etx.attempts[i].receipts;
      for j := 0 to |receipts|
        invariant Receipt(head.number, head.hash) !in receipts[..j]
      {
        if receipts[j].blockHash == head.hash && receipts[j].blockNumber == head.number {
          assert etx.attempts[i] in etx.attempts && HasReceipt(etx, receipts[j]);
          return true;
        }
      }
      assert receipts[..|receipts|] == receipts;
    }
    assert !HasReceipt(etx, Receipt(head.number, head.hash));
    return false;
  }

  /** Walks back from the head until a block holds one of the receipts, or the known chain ends. */
  method HasReceiptInLongestChain(etx: Tx, head: Head) returns (found: bool)
    ensures found <==> ReceiptOnChain(etx, head)
  {
    var block := head;
    while true
      invariant ReceiptOnChain(etx, head) <==> ReceiptOnChain(etx, block)
      decreases block
    {
      found := HasReceiptInBlock(etx, block);
      if found {
        return true;
      }
      if block.parent.None? {
        return false;
      }
      block := block.parent.value;
    }
  }

  lemma {:induction false} IncludesIsHashAtHeight(head: Head, receipt: Receipt)
    requires Descending(head)
    ensures IncludesBlock(head, receipt) <==> HashAtHeight(head, receipt.blockNumber) == Some(receipt.blockHash)
  {
    if head.parent.Some? {
      IncludesIsHashAtHeight(head.parent.value, receipt);
      if receipt.blockNumber == head.number {
        NotAbove(head.parent.value, receipt);
      }
    }
  }

  lemma {:induction false} NotAbove(head: Head, receipt: Receipt)
    requires Descending(head) && receipt.blockNumber > head.number
    ensures !IncludesBlock(head, receipt)
  {
    if head.parent.Some? {
      NotAbove(head.parent.value, receipt);
    }
  }

  /** On a descending chain a receipt is on it exactly when its hash is the chain's hash at its height. */
  lemma ReceiptOnChainMeaning(tx: Tx, head: Head)
    requires Descending(head)
    ensures ReceiptOnChain(tx, head) <==>
            exists r :: HasReceipt(tx, r) && HashAtHeight(head, r.blockNumber) == Some(r.blockHash)
  {
    forall r ensures IncludesBlock(head, r) <==> HashAtHeight(head, r.blockNumber) == Some(r.blockHash) {
      IncludesIsHashAtHeight(head, r);
    }
  }
}

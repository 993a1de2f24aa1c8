/**
 What re-org protection does to the rows (EnsureConfirmedTransactionsInLongestChain and
 markForRebroadcast in common/txmgr/confirmer.go, UpdateTxForRebroadcast in the store).
 */
module Reorg {
  import opened Options
  import opened TxStore
  import opened Chain
  import opened Interference
  import A = Attempts

  /** The range query: confirmed, with a receipt for a broadcast attempt at one of these heights. */
  predicate ConfirmedInRange(tx: Tx, low: int, high: int) {
    && (tx.state == Confirmed || tx.state == ConfirmedMissingReceipt)
    && exists attempt | attempt in tx.attempts ::
         attempt.state == AttemptBroadcast
         && exists receipt | receipt in attempt.receipts :: low <= receipt.blockNumber <= high
  }

  predicate InHeadRange(tx: Tx, head: Head) {
    ConfirmedInRange(tx, EarliestHeadInChain(head).number, head.number)
  }

  ghost predicate NeedsMark(tx: Tx, head: Head) {
    InHeadRange(tx, head) && !ReceiptOnChain(tx, head)
  }

  /** The store refuses to put a transaction back unless it is confirmed and its highest-priced attempt broadcast. */
  predicate CanMark(tx: Tx) {
    tx.attempts != [] && tx.state == Confirmed && tx.attempts[0].state == AttemptBroadcast
  }

  /** Unconfirmed again, without receipts, the highest-priced attempt in progress. */
  function Rebroadcast(tx: Tx): Tx
    requires tx.attempts != []
  {
    tx.(state := Unconfirmed,
        attempts := seq(|tx.attempts|, i requires 0 <= i < |tx.attempts| =>
          tx.attempts[i].(receipts := [], state := if i == 0 then AttemptInProgress else tx.attempts[i].state)))
  }

  ghost function AfterMarking(tx: Tx, head: Head): Tx {
    if NeedsMark(tx, head) && CanMark(tx) then Rebroadcast(tx) else tx
  }

  /** What one marked transaction looks like afterwards. */
  lemma RebroadcastMeaning(tx: Tx)
    requires CanMark(tx) && A.DistinctAttempts(tx.attempts) && A.NoneInProgress(tx.attempts)
    ensures var after := Rebroadcast(tx);
            && after.id == tx.id && after.from == tx.from && after.sequence == tx.sequence
            && after.state == Unconfirmed
            && A.DistinctAttempts(after.attempts) && A.AtMostOneInProgress(after.attempts)
            && !A.NoneInProgress(after.attempts)
            && (forall receipt :: !HasReceipt(after, receipt))
            && (A.FeesDescending(tx.attempts) ==> A.FeesDescending(after.attempts))
            && |after.attempts| == |tx.attempts|
            && after.attempts[0] == tx.attempts[0].(receipts := [], state := AttemptInProgress)
            && forall i :: 0 < i < |tx.attempts| ==> after.attempts[i] == tx.attempts[i].(receipts := [])
  {
    var after := Rebroadcast(tx);
    assert after.attempts[0] in after.attempts;
    assert forall i :: 0 < i < |tx.attempts| ==> tx.attempts[i] in tx.attempts;
  }

  /**
   After the marking loop: what was in view and had lost its place was put back, the rest of that is as it was, and
   what has come into view since is not confirmed.
   */
  ghost predicate AllMarked(before: Rows, after: Rows, head: Head) {
    && (forall id :: id in before && Visible(before[id]) ==>
          id in after && after[id] == AfterMarking(before[id], head)
          && (NeedsMark(before[id], head) ==> CanMark(before[id])))
    && (forall id :: id in after && !(id in before && Visible(before[id])) ==>
          after[id].state != Confirmed && after[id].state != ConfirmedMissingReceipt)
  }

  /** This receipt of a sent attempt puts the transaction at a height the head's chain covers. */
  ghost predicate PutsInRange(tx: Tx, head: Head, attempt: Attempt, receipt: Receipt) {
    && attempt in tx.attempts && attempt.state == AttemptBroadcast && receipt in attempt.receipts
    && EarliestHeadInChain(head).number <= receipt.blockNumber && receipt.blockNumber <= head.number
  }

  /** Whatever is then confirmed at a height of the head's chain has a receipt on that chain. */
  lemma MarkedIsProtected(before: Rows, after: Rows, head: Head, id: Id, attempt: Attempt, receipt: Receipt)
    requires AllMarked(before, after, head) && id in after
    requires after[id].state == Confirmed || after[id].state == ConfirmedMissingReceipt
    requires PutsInRange(after[id], head, attempt, receipt)
    ensures exists r :: HasReceipt(after[id], r) && IncludesBlock(head, r)
    ensures id in before && after[id] == before[id]
  {
  }

  /** What is at no such height is left alone. */
  lemma OutOfRangeIsUntouched(before: Rows, after: Rows, head: Head, id: Id)
    requires AllMarked(before, after, head) && id in before && Visible(before[id])
    requires || (before[id].state != Confirmed && before[id].state != ConfirmedMissingReceipt)
             || forall attempt, receipt :: !PutsInRange(before[id], head, attempt, receipt)
    ensures id in after && after[id] == before[id]
  {
    if NeedsMark(before[id], head) {
      var attempt :| attempt in before[id].attempts && attempt.state == AttemptBroadcast
        && exists receipt | receipt in attempt.receipts ::
             EarliestHeadInChain(head).number <= receipt.blockNumber <= head.number;
      var receipt :| receipt in attempt.receipts
        && EarliestHeadInChain(head).number <= receipt.blockNumber <= head.number;
      assert PutsInRange(before[id], head, attempt, receipt);
    }
  }
}

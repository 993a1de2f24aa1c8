/**
 The Broadcaster of every address and the Confirmer work on the same table at the same time (common/txmgr). Each
 is proved under a relation that bounds what the others do to the rows meanwhile. Here are both relations, and
 the lemmas by which each side's own updates stay within what the other side was promised.
 */
module Interference {
  import opened Options
  import opened TxStore

  /** The states in which the Confirmer looks at a transaction. */
  predicate Visible(tx: Tx) {
    tx.state == Confirmed || tx.state == ConfirmedMissingReceipt || tx.state == Unconfirmed
  }

  /**
   What a Broadcaster relies on for its address's rows: others never touch a transaction in progress nor start
   one; they insert and prune unstarted ones, move the rest among the later states, delete them, or give them up
   as fatal errors. A sequence is never changed, only dropped.
   */
  predicate Rely(before: Rows, after: Rows) {
    && WellFormed(after)
    && (forall id | id in before :: before[id].state == InProgress ==> id in after && after[id] == before[id])
    && (forall id | id in after ::
          if id !in before then after[id].state == Unstarted
          else if before[id].state == InProgress || before[id].state == Unstarted then after[id] == before[id]
          else && after[id].state != InProgress && after[id].state != Unstarted
               && after[id].from == before[id].from
               && (after[id].sequence == before[id].sequence || after[id].sequence == None))
  }

  /**
   What the Confirmer relies on: others leave the rows it looks at alone, and a row that comes into view has just
   been broadcast: it is unconfirmed, with one attempt.
   */
  predicate Handover(before: Rows, after: Rows) {
    && WellFormed(after)
    && (forall id | id in before :: Visible(before[id]) ==> id in after && after[id] == before[id])
    && (forall id | id in after ::
          Visible(after[id]) && !(id in before && Visible(before[id])) ==>
            && after[id].state == Unconfirmed
            && |after[id].attempts| == 1 && after[id].attempts[0].state == AttemptBroadcast)
  }

  function ForAddress(rows: Rows, address: Address): (own: Rows) {
    map id | id in rows && rows[id].from == address :: rows[id]
  }

  /** An update of one address's rows. */
  ghost predicate OnlyFor(before: Rows, after: Rows, address: Address) {
    forall id :: (id in before && before[id].from != address) || (id in after && after[id].from != address) ==>
      id in before && id in after && after[id] == before[id]
  }

  /** The Confirmer's updates, of any addresses' rows, are within what each Broadcaster relies on. */
  lemma RelyForAddress(before: Rows, after: Rows, address: Address)
    requires Rely(before, after)
    ensures Rely(ForAddress(before, address), ForAddress(after, address))
  {
    var b, a := ForAddress(before, address), ForAddress(after, address);
    forall id | id in a && id in before ensures id in b {
    }
  }

  /** So are the updates of the Broadcasters of other addresses. */
  lemma OtherAddressIsRely(before: Rows, after: Rows, address: Address, other: Address)
    requires WellFormed(before) && OnlyFor(before, after, other) && address != other
    ensures Rely(ForAddress(before, address), ForAddress(after, address))
  {
    var b, a := ForAddress(before, address), ForAddress(after, address);
    forall id | id in a ensures id in b && b[id] == a[id] {
    }
    forall id | id in b ensures id in a && a[id] == b[id] {
    }
  }

  /** And every Broadcaster's updates are within what the Confirmer relies on, for the whole table. */
  lemma HandoverOfWhole(before: Rows, after: Rows, address: Address)
    requires WellFormed(before) && WellFormed(after) && OnlyFor(before, after, address)
    requires Handover(ForAddress(before, address), ForAddress(after, address))
    ensures Handover(before, after)
  {
    var b, a := ForAddress(before, address), ForAddress(after, address);
    forall id | id in before && Visible(before[id]) ensures id in after && after[id] == before[id] {
      if before[id].from == address {
        assert id in b && Visible(b[id]);
      }
    }
    forall id | id in after && Visible(after[id]) && !(id in before && Visible(before[id]))
      ensures after[id].state == Unconfirmed
      ensures |after[id].attempts| == 1 && after[id].attempts[0].state == AttemptBroadcast
    {
      assert after[id].from == address;
      assert id in a && !(id in b && Visible(b[id]));
    }
  }

  /** A transaction the Confirmer looks at that keeps its place, its owner and its sequence. */
  lemma VisibleUpdateIsRely(rows: Rows, id: Id, tx: Tx)
    requires WellFormed(rows) && id in rows && Visible(rows[id]) && Visible(tx)
    requires tx.id == id && tx.from == rows[id].from && tx.sequence == rows[id].sequence
    ensures Rely(rows, rows[id := tx])
  {
  }

  /** A transaction out of the Confirmer's sight that stays there, or comes into it with its one attempt broadcast. */
  lemma HiddenUpdateIsHandover(rows: Rows, id: Id, tx: Tx)
    requires WellFormed(rows) && id in rows && !Visible(rows[id])
    requires tx.id == id && (HasSequence(tx.state) <==> tx.sequence.Some?)
    requires Visible(tx) ==> tx.state == Unconfirmed && |tx.attempts| == 1 && tx.attempts[0].state == AttemptBroadcast
    ensures Handover(rows, rows[id := tx])
  {
  }
}

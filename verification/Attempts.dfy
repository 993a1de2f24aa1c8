/** The attempts of one transaction and what the store operations do to them. */
module Attempts {
  import opened TxStore

  ghost predicate DistinctAttempts(attempts: seq<Attempt>) {
    forall i, j :: 0 <= i < j < |attempts| ==> attempts[i].id != attempts[j].id
  }

  ghost predicate AtMostOneInProgress(attempts: seq<Attempt>) {
    forall i, j :: 0 <= i < j < |attempts| ==>
        attempts[i].state != AttemptInProgress || attempts[j].state != AttemptInProgress
  }

  /** Attempts are loaded highest price first. */
  ghost predicate FeesDescending(attempts: seq<Attempt>) {
    forall i, j :: 0 <= i < j < |attempts| ==> attempts[i].fee >= attempts[j].fee
  }

  predicate NoneInProgress(attempts: seq<Attempt>) {
    forall a | a in attempts :: a.state != AttemptInProgress
  }

  function SetState(attempts: seq<Attempt>, id: Id, state: AttemptState): seq<Attempt> {
    seq(|attempts|, i requires 0 <= i < |attempts| =>
      if attempts[i].id == id then attempts[i].(state := state) else attempts[i])
  }

  function Delete(attempts: seq<Attempt>, id: Id): (rest: seq<Attempt>)
    ensures forall a :: a in rest <==> a in attempts && a.id != id
    ensures DistinctAttempts(attempts) ==> DistinctAttempts(rest)
    ensures FeesDescending(attempts) ==> FeesDescending(rest)
    ensures |rest| <= |attempts|
  {
    if attempts == [] then []
    else if attempts[0].id == id then Delete(attempts[1..], id)
    else [attempts[0]] + Delete(attempts[1..], id)
  }

  /** Behind the attempts with this price or a higher one. */
  function Position(attempts: seq<Attempt>, fee: int): (k: nat)
    ensures k <= |attempts|
    ensures forall i :: 0 <= i < k ==> attempts[i].fee >= fee
    ensures k < |attempts| ==> attempts[k].fee < fee
  {
    if attempts == [] || attempts[0].fee < fee then 0 else 1 + Position(attempts[1..], fee)
  }

  function Insert(attempts: seq<Attempt>, attempt: Attempt): seq<Attempt> {
    var k := Position(attempts, attempt.fee);
    attempts[..k] + [attempt] + attempts[k..]
  }

  /** The next value of the id column. */
  function FreshId(attempts: seq<Attempt>): (id: Id)
    ensures forall a :: a in attempts ==> a.id < id
  {
    if attempts == [] then 1
    else var rest := FreshId(attempts[1..]); if attempts[0].id < rest then rest else attempts[0].id + 1
  }

  lemma DeleteOne(attempts: seq<Attempt>, attempt: Attempt)
    requires DistinctAttempts(attempts) && attempt in attempts
    ensures |Delete(attempts, attempt.id)| == |attempts| - 1
  {
    if attempts[0].id == attempt.id {
      NothingToDelete(attempts[1..], attempt.id);
    } else {
      DeleteOne(attempts[1..], attempt);
    }
  }

  lemma {:induction false} NothingToDelete(attempts: seq<Attempt>, id: Id)
    requires forall a :: a in attempts ==> a.id != id
    ensures Delete(attempts, id) == attempts
  {
    if attempts != [] {
      assert attempts[0] in attempts;
      NothingToDelete(attempts[1..], id);
      assert attempts == [attempts[0]] + attempts[1..];
    }
  }

  /** An attempt that was the only one in progress leaves none behind when it gets another state. */
  lemma LeavesProgress(attempts: seq<Attempt>, attempt: Attempt, state: AttemptState)
    requires DistinctAttempts(attempts) && AtMostOneInProgress(attempts)
    requires attempt in attempts && attempt.state == AttemptInProgress && state != AttemptInProgress
    ensures var after := SetState(attempts, attempt.id, state);
            && DistinctAttempts(after) && NoneInProgress(after) && AtMostOneInProgress(after)
            && |after| == |attempts| && attempt.(state := state) in after
            && (FeesDescending(attempts) ==> FeesDescending(after))
            && (forall a :: a in attempts && a.id != attempt.id ==> a in after)
  {
    var after := SetState(attempts, attempt.id, state);
    var k :| 0 <= k < |attempts| && attempts[k] == attempt;
    assert after[k] == attempt.(state := state);
    forall a | a in attempts && a.id != attempt.id ensures a in after {
      var i :| 0 <= i < |attempts| && attempts[i] == a;
      assert after[i] == a;
    }
  }

  lemma LeavesTable(attempts: seq<Attempt>, attempt: Attempt)
    requires DistinctAttempts(attempts) && AtMostOneInProgress(attempts)
    requires attempt in attempts && attempt.state == AttemptInProgress
    ensures var after := Delete(attempts, attempt.id);
            && DistinctAttempts(after) && NoneInProgress(after) && AtMostOneInProgress(after)
            && |after| == |attempts| - 1
            && (FeesDescending(attempts) ==> FeesDescending(after))
  {
    DeleteOne(attempts, attempt);
    var k :| 0 <= k < |attempts| && attempts[k] == attempt;
    forall a | a in Delete(attempts, attempt.id) ensures a.state != AttemptInProgress {
      var i :| 0 <= i < |attempts| && attempts[i] == a;
      assert i < k || k < i;
    }
  }

  /** Where none is in progress, one may be. */
  lemma EntersTable(attempts: seq<Attempt>, attempt: Attempt)
    requires DistinctAttempts(attempts) && NoneInProgress(attempts)
    requires forall a :: a in attempts ==> a.id != attempt.id
    ensures var after := Insert(attempts, attempt);
            && DistinctAttempts(after) && AtMostOneInProgress(after)
            && |after| == |attempts| + 1 && attempt in after
            && (forall a :: a in attempts ==> a in after)
            && (forall a :: a in after ==> a in attempts || a == attempt)
            && (FeesDescending(attempts) ==> FeesDescending(after))
            && ((forall a :: a in attempts ==> a.fee < attempt.fee) ==> after[0] == attempt)
  {
    InsertInOrder(attempts, attempt);
    InsertMembers(attempts, attempt);
    InsertDistinct(attempts, attempt);
  }

  /** Where an element of the longer list was. */
  lemma InsertedAt(attempts: seq<Attempt>, attempt: Attempt, i: nat)
    requires i < |Insert(attempts, attempt)|
    ensures |Insert(attempts, attempt)| == |attempts| + 1
    ensures var k := Position(attempts, attempt.fee);
            Insert(attempts, attempt)[i] == if i < k then attempts[i] else if i == k then attempt else attempts[i - 1]
  {
  }

  lemma InsertDistinct(attempts: seq<Attempt>, attempt: Attempt)
    requires DistinctAttempts(attempts) && NoneInProgress(attempts)
    requires forall a :: a in attempts ==> a.id != attempt.id
    ensures DistinctAttempts(Insert(attempts, attempt)) && AtMostOneInProgress(Insert(attempts, attempt))
  {
    var after, k := Insert(attempts, attempt), Position(attempts, attempt.fee);
    forall i, j | 0 <= i < j < |after|
      ensures after[i].id != after[j].id
      ensures after[i].state != AttemptInProgress || after[j].state != AttemptInProgress
    {
      InsertedAt(attempts, attempt, i);
      InsertedAt(attempts, attempt, j);
      if i == k {
        assert attempts[j - 1] in attempts;
      } else {
        assert attempts[if i < k then i else i - 1] in attempts;
      }
    }
  }

  lemma InsertMembers(attempts: seq<Attempt>, attempt: Attempt)
    ensures var after := Insert(attempts, attempt);
            && attempt in after
            && (forall a :: a in attempts ==> a in after)
            && (forall a :: a in after ==> a in attempts || a == attempt)
  {
    var after, k := Insert(attempts, attempt), Position(attempts, attempt.fee);
    assert attempts == attempts[..k] + attempts[k..];
    assert after[k] == attempt;
  }

  lemma InsertInOrder(attempts: seq<Attempt>, attempt: Attempt)
    ensures var after := Insert(attempts, attempt);
            && (FeesDescending(attempts) ==> FeesDescending(after))
            && ((forall a :: a in attempts ==> a.fee < attempt.fee) ==> after[0] == attempt)
  {
    var after, k := Insert(attempts, attempt), Position(attempts, attempt.fee);
    assert forall i :: 0 <= i < |after| ==>
        after[i] == if i < k then attempts[i] else if i == k then attempt else attempts[i - 1];
    if k > 0 {
      assert attempts[0] in attempts;
    }
  }

  lemma EntersProgress(attempts: seq<Attempt>, attempt: Attempt)
    requires DistinctAttempts(attempts) && NoneInProgress(attempts) && attempt in attempts
    ensures var after := SetState(attempts, attempt.id, AttemptInProgress);
            && DistinctAttempts(after) && AtMostOneInProgress(after)
            && |after| == |attempts| && attempt.(state := AttemptInProgress) in after
            && (FeesDescending(attempts) ==> FeesDescending(after))
            && (forall a :: a in attempts && a.id != attempt.id ==> a in after)
  {
    var after := SetState(attempts, attempt.id, AttemptInProgress);
    var k :| 0 <= k < |attempts| && attempts[k] == attempt;
    assert after[k] == attempt.(state := AttemptInProgress);
    forall a | a in attempts && a.id != attempt.id ensures a in after {
      var i :| 0 <= i < |attempts| && attempts[i] == a;
      assert after[i] == a;
    }
  }
}

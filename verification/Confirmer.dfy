/**
 The Confirmer (common/txmgr/confirmer.go): what it does to the rows on every new head.

 Whatever it learns from outside is what `world` has for that moment. A store operation under a cancelled context fails;
 the one exception is `markForRebroadcast`, which uses another context. The addresses' goroutines touch disjoint rows,
 so they run one after the other here, in between whatever the Broadcasters do to rows the Confirmer does not look at.
 All that has happened to the rows is in the ghost `run`.
 */
module Confirmer {
  import opened Options
  import opened SetFacts
  import opened Fee
  import opened Interference
  import opened TxStore
  import opened Attempts
  import opened Chain
  import opened ConfirmerRun
  import opened Reorg
  import opened RebroadcastList
  import opened Runs

  /** No attempt of this address's transactions is in progress. */
  ghost predicate Quiet(rows: Rows, address: Address) {
    forall id :: id in rows && Visible(rows[id]) && rows[id].from == address ==>
        Attempts.NoneInProgress(rows[id].attempts)
  }

  /**
   Visible rows other than those in `mine` are as they were, `mine` stay visible, and what has become
   visible since was handed over by the Broadcaster with no attempt in progress.
   */
  ghost predicate Frame(before: Rows, after: Rows, mine: set<Id>) {
    && (forall id :: id in before && Visible(before[id]) ==>
          id in after && Visible(after[id]) && after[id].from == before[id].from
          && (id !in mine ==> after[id] == before[id]))
    && (forall id :: id in after && Visible(after[id]) && !(id in before && Visible(before[id])) ==>
          && after[id].state == Unconfirmed
          && Attempts.NoneInProgress(after[id].attempts) && DistinctAttempts(after[id].attempts))
  }

  /** The same for everything done on behalf of one address. */
  ghost predicate AddressFrame(before: Rows, after: Rows, address: Address) {
    && (forall id :: id in before && Visible(before[id]) ==>
          id in after && Visible(after[id]) && after[id].from == before[id].from
          && (before[id].from != address ==> after[id] == before[id]))
    && (forall id ::
          id in after && Visible(after[id]) && !(id in before && Visible(before[id])) && after[id].from != address ==>
          Attempts.NoneInProgress(after[id].attempts))
  }

  lemma FrameWeaker(before: Rows, after: Rows, id: Id)
    requires Frame(before, after, {})
    ensures Frame(before, after, {id})
  {
  }

  lemma FrameTransitive(a: Rows, b: Rows, c: Rows, id: Id)
    requires Frame(a, b, {id}) && Frame(b, c, {id}) && id in a && Visible(a[id])
    ensures Frame(a, c, {id})
  {
  }

  /** What a completed send of `attempt` leaves, given the last answer and what it was an answer to. */
  ghost predicate CompletedBy(before: Tx, attempt: Attempt, after: Tx, code: Code, sent: Attempt) {
    && Attempts.NoneInProgress(after.attempts)
    && (forall a :: a in before.attempts && a.id != attempt.id ==> a in after.attempts)
    && code in {Successful, TransactionAlreadyKnown, InsufficientFunds, Fatal, ExceedsMaxFee}
    && after.state == (if code == TransactionAlreadyKnown then ConfirmedMissingReceipt else before.state)
    && (if code in {Fatal, ExceedsMaxFee} then |after.attempts| == |before.attempts| - 1
        else && |after.attempts| == |before.attempts|
             && sent.fee >= attempt.fee
             && var state := if code == InsufficientFunds then AttemptInsufficientFunds else AttemptBroadcast;
                sent.(state := state) in after.attempts)
  }

  /** The attempt at the top is the one with its id. */
  lemma SameAttempt(tx: Tx, attempt: Attempt)
    requires DistinctAttempts(tx.attempts) && attempt in tx.attempts && tx.attempts[0].id == attempt.id
    ensures tx.attempts[0] == attempt
  {
    var k :| 0 <= k < |tx.attempts| && tx.attempts[k] == attempt;
  }

  lemma CompletedAfterReplace(before: Tx, attempt: Attempt, replaced: Tx, replacement: Attempt, after: Tx,
      code: Code, sent: Attempt)
    requires CompletedBy(replaced, replacement, after, code, sent) && replacement.fee >= attempt.fee
    requires |replaced.attempts| == |before.attempts| && replaced.state == before.state
    requires forall a :: a in before.attempts && a.id != attempt.id ==> a in replaced.attempts && a.id != replacement.id
    ensures CompletedBy(before, attempt, after, code, sent)
  {
  }

  lemma OutcomeCompletes(tx: Tx, attempt: Attempt, code: Code)
    requires DistinctAttempts(tx.attempts) && AtMostOneInProgress(tx.attempts)
    requires attempt in tx.attempts && attempt.state == AttemptInProgress && IsFinal(code)
    ensures CompletedBy(tx, attempt, Outcome(tx, attempt, code), code, attempt)
  {
    if code == Fatal || code == ExceedsMaxFee {
      LeavesTable(tx.attempts, attempt);
    } else {
      LeavesProgress(tx.attempts, attempt, FinalState(code));
    }
  }

  lemma ExchangeMeaning(tx: Tx, attempt: Attempt, replacement: Attempt)
    requires DistinctAttempts(tx.attempts) && FeesDescending(tx.attempts) && AtMostOneInProgress(tx.attempts)
    requires attempt in tx.attempts && attempt.state == AttemptInProgress && replacement.fee > tx.attempts[0].fee
    requires forall a :: a in tx.attempts ==> a.id != replacement.id
    ensures var after := Exchanged(tx, attempt, replacement);
            && |after.attempts| == |tx.attempts| && after.attempts[0] == replacement && FeesDescending(after.attempts)
            && forall a :: a in tx.attempts && a.id != attempt.id ==> a in after.attempts && a.id != replacement.id
  {
    LeavesTable(tx.attempts, attempt);
    EntersTable(Delete(tx.attempts, attempt.id), replacement);
  }

  /** Work for one address leaves the others quiet. */
  lemma AddressFrameKeepsQuiet(before: Rows, after: Rows, address: Address, other: Address)
    requires AddressFrame(before, after, address) && address != other && Quiet(before, other)
    ensures Quiet(after, other)
  {
  }

  lemma FrameIsAddressFrame(before: Rows, after: Rows, id: Id, address: Address)
    requires Frame(before, after, {id}) && id in before && Visible(before[id]) && before[id].from == address
    ensures AddressFrame(before, after, address)
  {
  }

  lemma AddressFrameTransitive(a: Rows, b: Rows, c: Rows, address: Address)
    requires AddressFrame(a, b, address) && AddressFrame(b, c, address)
    ensures AddressFrame(a, c, address)
  {
  }

  /** The attempts left in progress for one address, each with its transaction. */
  function InProgressAttempts(rows: Rows, address: Address): set<(Id, Attempt)> {
    set id, a | id in rows && Visible(rows[id]) && rows[id].from == address
                && a in rows[id].attempts && a.state == AttemptInProgress :: (id, a)
  }

  lemma NoneLeftIsQuiet(rows: Rows, address: Address)
    requires InProgressAttempts(rows, address) == {}
    ensures Quiet(rows, address)
  {
    forall id, a | id in rows && Visible(rows[id]) && rows[id].from == address && a in rows[id].attempts
      ensures a.state != AttemptInProgress
    {
      assert (id, a) !in InProgressAttempts(rows, address);
    }
  }

  lemma FrameKeepsInProgress(before: Rows, after: Rows, address: Address)
    requires Frame(before, after, {})
    ensures InProgressAttempts(after, address) == InProgressAttempts(before, address)
  {
  }

  /** Handling one attempt takes it off the list, and nothing else. */
  lemma HandledOne(before: Rows, after: Rows, address: Address, id: Id, attempt: Attempt)
    requires Frame(before, after, {id}) && (id, attempt) in InProgressAttempts(before, address)
    requires AtMostOneInProgress(before[id].attempts) && Attempts.NoneInProgress(after[id].attempts)
    ensures InProgressAttempts(after, address) == InProgressAttempts(before, address) - {(id, attempt)}
  {
    forall i, a ensures (i, a) in InProgressAttempts(after, address) <==>
        (i, a) in InProgressAttempts(before, address) - {(id, attempt)} {
    }
  }

  lemma FrameKeepsOtherTxs(before: Rows, after: Rows, address: Address, etxs: seq<Tx>, i: nat)
    requires DistinctIds(etxs) && i < |etxs| && etxs[i].id in before && Visible(before[etxs[i].id])
    requires Frame(before, after, {etxs[i].id}) && Quiet(before, address)
    requires etxs[i].id in after && Attempts.NoneInProgress(after[etxs[i].id].attempts)
    requires forall tx :: tx in etxs[i..] ==> tx.id in before && before[tx.id] == tx && tx.state == Unconfirmed
    ensures Quiet(after, address)
    ensures forall tx :: tx in etxs[i + 1..] ==> tx.id in after && after[tx.id] == tx
  {
    forall tx | tx in etxs[i + 1..] ensures tx.id in after && after[tx.id] == tx {
      var k :| 0 <= k < |etxs[i + 1..]| && etxs[i + 1..][k] == tx;
      assert tx == etxs[i + 1 + k] && tx == etxs[i..][k + 1];
    }
  }

  /** A replacement, an error of the bump itself, or any other error. */
  datatype BumpOutcome = Replacement(attempt: Attempt) | BumpError | OtherError

  datatype MarkResult = Done | StoreFailed | CannotMark(id: Id)

  /** The rows fetched for marking: those in `todo` are untouched, the others marked where they needed it. */
  ghost predicate MarkedSoFar(fetched: Rows, rows: Rows, todo: set<Id>, head: Head) {
    && todo <= fetched.Keys && (forall id :: id in todo ==> InHeadRange(fetched[id], head))
    && (forall id :: id in fetched && Visible(fetched[id]) ==>
          && id in rows
          && if id in todo then rows[id] == fetched[id]
             else
               && rows[id] == AfterMarking(fetched[id], head)
               && (NeedsMark(fetched[id], head) ==> CanMark(fetched[id])))
    && (forall id :: id in rows && !(id in fetched && Visible(fetched[id])) ==>
          rows[id].state != Confirmed && rows[id].state != ConfirmedMissingReceipt)
  }

  lemma MarkedOne(fetched: Rows, rows: Rows, todo: set<Id>, head: Head, id: Id)
    requires MarkedSoFar(fetched, rows, todo, head) && id in todo && !ReceiptOnChain(fetched[id], head)
    ensures CanMark(fetched[id]) ==> MarkedSoFar(fetched, rows[id := Rebroadcast(fetched[id])], todo - {id}, head)
  {
  }

  lemma FoundOne(fetched: Rows, rows: Rows, todo: set<Id>, head: Head, id: Id)
    requires MarkedSoFar(fetched, rows, todo, head) && id in todo && ReceiptOnChain(fetched[id], head)
    ensures MarkedSoFar(fetched, rows, todo - {id}, head)
  {
  }

  lemma OthersKeepMarked(fetched: Rows, before: Rows, after: Rows, todo: set<Id>, head: Head)
    requires MarkedSoFar(fetched, before, todo, head) && Frame(before, after, {})
    ensures MarkedSoFar(fetched, after, todo, head)
  {
    forall id | id in fetched && Visible(fetched[id]) ensures id in after && after[id] == before[id] {
      assert Visible(before[id]);
    }
  }

  lemma FrameKeepsQuiet(before: Rows, after: Rows, enabled: seq<Address>)
    requires Frame(before, after, {}) && forall address :: address in enabled ==> Quiet(before, address)
    ensures forall address :: address in enabled ==> Quiet(after, address)
  {
  }

  lemma SavedIsSent(sent: Run<Cause>, saved: Run<Cause>, id: Id)
    requires sent.Then? && sent.cause.Sent? && sent.cause.id == id
    requires saved.Then? && saved.before == sent && saved.cause.Saved? && saved.cause.id == id
    ensures WasSent(sent.before, saved, id)
  {
    SinceIsDeeper(sent.before, sent);
    assert Depth(saved) == Depth(sent.before) + 2;
  }

  lemma OthersStayQuiet(before: Rows, after: Rows, enabled: seq<Address>, i: nat)
    requires i < |enabled| && AddressFrame(before, after, enabled[i])
    requires forall k :: 0 <= k < i ==> Quiet(before, enabled[k])
    ensures Quiet(after, enabled[i]) ==> forall k :: 0 <= k <= i ==> Quiet(after, enabled[k])
  {
    forall k | 0 <= k < i && Quiet(after, enabled[i]) ensures Quiet(after, enabled[k]) {
      if enabled[k] != enabled[i] {
        AddressFrameKeepsQuiet(before, after, enabled[i], enabled[k]);
      }
    }
  }

  class Confirmer {
    const enabled: seq<Address>
    const fees: FeeConfig
    const maxInFlight: nat
    const finalityDepth: nat
    const world: World

    var rows: Rows
    var clock: nat       // the moment to come
    var cancelled: bool  // the head's context is done
    var nConsecutiveBlocksChainTooShort: nat

    ghost var run: Run<Cause>

    function Terms(): Setting {
      Setting(world, enabled, fees)
    }

    /** The rows are what the run makes of them, and the run follows the rules. */
    ghost predicate Valid()
      reads this
    {
      && fees.bumpMin >= 0 && RowsValid(rows, enabled)
      && RunOk(Terms(), run) && run.rows == rows && Clock(run) <= clock
    }

    ghost function Answer(): Code
      reads this
    {
      LastCode(Terms(), run)
    }

    /** The last store operation failed. */
    ghost predicate StoreRefused()
      reads this
    {
      clock > 0 && !world(clock - 1).store
    }

    /** An underpriced attempt that is not the highest-priced one, or whose bump, asked for last, did not come out. */
    ghost predicate NotReplaced(id: Id)
      reads this
    {
      var send := LastSend(run);
      && Answer() == Underpriced && send.Sending? && id in rows && rows[id].attempts != []
      && (|| send.attempt.id != rows[id].attempts[0].id
          || (clock >= 2 && send.answered < clock - 2 && CannotBump(Terms(), clock - 2, rows[id].attempts[0])))
    }

    /** What keeps an attempt in progress that could be sent. */
    ghost predicate Hopeless(id: Id)
      reads this
    {
      LastSend(run).Sending? && LastSend(run).id == id && (Inconclusive(Answer()) || NotReplaced(id))
    }

    lemma HopelessIs(id: Id, since: nat)
      requires Valid() && Hopeless(id) && AnsweredSince(since)
      ensures Disturbed(since) || Stuck(Terms(), run, clock)
    {
      if Inconclusive(Answer()) {
        assert !Smooth(world(LastSend(run).answered));
      } else if LastSend(run).attempt.id == rows[id].attempts[0].id {
        assert CannotBump(Terms(), clock - 2, rows[id].attempts[0]);
      }
    }

    /** The node's last answer came since then. */
    ghost predicate AnsweredSince(since: nat)
      reads this
    {
      LastSend(run).Sending? && since <= LastSend(run).answered < clock
    }

    constructor (rows: Rows, world: World, enabled: seq<Address>, fees: FeeConfig, maxInFlight: nat, finalityDepth: nat)
      requires fees.bumpMin >= 0 && RowsValid(rows, enabled)
      ensures Valid() && this.rows == rows && this.world == world && !cancelled && run == Begin(rows)
      ensures this.enabled == enabled && this.fees == fees
    {
      this.rows, this.world, this.enabled, this.fees := rows, world, enabled, fees;
      this.maxInFlight, this.finalityDepth := maxInFlight, finalityDepth;
      cancelled, nConsecutiveBlocksChainTooShort, clock := false, 0, 0;
      run := Begin(rows);
    }

    /** So it has been in every state: for enabled addresses, no transaction had two attempts in progress. */
    lemma WasAlwaysValid(earlier: Run<Cause>)
      requires Valid() && Since(earlier, run)
      ensures RowsValid(earlier.rows, enabled)
    {
      AlwaysValid(Terms(), run, earlier);
    }

    /** At some moment since then the context was cancelled, the store refused, or a send or a bump failed. */
    ghost predicate Disturbed(since: nat)
      reads this
    {
      exists tick :: since <= tick < clock && !Smooth(world(tick))
    }

    method Update(ghost cause: Cause, after: Rows)
      requires Valid() && StepOk(Terms(), run, cause, after)
      requires Tick(cause).Some? ==> Tick(cause).value < clock
      modifies `rows, `run
      ensures Valid() && rows == after && run == Then(old(run), cause, after)
      ensures !cause.Others? ==> Rely(old(rows), rows)
    {
      StepKeepsValid(Terms(), run, cause, after);
      if !cause.Others? {
        OwnStepIsRely(Terms(), run, cause, after);
      }
      rows := after;
      run := Then(run, cause, after);
    }

    /** Time passes: the Broadcasters work, and the context may be cancelled for good. */
    method Interfere()
      requires Valid()
      modifies `rows, `run, `clock, `cancelled
      ensures Valid() && Frame(old(rows), rows, {}) && OnlySends(old(run), run)
      ensures clock == old(clock) + 1 && (cancelled ==> old(cancelled) || Disturbed(old(clock)))
      ensures run == old(run) || run == Then(old(run), Others(old(clock)), rows)
      ensures old(cancelled) ==> cancelled
    {
      cancelled := cancelled || world(clock).timeout;
      var after := world(clock).others(rows);
      clock := clock + 1;
      if Handover(rows, after) {
        HandoverFrame(rows, after);
        Update(Others(clock - 1), after);
      }
    }

    /** A store operation under the head's context. */
    method StoreAnswers() returns (ok: bool)
      modifies `clock
      ensures ok <==> world(old(clock)).store && !cancelled
      ensures clock == old(clock) + 1
    {
      ok := world(clock).store && !cancelled;
      clock := clock + 1;
    }

    /** The bump of the highest-priced attempt, as it came out at this moment. */
    function BumpAt(tick: nat, attempt: Attempt): BumpOutcome {
      var bump := CalculateBumpedFee(fees, world(tick).current, attempt.fee);
      if world(tick).builder.FailsOtherwise? then OtherError
      else if world(tick).builder.FailsAsBump? || !bump.Bumped? then BumpError
      else Replacement(Attempt(attempt.id, bump.price, attempt.dynamicFee, AttemptInProgress, []))
    }

    /** The bumped attempt is a new one, so it gets an id of its own. */
    method NewBumpTxAttempt(attempts: seq<Attempt>) returns (outcome: BumpOutcome)
      requires attempts != [] && fees.bumpMin >= 0
      modifies `clock
      ensures clock == old(clock) + 1
      ensures outcome == match BumpAt(old(clock), attempts[0])
                         case Replacement(bumped) => Replacement(bumped.(id := FreshId(attempts)))
                         case error => error
      ensures outcome.Replacement? ==>
                && IsBumpOf(Terms(), old(clock), attempts[0], outcome.attempt)
                && IsBump(fees, attempts[0].fee, outcome.attempt.fee) && outcome.attempt.state == AttemptInProgress
                && forall a :: a in attempts ==> a.id != outcome.attempt.id
    {
      outcome := BumpAt(clock, attempts[0]);
      if outcome.Replacement? {
        SuccessIsBump(fees, world(clock).current, attempts[0].fee);
        outcome := Replacement(outcome.attempt.(id := FreshId(attempts)));
      }
      clock := clock + 1;
    }

    /** What a completed send leaves of the transaction. */
    ghost predicate Completed(before: Tx, attempt: Attempt, after: Tx)
      reads this
    {
      LastSend(run).Sending? && CompletedBy(before, attempt, after, Answer(), LastSend(run).attempt)
    }

    /** How far a price is below the limit. */
    function FeeGap(fee: int): nat {
      if fee <= fees.Limit() then fees.Limit() - fee else 0
    }

    /**
     Sends an attempt that is in progress. No error means that it no longer is: it was saved with another state, or
     deleted; otherwise one is still in progress, either this one or a higher-priced replacement.
     */
    method HandleInProgressAttempt(id: Id, attempt: Attempt) returns (failed: bool)
      requires Valid() && id in rows && Visible(rows[id]) && rows[id].from in enabled
      requires attempt in rows[id].attempts
      modifies `rows, `run, `clock, `cancelled
      ensures Valid() && (old(cancelled) ==> cancelled)
      ensures clock >= old(clock) && (cancelled ==> old(cancelled) || Disturbed(old(clock)))
      ensures attempt.state == AttemptInProgress && failed ==> cancelled || StoreRefused() || Hopeless(id)
      ensures attempt.state == AttemptInProgress && failed ==>
                cancelled || Disturbed(old(clock)) || Stuck(Terms(), run, clock)
      ensures attempt.state == AttemptInProgress ==> AnsweredSince(old(clock)) && LastSend(run).id == id
      ensures Frame(old(rows), rows, {id}) && OnlySends(old(run), run)
      ensures rows[id].sequence == old(rows)[id].sequence
      ensures attempt.state != AttemptInProgress ==> failed && run == old(run)
      ensures !failed ==> Completed(old(rows)[id], attempt, rows[id])
      ensures !failed ==> WasSent(old(run), run, id)
      ensures failed && attempt.state == AttemptInProgress ==> !Attempts.NoneInProgress(rows[id].attempts)
      decreases FeeGap(attempt.fee), 4
    {
      if attempt.state != AttemptInProgress {
        return true;
      }
      var code := SendAttempt(id, attempt);
      ghost var sent := run;
      failed := ActOnAnswer(id, attempt, code, old(clock));
      SendFrames(old(run), sent.before, sent, id, failed);
      FrameTransitive(old(rows), sent.rows, rows, id);
      if failed && Hopeless(id) {
        HopelessIs(id, old(clock));
      }
    }

    /** The node's answer is a step of its own. */
    method SendAttempt(id: Id, attempt: Attempt) returns (code: Code)
      requires Valid() && HasInProgress(Terms(), rows, id, attempt)
      modifies `rows, `run, `clock, `cancelled
      ensures Valid() && HasInProgress(Terms(), rows, id, attempt) && rows[id] == old(rows)[id]
      ensures old(cancelled) ==> cancelled
      ensures clock >= old(clock) && (cancelled ==> old(cancelled) || Disturbed(old(clock)))
      ensures Frame(old(rows), rows, {id})
      ensures run.Then? && run.cause.Sent? && run.cause.id == id && OnlySends(old(run), run.before)
      ensures code == Answer() && IsLastSend(run, id, attempt) && AnsweredSince(old(clock))
    {
      Interfere();
      FrameWeaker(old(rows), rows, id);
      code := world(clock).code;
      clock := clock + 1;
      Update(Sent(id, attempt, clock - 1), rows);
    }

    lemma SendFrames(from: Run<Cause>, waited: Run<Cause>, sent: Run<Cause>, id: Id, failed: bool)
      requires OnlySends(from, waited) && OnlySends(sent, run)
      requires sent.Then? && sent.before == waited && sent.cause.Sent?
      requires !failed ==> WasSent(waited, run, id)
      ensures OnlySends(from, run) && (!failed ==> WasSent(from, run, id))
    {
      OnlySendsTransitive(from, sent, run);
      OnlySendsTransitive(waited, sent, run);
      OnlySendsIsSince(from, waited);
      OnlySendsIsSince(waited, run);
      SentSinceEarlier(from, waited, run, id);
    }

    method ActOnAnswer(id: Id, attempt: Attempt, code: Code, ghost since: nat) returns (failed: bool)
      requires Valid() && id in rows && Visible(rows[id]) && rows[id].from in enabled
      requires attempt in rows[id].attempts && attempt.state == AttemptInProgress
      requires run.Then? && run.cause.Sent? && run.cause.id == id
      requires code == Answer() && IsLastSend(run, id, attempt) && AnsweredSince(since)
      modifies `rows, `run, `clock, `cancelled
      ensures Valid() && (old(cancelled) ==> cancelled)
      ensures clock >= old(clock) && (cancelled ==> old(cancelled) || Disturbed(old(clock)))
      ensures failed ==> cancelled || StoreRefused() || Hopeless(id)
      ensures clock > old(clock) && AnsweredSince(since) && LastSend(run).id == id
      ensures Frame(old(rows), rows, {id}) && OnlySends(old(run), run)
      ensures rows[id].sequence == old(rows)[id].sequence
      ensures if failed then !Attempts.NoneInProgress(rows[id].attempts)
          else Completed(old(rows)[id], attempt, rows[id])
      ensures !failed ==> WasSent(old(run).before, run, id)
      decreases FeeGap(attempt.fee), 3
    {
      var ok := StoreAnswers();
      if !ok {
        return true;
      }
      match code {
        case Underpriced =>
          failed := ReplaceAndSend(id, attempt);
          OnlySendsIsSince(old(run), run);
          SentSinceEarlier(old(run).before, old(run), run, id);
        case ExceedsMaxFee | Fatal | TransactionAlreadyKnown | InsufficientFunds | Successful =>
          SaveOutcome(id, attempt, code);
          failed := false;
        case Retryable | Unknown | Unsupported | FeeOutOfValidRange | Other =>
          failed := true;
      }
    }

    /** The node found the highest-priced attempt underpriced: a bumped one takes its place and is sent. */
    method ReplaceAndSend(id: Id, attempt: Attempt) returns (failed: bool)
      requires Valid() && id in rows && Visible(rows[id]) && rows[id].from in enabled
      requires attempt in rows[id].attempts && attempt.state == AttemptInProgress
      requires IsLastSend(run, id, attempt) && Answer() == Underpriced && LastSend(run).answered < clock
      modifies `rows, `run, `clock, `cancelled
      ensures Valid() && (old(cancelled) ==> cancelled)
      ensures clock >= old(clock) && (cancelled ==> old(cancelled) || Disturbed(old(clock)))
      ensures Frame(old(rows), rows, {id}) && OnlySends(old(run), run)
      ensures rows[id].sequence == old(rows)[id].sequence
      ensures if failed then !Attempts.NoneInProgress(rows[id].attempts)
          else Completed(old(rows)[id], attempt, rows[id])
      ensures failed ==> cancelled || StoreRefused() || Hopeless(id)
      ensures !failed ==> WasSent(old(run), run, id)
      ensures (run == old(run) || AnsweredSince(old(clock))) && LastSend(run).Sending? && LastSend(run).id == id
      decreases FeeGap(attempt.fee), 2
    {
      if attempt.id != rows[id].attempts[0].id {
        return true;
      }
      failed := BumpAndSend(id, attempt);
    }

    method BumpAndSend(id: Id, attempt: Attempt) returns (failed: bool)
      requires Valid() && id in rows && Visible(rows[id]) && rows[id].from in enabled
      requires attempt in rows[id].attempts && attempt.state == AttemptInProgress
      requires IsLastSend(run, id, attempt) && Answer() == Underpriced && LastSend(run).answered < clock
      requires attempt.id == rows[id].attempts[0].id
      modifies `rows, `run, `clock, `cancelled
      ensures Valid() && (old(cancelled) ==> cancelled)
      ensures clock >= old(clock) && (cancelled ==> old(cancelled) || Disturbed(old(clock)))
      ensures Frame(old(rows), rows, {id}) && OnlySends(old(run), run)
      ensures rows[id].sequence == old(rows)[id].sequence
      ensures if failed then !Attempts.NoneInProgress(rows[id].attempts)
          else Completed(old(rows)[id], attempt, rows[id])
      ensures failed ==> cancelled || StoreRefused() || Hopeless(id)
      ensures !failed ==> WasSent(old(run), run, id)
      ensures (run == old(run) || AnsweredSince(old(clock))) && LastSend(run).Sending? && LastSend(run).id == id
      decreases FeeGap(attempt.fee), 1
    {
      ghost var tick := clock;
      var outcome := NewBumpTxAttempt(rows[id].attempts);
      var ok := StoreAnswers();
      if !outcome.Replacement? || !ok {
        return true;
      }
      failed := SendReplacement(id, attempt, outcome.attempt, tick);
    }

    method SendReplacement(id: Id, attempt: Attempt, replacement: Attempt, ghost tick: nat) returns (failed: bool)
      requires Valid() && ReplaceOk(Terms(), rows, id, attempt, replacement, tick) && Clock(run) <= tick < clock
      requires IsLastSend(run, id, attempt) && Answer() == Underpriced
      modifies `rows, `run, `clock, `cancelled
      ensures Valid() && (old(cancelled) ==> cancelled)
      ensures clock >= old(clock) && (cancelled ==> old(cancelled) || Disturbed(old(clock)))
      ensures Frame(old(rows), rows, {id}) && OnlySends(old(run), run)
      ensures rows[id].sequence == old(rows)[id].sequence
      ensures if failed then !Attempts.NoneInProgress(rows[id].attempts)
          else Completed(old(rows)[id], attempt, rows[id])
      ensures failed ==> cancelled || StoreRefused() || Hopeless(id)
      ensures !failed ==> WasSent(old(run), run, id)
      ensures (run == old(run) || AnsweredSince(old(clock))) && LastSend(run).Sending? && LastSend(run).id == id
      decreases FeeGap(attempt.fee), 0
    {
      var tx := rows[id];
      SameAttempt(tx, attempt);
      SuccessIsBump(fees, world(tick).current, attempt.fee);
      BumpRises(fees, attempt.fee, replacement.fee);
      Replace(id, attempt, replacement, tick);
      ghost var replaced, before := run, rows;
      failed := HandleInProgressAttempt(id, replacement);
      OnlySendsTransitive(old(run), replaced, run);
      OnlySendsIsSince(replaced, run);
      SentSinceEarlier(old(run), replaced, run, id);
      FrameTransitive(old(rows), before, rows, id);
      if !failed {
        CompletedAfterReplace(tx, attempt, before[id], replacement, rows[id], Answer(), LastSend(run).attempt);
      }
    }

    /** A rejected attempt is deleted; any other is saved with the state its answer calls for. */
    method SaveOutcome(id: Id, attempt: Attempt, code: Code)
      requires Valid() && id in rows && Visible(rows[id]) && rows[id].from in enabled
      requires attempt in rows[id].attempts && attempt.state == AttemptInProgress
      requires code == Answer() && IsLastSend(run, id, attempt) && IsFinal(code)
      requires run.Then? && run.cause.Sent? && run.cause.id == id
      modifies `rows, `run
      ensures Valid() && run == Then(old(run), Saved(id, attempt), rows)
      ensures id in rows && rows == old(rows)[id := Outcome(old(rows)[id], attempt, code)]
      ensures rows[id].from == old(rows)[id].from && rows[id].sequence == old(rows)[id].sequence
      ensures Completed(old(rows)[id], attempt, rows[id])
      ensures Frame(old(rows), rows, {id}) && OnlySends(old(run), run)
      ensures WasSent(old(run).before, run, id) && LastSend(run) == LastSend(old(run))
      ensures Rely(old(rows), rows)
    {
      OutcomeCompletes(rows[id], attempt, code);
      Update(Saved(id, attempt), rows[id := Outcome(rows[id], attempt, code)]);
      SavedIsSent(old(run), run, id);
    }

    /** The replacement, being higher than the highest-priced attempt, is now that itself. */
    method Replace(id: Id, attempt: Attempt, replacement: Attempt, ghost tick: nat)
      requires Valid() && id in rows && Visible(rows[id]) && rows[id].from in enabled
      requires attempt in rows[id].attempts && attempt.state == AttemptInProgress
      requires ReplaceOk(Terms(), rows, id, attempt, replacement, tick) && replacement.fee > rows[id].attempts[0].fee
      requires Clock(run) <= tick < clock
      requires IsLastSend(run, id, attempt) && Answer() == Underpriced
      modifies `rows, `run
      ensures Valid() && run == Then(old(run), Replaced(id, attempt, replacement, tick), rows)
      ensures rows == old(rows)[id := Exchanged(old(rows)[id], attempt, replacement)]
      ensures |rows[id].attempts| == |old(rows)[id].attempts| && rows[id].attempts[0] == replacement
      ensures FeesDescending(rows[id].attempts)
      ensures Frame(old(rows), rows, {id}) && OnlySends(old(run), run)
      ensures rows[id].state == old(rows)[id].state && rows[id].sequence == old(rows)[id].sequence
      ensures forall a :: a in old(rows)[id].attempts && a.id != attempt.id ==>
          a in rows[id].attempts && a.id != replacement.id
      ensures Rely(old(rows), rows)
    {
      ExchangeMeaning(rows[id], attempt, replacement);
      Update(Replaced(id, attempt, replacement, tick), rows[id := Exchanged(rows[id], attempt, replacement)]);
    }

    /**
     Sends every attempt left in progress for an address. No error and no cancellation means that none is left;
     a cancelled context also ends it without an error.
     */
    method HandleAnyInProgressAttempts(address: Address) returns (failed: bool)
      requires Valid() && address in enabled
      modifies `rows, `run, `clock, `cancelled
      ensures Valid() && (old(cancelled) ==> cancelled)
      ensures clock >= old(clock) && (cancelled ==> old(cancelled) || Disturbed(old(clock)))
      ensures failed ==> cancelled || Disturbed(old(clock)) || EverBlocked(Terms(), run, clock)
      ensures AddressFrame(old(rows), rows, address) && OnlySends(old(run), run)
      ensures !failed && !cancelled ==> Quiet(rows, address)
      ensures cancelled ==> !failed
    {
      var todo := InProgressAttempts(rows, address);
      var ok := StoreAnswers();
      HandleNext(address, todo);
      if cancelled {
        return false;
      }
      if !ok {
        return true;
      }
      while todo != {}
        invariant Valid() && (old(cancelled) ==> cancelled)
        invariant AddressFrame(old(rows), rows, address) && OnlySends(old(run), run)
        invariant todo == InProgressAttempts(rows, address)
        invariant clock >= old(clock) && (cancelled ==> old(cancelled) || Disturbed(old(clock)))
        decreases |todo|
      {
        var next :| next in todo;
        failed := HandleOne(address, next, todo, old(rows), old(run));
        todo := todo - {next};
        if cancelled {
          return false;
        }
        if failed {
          return true;
        }
      }
      NoneLeftIsQuiet(rows, address);
      return false;
    }

    /** One of them, and then whatever others do. */
    method HandleOne(address: Address, next: (Id, Attempt), ghost todo: set<(Id, Attempt)>, ghost start: Rows,
        ghost from: Run<Cause>)
      returns (failed: bool)
      requires Valid() && address in enabled && next in todo && todo == InProgressAttempts(rows, address)
      requires AddressFrame(start, rows, address) && OnlySends(from, run)
      modifies `rows, `run, `clock, `cancelled
      ensures Valid() && (old(cancelled) ==> cancelled)
      ensures clock >= old(clock) && (cancelled ==> old(cancelled) || Disturbed(old(clock)))
      ensures failed ==> cancelled || Disturbed(old(clock)) || EverBlocked(Terms(), run, clock)
      ensures AddressFrame(start, rows, address) && OnlySends(from, run)
      ensures !failed ==> InProgressAttempts(rows, address) == todo - {next}
    {
      failed := HandleInProgressAttempt(next.0, next.1);
      FrameIsAddressFrame(old(rows), rows, next.0, address);
      AddressFrameTransitive(start, old(rows), rows, address);
      OnlySendsTransitive(from, old(run), run);
      if !failed {
        HandledOne(old(rows), rows, address, next.0, next.1);
      }
      ghost var handled, sent, until := rows, run, clock;
      ghost var blocked := EverBlocked(Terms(), run, clock);
      HandleNext(address, todo - {next});
      if blocked {
        StaysBlocked(Terms(), sent, run, until, clock);
      }
      AddressFrameTransitive(start, handled, rows, address);
      OnlySendsTransitive(from, sent, run);
    }

    /** Others run between two attempts. */
    method HandleNext(address: Address, ghost todo: set<(Id, Attempt)>)
      requires Valid()
      modifies `rows, `run, `clock, `cancelled
      ensures Valid() && (old(cancelled) ==> cancelled)
      ensures clock >= old(clock) && (cancelled ==> old(cancelled) || Disturbed(old(clock)))
      ensures AddressFrame(old(rows), rows, address) && OnlySends(old(run), run) && Since(old(run), run)
      ensures todo == InProgressAttempts(old(rows), address) ==> todo == InProgressAttempts(rows, address)
    {
      Interfere();
      FrameKeepsInProgress(old(rows), rows, address);
      OnlySendsIsSince(old(run), run);
    }

    method Query(address: Address) returns (txs: seq<Tx>)
      requires Valid()
      modifies `clock
      ensures clock == old(clock) + 1 && txs == Found(Terms(), rows, old(clock), address)
    {
      txs := Found(Terms(), rows, clock, address);
      clock := clock + 1;
    }

    /** The attempt to send: the old one if and only if it lacked funds or the bump failed as a bump. */
    method AttemptForRebroadcast(etx: Tx) returns (failed: bool, attempt: Attempt, isNew: bool)
      requires fees.bumpMin >= 0
      modifies `clock
      ensures clock >= old(clock) && (failed ==> etx.attempts == [] || Disturbed(old(clock)))
      ensures failed <==> etx.attempts == []
                          || (etx.attempts[0].state != AttemptInsufficientFunds
                               && world(old(clock)).builder.FailsOtherwise?)
      ensures !failed ==>
                && attempt.state == AttemptInProgress
                && (isNew <==>
                      && etx.attempts[0].state != AttemptInsufficientFunds
                      && !CannotBump(Terms(), old(clock), etx.attempts[0]))
                && (if isNew then
                      && IsBumpOf(Terms(), old(clock), etx.attempts[0], attempt)
                      && forall a :: a in etx.attempts ==> a.id != attempt.id
                    else attempt == etx.attempts[0].(state := AttemptInProgress))
    {
      attempt, isNew := Attempt(0, 0, false, AttemptInProgress, []), false;
      if etx.attempts == [] {
        return true, attempt, false;
      }
      var previous := etx.attempts[0];
      if previous.state == AttemptInsufficientFunds {
        return false, previous.(state := AttemptInProgress), false;
      }
      var outcome := NewBumpTxAttempt(etx.attempts);
      match outcome {
        case BumpError => return false, previous.(state := AttemptInProgress), false;
        case OtherError => return true, attempt, false;
        case Replacement(bumped) => return false, bumped, true;
      }
    }

    /** Inserts a new attempt, or puts an old one back in progress. */
    method SaveInProgressAttempt(etx: Tx, attempt: Attempt, isNew: bool, ghost tick: nat)
      requires Valid() && etx.id in rows && rows[etx.id] == etx && PutOk(Terms(), rows, etx.id, attempt, isNew, tick)
      requires Clock(run) <= tick < clock
      modifies `rows, `run
      ensures Valid() && run == Then(old(run), PutInProgress(etx.id, attempt, isNew, tick), rows)
      ensures etx.id in rows && rows == old(rows)[etx.id := WithInProgress(etx, attempt, isNew)]
      ensures HasInProgress(Terms(), rows, etx.id, attempt) && Frame(old(rows), rows, {etx.id})
      ensures |rows[etx.id].attempts| == |etx.attempts| + if isNew then 1 else 0
      ensures forall a :: a in etx.attempts && a.id != attempt.id ==> a in rows[etx.id].attempts
      ensures Rely(old(rows), rows)
    {
      if isNew {
        EntersTable(etx.attempts, attempt);
      } else {
        EntersProgress(etx.attempts, etx.attempts[0]);
      }
      Update(PutInProgress(etx.id, attempt, isNew, tick), rows[etx.id := WithInProgress(etx, attempt, isNew)]);
    }

    /** What the two queries found then, merged, in order and cut to the limit. */
    ghost predicate WasListed(address: Address, at: Rows, etxs: seq<Tx>, since: nat)
      reads this
    {
      exists one, two :: since <= one < two < clock
        && IsRebroadcastList(Found(Terms(), at, one, address), Found(Terms(), at, two, address), maxInFlight, etxs)
    }

    /** In between, everything that was listed for this address was sent again, in order. */
    ghost predicate AllResent(address: Address, from: Run<Cause>, to: Run<Cause>, since: nat)
      reads this
    {
      exists asked, done, listed ::
        && Since(from, asked) && SentInOrder(asked, done, listed) && Since(done, to)
        && WasListed(address, asked.rows, listed, since)
    }

    lemma ResentInLonger(address: Address, earlier: Run<Cause>, from: Run<Cause>, to: Run<Cause>, later: Run<Cause>,
        since: nat)
      requires AllResent(address, from, to, since) && Since(earlier, from) && Since(to, later)
      ensures AllResent(address, earlier, later, since)
    {
      var asked, done, listed :| Since(from, asked) && SentInOrder(asked, done, listed) && Since(done, to)
                                 && WasListed(address, asked.rows, listed, since);
      SinceTransitive(earlier, from, asked);
      SinceTransitive(done, to, later);
    }

    /**
     Bumps or resends what needs it, once nothing of the address is in progress any more. Success without cancellation
     means that everything listed has been sent again and answered, in order, and nothing else.
     */
    method RebroadcastWhereNecessary(address: Address)
      returns (failed: bool, ghost asked: Run<Cause>, ghost listed: seq<Tx>)
      requires Valid() && address in enabled
      modifies `rows, `run, `clock, `cancelled
      ensures Valid() && (old(cancelled) ==> cancelled)
      ensures clock >= old(clock) && (cancelled ==> old(cancelled) || Disturbed(old(clock)))
      ensures failed ==> cancelled || Disturbed(old(clock)) || EverBlocked(Terms(), run, clock)
      ensures AddressFrame(old(rows), rows, address) && Since(old(run), run)
      ensures !failed && !cancelled ==> Quiet(rows, address) && OnlySends(old(run), asked)
      ensures !failed && !cancelled ==>
                WasListed(address, asked.rows, listed, old(clock)) && SentInOrder(asked, run, listed)
      ensures !failed && !cancelled ==> AllResent(address, old(run), run, old(clock))
    {
      asked, listed := run, [];
      failed := HandleAnyInProgressAttempts(address);
      OnlySendsIsSince(old(run), run);
      if failed {
        return true, asked, listed;
      }
      ghost var handled := rows;
      asked := run;
      failed, listed := RebroadcastQueried(address);
      SinceTransitive(old(run), asked, run);
      AddressFrameTransitive(old(rows), handled, rows, address);
      if !failed && !cancelled {
        OnlySendsIsSince(old(run), asked);
        assert Since(asked, run) && Since(run, run);
      }
    }

    /** What the two queries find, once nothing is in progress. */
    method RebroadcastQueried(address: Address) returns (failed: bool, ghost listed: seq<Tx>)
      requires Valid() && address in enabled && (cancelled || Quiet(rows, address))
      modifies `rows, `run, `clock, `cancelled
      ensures Valid() && (old(cancelled) ==> cancelled)
      ensures clock >= old(clock) && (cancelled ==> old(cancelled) || Disturbed(old(clock)))
      ensures failed ==> cancelled || Disturbed(old(clock)) || EverBlocked(Terms(), run, clock)
      ensures AddressFrame(old(rows), rows, address) && Since(old(run), run)
      ensures !failed && !cancelled ==> Quiet(rows, address)
      ensures !failed && !cancelled ==>
                WasListed(address, old(rows), listed, old(clock)) && SentInOrder(old(run), run, listed)
      ensures !old(cancelled) && world(old(clock)).store && world(old(clock) + 2).timeout ==>
                !failed && cancelled && run == old(run)
    {
      listed := [];
      var ok := StoreAnswers();
      if !ok {
        return true, listed;
      }
      ghost var one := clock;
      var insufficientFunds := Query(address);
      cancelled := cancelled || world(clock).timeout;
      ok := StoreAnswers();
      if cancelled {
        return false, listed;
      }
      if !ok {
        return true, listed;
      }
      ghost var two := clock;
      var bumps := Query(address);
      var etxs := FindTxsRequiringRebroadcast(insufficientFunds, bumps, maxInFlight);
      listed := etxs;
      assert one < two && IsRebroadcastList(Found(Terms(), rows, one, address), Found(Terms(), rows, two, address),
                                            maxInFlight, listed);
      failed := RebroadcastEach(address, etxs);
    }

    method RebroadcastEach(address: Address, etxs: seq<Tx>) returns (failed: bool)
      requires Valid() && address in enabled && Quiet(rows, address)
      requires Fetched(rows, address, etxs) && DistinctIds(etxs)
      modifies `rows, `run, `clock, `cancelled
      ensures Valid() && (old(cancelled) ==> cancelled)
      ensures clock >= old(clock) && (cancelled ==> old(cancelled) || Disturbed(old(clock)))
      ensures failed ==> cancelled || Disturbed(old(clock)) || EverBlocked(Terms(), run, clock)
      ensures AddressFrame(old(rows), rows, address) && Since(old(run), run)
      ensures !failed ==> Quiet(rows, address) && SentInOrder(old(run), run, etxs)
    {
      for i := 0 to |etxs|
        invariant Valid() && (old(cancelled) ==> cancelled)
        invariant AddressFrame(old(rows), rows, address) && Since(old(run), run)
        invariant clock >= old(clock) && (cancelled ==> old(cancelled) || Disturbed(old(clock)))
        invariant Quiet(rows, address) && SentInOrder(old(run), run, etxs[..i])
        invariant Fetched(rows, address, etxs[i..])
      {
        failed := RebroadcastNext(address, etxs, i, old(rows), old(run));
        if failed {
          return true;
        }
      }
      assert etxs[..|etxs|] == etxs;
      return false;
    }

    method RebroadcastNext(address: Address, etxs: seq<Tx>, i: nat, ghost start: Rows, ghost from: Run<Cause>)
      returns (failed: bool)
      requires Valid() && address in enabled && DistinctIds(etxs) && i < |etxs| && Fetched(rows, address, etxs[i..])
      requires Quiet(rows, address) && AddressFrame(start, rows, address) && Since(from, run)
      requires SentInOrder(from, run, etxs[..i])
      modifies `rows, `run, `clock, `cancelled
      ensures Valid() && (old(cancelled) ==> cancelled)
      ensures clock >= old(clock) && (cancelled ==> old(cancelled) || Disturbed(old(clock)))
      ensures failed ==> cancelled || Disturbed(old(clock)) || EverBlocked(Terms(), run, clock)
      ensures AddressFrame(start, rows, address) && Since(from, run)
      ensures !failed ==> Quiet(rows, address) && Fetched(rows, address, etxs[i + 1..])
      ensures !failed ==> SentInOrder(from, run, etxs[..i + 1])
    {
      var etx := etxs[i];
      assert etx == etxs[i..][0];
      failed := RebroadcastOne(etx);
      SinceTransitive(from, old(run), run);
      FrameIsAddressFrame(old(rows), rows, etx.id, address);
      AddressFrameTransitive(start, old(rows), rows, address);
      if !failed {
        FrameKeepsOtherTxs(old(rows), rows, address, etxs, i);
        assert etxs[..i + 1][..i] == etxs[..i];
      }
    }

    method RebroadcastOne(etx: Tx) returns (failed: bool)
      requires Valid() && etx.id in rows && rows[etx.id] == etx && Visible(etx) && etx.from in enabled
      requires Attempts.NoneInProgress(etx.attempts) && etx.state == Unconfirmed
      modifies `rows, `run, `clock, `cancelled
      ensures Valid() && (old(cancelled) ==> cancelled)
      ensures failed ==> cancelled || Disturbed(old(clock)) || EverBlocked(Terms(), run, clock)
      ensures clock >= old(clock) && (cancelled ==> old(cancelled) || Disturbed(old(clock)))
      ensures Frame(old(rows), rows, {etx.id}) && Since(old(run), run)
      ensures !failed ==> etx.id in rows && Attempts.NoneInProgress(rows[etx.id].attempts)
      ensures !failed ==> SentAgain(old(run), run, etx.id)
    {
      var attempt, isNew;
      ghost var tick := clock;
      failed, attempt, isNew := AttemptForRebroadcast(etx);
      var ok := StoreAnswers();
      if failed || !ok {
        return true;
      }
      failed := SendAgain(etx, attempt, isNew, tick);
    }

    method SendAgain(etx: Tx, attempt: Attempt, isNew: bool, ghost tick: nat) returns (failed: bool)
      requires Valid() && etx.id in rows && rows[etx.id] == etx && PutOk(Terms(), rows, etx.id, attempt, isNew, tick)
      requires Clock(run) <= tick < clock
      modifies `rows, `run, `clock, `cancelled
      ensures Valid() && (old(cancelled) ==> cancelled)
      ensures failed ==> cancelled || Disturbed(old(clock)) || EverBlocked(Terms(), run, clock)
      ensures clock >= old(clock) && (cancelled ==> old(cancelled) || Disturbed(old(clock)))
      ensures Frame(old(rows), rows, {etx.id}) && Since(old(run), run)
      ensures !failed ==> etx.id in rows && Attempts.NoneInProgress(rows[etx.id].attempts)
      ensures !failed ==> SentAgain(old(run), run, etx.id)
    {
      SaveInProgressAttempt(etx, attempt, isNew, tick);
      ghost var saved, before := run, rows;
      failed := HandleInProgressAttempt(etx.id, attempt);
      OnlySendsIsSince(saved, run);
      SinceTransitive(old(run), saved, run);
      FrameTransitive(old(rows), before, rows, etx.id);
    }

    /** Refused by the store unless the transaction is confirmed and its highest-priced attempt broadcast. */
    method MarkForRebroadcast(etx: Tx, head: Head) returns (result: MarkResult)
      requires Valid() && etx.id in rows && rows[etx.id] == etx && NeedsMark(etx, head)
      requires etx.from in enabled ==> Attempts.NoneInProgress(etx.attempts)
      modifies `rows, `run, `clock
      ensures Valid()
      ensures clock >= old(clock) && (result.StoreFailed? ==> Disturbed(old(clock)))
      ensures if result.Done?
              then CanMark(etx) && rows == old(rows)[etx.id := Rebroadcast(etx)]
                  && run == Then(old(run), Marked(etx.id, head), rows)
              else rows == old(rows) && run == old(run)
      ensures result.CannotMark? <==>
                etx.attempts == [] || etx.state != Confirmed || etx.attempts[0].state != AttemptBroadcast
      ensures result.CannotMark? ==> result.id == etx.id
    {
      if !CanMark(etx) {
        return CannotMark(etx.id);
      }
      var ok := world(clock).store;
      clock := clock + 1;
      if !ok {
        return StoreFailed;
      }
      Update(Marked(etx.id, head), rows[etx.id := Rebroadcast(etx)]);
      return Done;
    }

    /**
     The marking loop. It is only ever run when nothing of an enabled address is in progress, so the attempt it
     puts back in progress is its transaction's only one.
     */
    method MarkReorgedTransactions(head: Head) returns (result: MarkResult)
      requires Valid() && forall address :: address in enabled ==> Quiet(rows, address)
      modifies `rows, `run, `clock, `cancelled
      ensures Valid() && OnlyMarks(old(run), run) && (old(cancelled) ==> cancelled)
      ensures clock >= old(clock) && (cancelled ==> old(cancelled) || Disturbed(old(clock)))
      ensures result.StoreFailed? ==> Disturbed(old(clock))
      ensures forall id :: id in old(rows) && Visible(old(rows)[id]) ==>
                id in rows && (rows[id] == old(rows)[id] || rows[id] == AfterMarking(old(rows)[id], head))
      ensures result.Done? ==> AllMarked(old(rows), rows, head)
      ensures result.CannotMark? ==>
                result.id in old(rows) && NeedsMark(old(rows)[result.id], head) && !CanMark(old(rows)[result.id])
    {
      ghost var left;
      result, left := MarkInRange(head);
    }

    /** The loop: `left` are those it did not come to. */
    method MarkInRange(head: Head) returns (result: MarkResult, ghost left: set<Id>)
      requires Valid() && forall address :: address in enabled ==> Quiet(rows, address)
      modifies `rows, `run, `clock, `cancelled
      ensures Valid() && OnlyMarks(old(run), run) && (old(cancelled) ==> cancelled)
      ensures clock >= old(clock) && (cancelled ==> old(cancelled) || Disturbed(old(clock)))
      ensures result.StoreFailed? ==> Disturbed(old(clock))
      ensures MarkedSoFar(old(rows), rows, left, head) && (result.Done? ==> left == {})
      ensures result.CannotMark? ==>
                result.id in left && NeedsMark(old(rows)[result.id], head) && !CanMark(old(rows)[result.id])
    {
      var fetched := rows;
      var todo := set id | id in fetched && InHeadRange(fetched[id], head);
      while todo != {}
        invariant Valid() && MarkedSoFar(fetched, rows, todo, head) && OnlyMarks(old(run), run)
        invariant old(cancelled) ==> cancelled
        invariant clock >= old(clock) && (cancelled ==> old(cancelled) || Disturbed(old(clock)))
        invariant forall address :: address in enabled ==> Quiet(fetched, address)
        decreases |todo|
      {
        var id := PickAny(todo);
        result := MarkIfNeeded(fetched, todo, head, id, old(run));
        if !result.Done? {
          return result, todo;
        }
        todo := todo - {id};
      }
      return Done, {};
    }

    /** One of them, after others had the floor. */
    method MarkIfNeeded(fetched: Rows, ghost todo: set<Id>, head: Head, id: Id, ghost from: Run<Cause>)
      returns (result: MarkResult)
      requires Valid() && MarkedSoFar(fetched, rows, todo, head) && OnlyMarks(from, run) && id in todo
      requires forall address :: address in enabled ==> Quiet(fetched, address)
      modifies `rows, `run, `clock, `cancelled
      ensures Valid() && OnlyMarks(from, run) && (old(cancelled) ==> cancelled)
      ensures clock >= old(clock) && (cancelled ==> old(cancelled) || Disturbed(old(clock)))
      ensures result.StoreFailed? ==> Disturbed(old(clock))
      ensures MarkedSoFar(fetched, rows, if result.Done? then todo - {id} else todo, head)
      ensures result.CannotMark? ==> result.id == id && NeedsMark(fetched[id], head) && !CanMark(fetched[id])
    {
      OthersBeforeMark(fetched, todo, head, from);
      var etx := fetched[id];
      var found := HasReceiptInLongestChain(etx, head);
      if found {
        FoundOne(fetched, rows, todo, head, id);
        return Done;
      }
      result := MarkOne(fetched, todo, head, id, from);
    }

    method MarkOne(fetched: Rows, ghost todo: set<Id>, head: Head, id: Id, ghost from: Run<Cause>)
      returns (result: MarkResult)
      requires Valid() && MarkedSoFar(fetched, rows, todo, head) && OnlyMarks(from, run) && id in todo
      requires NeedsMark(fetched[id], head)
      requires fetched[id].from in enabled ==> Attempts.NoneInProgress(fetched[id].attempts)
      modifies `rows, `run, `clock
      ensures Valid() && OnlyMarks(from, run)
      ensures clock >= old(clock) && (result.StoreFailed? ==> Disturbed(old(clock)))
      ensures MarkedSoFar(fetched, rows, if result.Done? then todo - {id} else todo, head)
      ensures result.CannotMark? ==> result.id == id && !CanMark(fetched[id])
    {
      MarkedOne(fetched, rows, todo, head, id);
      result := MarkForRebroadcast(fetched[id], head);
    }

    method OthersBeforeMark(ghost fetched: Rows, ghost todo: set<Id>, ghost head: Head, ghost from: Run<Cause>)
      requires Valid() && MarkedSoFar(fetched, rows, todo, head) && OnlyMarks(from, run)
      modifies `rows, `run, `clock, `cancelled
      ensures Valid() && MarkedSoFar(fetched, rows, todo, head) && OnlyMarks(from, run)
      ensures old(cancelled) ==> cancelled
      ensures clock == old(clock) + 1 && (cancelled ==> old(cancelled) || Disturbed(old(clock)))
    {
      Interfere();
      OthersKeepMarked(fetched, old(rows), rows, todo, head);
    }

    /**
     Re-org protection, then a first attempt to send what it put back. Success without cancellation means that every
     transaction that had lost its place in the chain was put back and, if its address is enabled, sent.
     */
    method EnsureConfirmedTransactionsInLongestChain(head: Head) returns (failed: bool, ghost marked: Run<Cause>)
      requires Valid()
      requires cancelled || forall address :: address in enabled ==> Quiet(rows, address)
      modifies this
      ensures Valid() && (old(cancelled) ==> cancelled) && Since(old(run), run)
      ensures clock >= old(clock) && (cancelled ==> old(cancelled) || Disturbed(old(clock)))
      ensures failed ==> cancelled || Disturbed(old(clock)) || EverBlocked(Terms(), run, clock)
                         || exists id :: id in old(rows) && NeedsMark(old(rows)[id], head) && !CanMark(old(rows)[id])
      ensures nConsecutiveBlocksChainTooShort ==
              if ChainLength(head) < finalityDepth then old(nConsecutiveBlocksChainTooShort) + 1 else 0
      ensures !failed && !cancelled ==> forall address :: address in enabled ==> Quiet(rows, address)
      ensures !failed && !cancelled ==> ReorgHandled(Terms(), old(run), marked, run, head)
    {
      marked := run;
      if ChainLength(head) < finalityDepth {
        nConsecutiveBlocksChainTooShort := nConsecutiveBlocksChainTooShort + 1;
      } else {
        nConsecutiveBlocksChainTooShort := 0;
      }
      var ok := StoreAnswers();
      if !ok {
        return true, marked;
      }
      var result := MarkReorgedTransactions(head);
      marked := run;
      OnlySendsIsSince(old(run), run);
      if !result.Done? {
        return true, marked;
      }
      failed := SendMarked();
      OnlySendsIsSince(marked, run);
      SinceTransitive(old(run), marked, run);
      if !failed && !cancelled {
        MarkedWereSent(old(run), marked, head);
      }
    }

    /** The attempts of all enabled addresses, one address after the other. */
    method SendMarked() returns (failed: bool)
      requires Valid()
      modifies `rows, `run, `clock, `cancelled
      ensures Valid() && (old(cancelled) ==> cancelled) && OnlySends(old(run), run)
      ensures clock >= old(clock) && (cancelled ==> old(cancelled) || Disturbed(old(clock)))
      ensures failed ==> cancelled || Disturbed(old(clock)) || EverBlocked(Terms(), run, clock)
      ensures !failed && !cancelled ==> forall address :: address in enabled ==> Quiet(rows, address)
    {
      failed := false;
      for i := 0 to |enabled|
        invariant Valid() && (old(cancelled) ==> cancelled) && OnlySends(old(run), run)
        invariant clock >= old(clock) && (cancelled ==> old(cancelled) || Disturbed(old(clock)))
        invariant failed ==> cancelled || Disturbed(old(clock)) || EverBlocked(Terms(), run, clock)
        invariant !failed && !cancelled ==> forall k :: 0 <= k < i ==> Quiet(rows, enabled[k])
      {
        ghost var before, from, fine, until := rows, run, !failed && !cancelled, clock;
        ghost var blocked := EverBlocked(Terms(), run, clock);
        var oneFailed := HandleAnyInProgressAttempts(enabled[i]);
        OnlySendsIsSince(from, run);
        if blocked {
          StaysBlocked(Terms(), from, run, until, clock);
        }
        OnlySendsTransitive(old(run), from, run);
        if fine {
          OthersStayQuiet(before, rows, enabled, i);
        }
        failed := failed || oneFailed;
      }
    }

    lemma MarkedWereSent(found: Run<Cause>, marked: Run<Cause>, head: Head)
      requires Valid() && RunOk(Terms(), marked) && OnlyMarks(found, marked) && OnlySends(marked, run)
      requires AllMarked(found.rows, marked.rows, head)
      requires forall address :: address in enabled ==> Quiet(rows, address)
      ensures ReorgHandled(Terms(), found, marked, run, head)
    {
      forall id | id in found.rows && NeedsMark(found.rows[id], head) && found.rows[id].from in enabled
        ensures WasSent(marked, run, id)
      {
        StaysVisible(Terms(), marked, run, id);
        MarkedWasSent(Terms(), found, marked, run, head, id);
      }
    }

    /** CheckConfirmedMissingReceipt and CheckForReceipts. */
    method CheckReceipts() returns (failed: bool)
      requires Valid()
      modifies `rows, `run, `clock
      ensures Valid() && Rely(old(rows), rows)
      ensures clock >= old(clock) && (failed ==> cancelled || Disturbed(old(clock)))
      ensures run == Then(old(run), Receipts(old(clock)), rows)
    {
      clock := clock + 1;
      Update(Receipts(clock - 1), WithReceipts(Terms(), rows, clock - 1));
      var ok := StoreAnswers();
      failed := !ok;
    }

    /**
     The steps of one head, in order; each error ends it. `found` is what re-org protection found, after the receipts
     and the rebroadcasts, and `marked` what its marking loop left.
     */
    method ProcessHead(head: Head) returns (failed: bool, ghost found: Run<Cause>, ghost marked: Run<Cause>)
      requires Valid()
      modifies this
      ensures Valid() && Since(old(run), run)
      ensures failed || cancelled ==>
                || Disturbed(old(clock)) || EverBlocked(Terms(), run, clock)
                || exists id :: id in found.rows && NeedsMark(found.rows[id], head) && !CanMark(found.rows[id])
      ensures !failed && !cancelled ==> forall address :: address in enabled ==> Quiet(rows, address)
      ensures !failed && !cancelled ==>
                && Since(old(run), found) && ReceiptsFirst(old(run), found)
                && ReorgHandled(Terms(), found, marked, run, head)
                && forall address :: address in enabled ==>
                     Quiet(found.rows, address) && AllResent(address, old(run), found, old(clock))
    {
      cancelled := false;
      found, marked := run, run;
      failed := BeforeReorgs();
      found := run;
      if failed {
        return true, found, marked;
      }
      failed, marked := EnsureConfirmedTransactionsInLongestChain(head);
      SinceTransitive(old(run), found, run);
    }

    /** The receipts were looked for before anything else. */
    ghost predicate ReceiptsFirst(from: Run<Cause>, to: Run<Cause>) {
      exists looked: Run<Cause> ::
        looked.Then? && looked.before == from && looked.cause.Receipts? && Since(looked, to)
    }

    /** The receipts and the rebroadcasts. */
    method BeforeReorgs() returns (failed: bool)
      requires Valid()
      modifies `rows, `run, `clock, `cancelled
      ensures Valid() && Since(old(run), run) && (old(cancelled) ==> cancelled)
      ensures clock >= old(clock) && (cancelled ==> old(cancelled) || Disturbed(old(clock)))
      ensures failed ==> cancelled || Disturbed(old(clock)) || EverBlocked(Terms(), run, clock)
      ensures !failed && !cancelled ==>
                forall address :: address in enabled ==>
                  Quiet(rows, address) && AllResent(address, old(run), run, old(clock))
      ensures !failed ==> ReceiptsFirst(old(run), run)
    {
      var ok := StoreAnswers();
      if !ok {
        return true;
      }
      failed := CheckReceipts();
      if failed {
        return true;
      }
      ghost var checked, until := run, clock;
      failed := RebroadcastAll();
      SinceTransitive(old(run), checked, run);
      if !failed && !cancelled {
        forall address | address in enabled ensures AllResent(address, old(run), run, old(clock)) {
          ResentSinceEarlier(address, checked, run, old(clock), until);
          ResentInLonger(address, old(run), checked, run, run, old(clock));
        }
      }
    }

    lemma ResentSoFar(start: Run<Cause>, from: Run<Cause>, i: nat, since: nat, until: nat)
      requires i < |enabled| && Since(start, from) && Since(from, run) && since <= until
      requires forall k :: 0 <= k < i ==> AllResent(enabled[k], start, from, since)
      requires AllResent(enabled[i], from, run, until)
      ensures forall k :: 0 <= k <= i ==> AllResent(enabled[k], start, run, since)
    {
      forall k | 0 <= k < i ensures AllResent(enabled[k], start, run, since) {
        ResentInLonger(enabled[k], start, start, from, run, since);
      }
      ResentInLonger(enabled[i], start, from, run, run, until);
      ResentSinceEarlier(enabled[i], start, run, since, until);
    }

    lemma ResentSinceEarlier(address: Address, from: Run<Cause>, to: Run<Cause>, since: nat, until: nat)
      requires AllResent(address, from, to, until) && since <= until
      ensures AllResent(address, from, to, since)
    {
      var asked, done, listed :| Since(from, asked) && SentInOrder(asked, done, listed) && Since(done, to)
                                 && WasListed(address, asked.rows, listed, until);
      assert WasListed(address, asked.rows, listed, since);
    }

    method RebroadcastAll() returns (failed: bool)
      requires Valid()
      modifies `rows, `run, `clock, `cancelled
      ensures Valid() && Since(old(run), run) && (old(cancelled) ==> cancelled)
      ensures clock >= old(clock) && (cancelled ==> old(cancelled) || Disturbed(old(clock)))
      ensures failed ==> cancelled || Disturbed(old(clock)) || EverBlocked(Terms(), run, clock)
      ensures !failed && !cancelled ==> forall address :: address in enabled ==> Quiet(rows, address)
      ensures !failed && !cancelled ==>
                forall address :: address in enabled ==> AllResent(address, old(run), run, old(clock))
    {
      failed := false;
      for i := 0 to |enabled|
        invariant Valid() && Since(old(run), run) && (old(cancelled) ==> cancelled)
        invariant clock >= old(clock) && (cancelled ==> old(cancelled) || Disturbed(old(clock)))
        invariant failed ==> cancelled || Disturbed(old(clock)) || EverBlocked(Terms(), run, clock)
        invariant !failed && !cancelled ==> forall k :: 0 <= k < i ==> Quiet(rows, enabled[k])
        invariant !failed && !cancelled ==> forall k :: 0 <= k < i ==> AllResent(enabled[k], old(run), run, old(clock))
      {
        ghost var before, from, fine, until := rows, run, !failed && !cancelled, clock;
        ghost var blocked := EverBlocked(Terms(), run, clock);
        var oneFailed;
        ghost var asked, listed;
        oneFailed, asked, listed := RebroadcastWhereNecessary(enabled[i]);
        SinceTransitive(old(run), from, run);
        if blocked {
          StaysBlocked(Terms(), from, run, until, clock);
        }
        if fine {
          OthersStayQuiet(before, rows, enabled, i);
          if !oneFailed && !cancelled {
            ResentSoFar(old(run), from, i, old(clock), until);
          }
        }
        failed := failed || oneFailed;
      }
    }
  }

  lemma HandoverFrame(before: Rows, after: Rows)
    requires Handover(before, after)
    ensures Frame(before, after, {})
  {
  }
}

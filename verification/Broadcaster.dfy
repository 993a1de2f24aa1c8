/**
 The Broadcaster of one address (common/txmgr/broadcaster.go).

 A goroutine per address takes unstarted transactions, gives each the next sequence, sends it and classifies the answer.
 Whatever it learns from outside is what `world` has for that moment. Whenever it waits for the outside (`Interfere`),
 the Confirmer, the reaper, callers that create or prune transactions, and the goroutines of other addresses may change
 the rows in any way `Rely` allows. All that has happened to the rows is in the ghost `run`.
 */
module Broadcaster {
  import opened BroadcasterRun
  import opened Fee
  import opened Interference
  import opened Options
  import opened Runs
  import opened SetFacts
  import opened TxStore
  import SequenceLife

  datatype RoomCheck = Room | Throttled | Stop(retryable: bool)

  class Broadcaster {
    const enabled: bool
    const maxInFlight: nat
    const fees: FeeConfig
    const countsInProgress: bool
    const world: World

    var rows: Rows
    var next: Option<int>    // this address's entry of nextSequenceMap
    var clock: nat           // the moment to come

    ghost var run: Run<Cause>

    /** A new process finds only the rows. */
    constructor (rows: Rows, world: World, enabled: bool, maxInFlight: nat, fees: FeeConfig, countsInProgress: bool)
      requires StoreValid(rows) && fees.bumpMin >= 0
      ensures Valid() && next == None && this.rows == rows && run == Begin(rows)
      ensures this.world == world && this.enabled == enabled && this.maxInFlight == maxInFlight
      ensures this.fees == fees && this.countsInProgress == countsInProgress
    {
      this.rows, this.world, this.enabled, this.maxInFlight, this.fees, this.countsInProgress :=
        rows, world, enabled, maxInFlight, fees, countsInProgress;
      next, clock := None, 0;
      run := Begin(rows);
    }

    function Terms(): Setting {
      Setting(world, enabled, maxInFlight, fees, countsInProgress)
    }

    /** The rows and the entry are what the run makes of them, and the run follows the rules. */
    ghost predicate Valid()
      reads this
    {
      && fees.bumpMin >= 0
      && RunOk(Terms(), run) && run.rows == rows && Next(run) == next
      && StoreValid(rows) && Clock(run) <= clock
    }

    /** So the numbering is exact in every state. */
    lemma ValidIsConsistent()
      requires Valid()
      ensures Consistent(rows, Standing(run), HistoryOf(run), Owners(run))
      ensures next.Some? ==> Standing(run) == next
    {
      RunIsConsistent(Terms(), run);
    }

    /** And every start kept within the cap. */
    lemma CapWasKept(start: Run<Cause>)
      requires Valid() && maxInFlight > 0 && Since(start, run) && start.Then? && start.cause.Started?
      ensures |InFlight(start.rows)| <= maxInFlight + PutBack(Terms(), start.before)
    {
      CapIsKept(Terms(), run, start);
    }

    ghost function Answer(): Code
      reads this
    {
      LastCode(Terms(), run)
    }

    ghost function Seen(): Option<int>
      reads this
    {
      LastPending(Terms(), run)
    }

    /** Since then an attempt of this transaction has been sent, and the node has answered. */
    ghost predicate SentSince(etx: Tx, since: nat)
      reads this
    {
      var send := LastSend(run);
      send.Sending? && send.id == etx.id && since <= send.answered < clock
    }

    /** The last store operation failed. */
    ghost predicate StoreRefused()
      reads this
    {
      clock > 0 && !world(clock - 1).store
    }

    /** At some moment since then the store refused, the node did not accept a send or did not know the sequence. */
    ghost predicate Disturbed(since: nat)
      reads this
    {
      exists tick :: since <= tick < clock && !Smooth(world(tick))
    }

    /** A step that leaves the entry as it is. */
    method Update(ghost cause: Cause, after: Rows)
      requires Valid() && !cause.Loaded? && !cause.HandedOver? && StepOk(Terms(), run, cause, after)
      requires Tick(cause).Some? ==> Tick(cause).value < clock
      modifies `rows, `run
      ensures Valid() && rows == after && run == Then(old(run), cause, after)
      ensures !cause.Others? ==> Handover(old(rows), rows)
    {
      StepKeepsStore(Terms(), run, cause, after);
      if !cause.Others? {
        RunIsConsistent(Terms(), run);
        OwnStepIsHandover(Terms(), run, cause, after);
      }
      rows := after;
      run := Then(run, cause, after);
    }

    /** Others have the floor. */
    method Interfere()
      requires Valid()
      modifies `rows, `run, `clock
      ensures Valid() && Rely(old(rows), rows) && clock == old(clock) + 1
      ensures run == old(run) || run == Then(old(run), Others(old(clock)), rows)
    {
      var after := world(clock).others(rows);
      clock := clock + 1;
      if Rely(rows, after) {
        Update(Others(clock - 1), after);
      }
    }

    method StoreAnswers() returns (ok: bool)
      modifies `clock
      ensures ok == world(old(clock)).store && clock == old(clock) + 1
    {
      ok := world(clock).store;
      clock := clock + 1;
    }

    method FindLatestSequence() returns (latest: Option<int>)
      requires Valid()
      modifies `clock
      ensures clock == old(clock) + 1
      ensures latest.Some? <==> world(old(clock)).store && SomeCounted(rows, countsInProgress)
      ensures latest.Some? ==> IsLatest(rows, countsInProgress, latest.value)
    {
      var ok := StoreAnswers();
      if !ok || !SomeCounted(rows, countsInProgress) {
        return None;
      }
      LatestExists(rows, countsInProgress);
      var id :| id in rows && IsLatestRow(rows, countsInProgress, id);
      latest := rows[id].sequence;
    }

    /** One more than the latest in the rows, or, when the store fails or counts none, what the chain says. */
    method GetSequenceForAddr() returns (sequence: Option<int>)
      requires Valid() && enabled
      modifies `clock
      ensures LoadOk(Terms(), rows, sequence, old(clock))
      ensures clock > old(clock) && (sequence.None? ==> Disturbed(old(clock)))
    {
      var latest := FindLatestSequence();
      if latest.Some? {
        return Some(latest.value + 1);
      }
      sequence := world(clock).pending;
      clock := clock + 1;
    }

    /** Loads the map entry, for an enabled address only. */
    method LoadEntry()
      requires Valid()
      modifies `next, `run, `clock
      ensures Valid() && run == Then(old(run), Loaded(next, old(clock)), rows)
      ensures clock > old(clock) && (next.None? ==> !enabled || Disturbed(old(clock)))
    {
      ghost var tick := clock;
      var loaded := None;
      if enabled {
        loaded := GetSequenceForAddr();
      } else {
        clock := clock + 1;
      }
      next := loaded;
      run := Then(run, Loaded(loaded, tick), rows);
    }

    /** The map entry, loaded now if it is missing and the address is enabled. */
    method GetNextSequence() returns (sequence: Option<int>)
      requires Valid()
      modifies `next, `run, `clock
      ensures Valid() && sequence == next
      ensures clock >= old(clock) && (next.None? ==> !enabled || Disturbed(old(clock)))
      ensures if old(next).None? && enabled then run == Then(old(run), Loaded(next, old(clock)), rows)
              else next == old(next) && run == old(run) && clock == old(clock)
    {
      if next.None? && enabled {
        LoadEntry();
      }
      sequence := next;
    }

    /** The transaction is still in progress under its own sequence and nothing was broadcast. */
    ghost predicate StillInProgress(etx: Tx, from: Run<Cause>)
      reads this
    {
      && etx.id in rows && rows[etx.id].state == InProgress && rows[etx.id].sequence == etx.sequence
      && (Next(from).Some? ==> next == Next(from) && HistoryOf(run) == HistoryOf(from))
    }

    /** The transaction was handed to the Confirmer, and the entry moved past it by one. */
    ghost predicate WasBroadcast(etx: Tx, from: Run<Cause>)
      reads this
    {
      && etx.id in rows && rows[etx.id].state == Unconfirmed && rows[etx.id].sequence == etx.sequence
      && etx.sequence.Some? && next.Some?
      && LastSend(run).Sending? && rows[etx.id].attempts == [LastSend(run).attempt.(state := AttemptBroadcast)]
      && (if Next(from).Some?
          then && next == Some(Next(from).value + 1)
               && HistoryOf(run) == AfterBroadcast(HistoryOf(from), etx.sequence.value, Next(from).value)
          else HistoryOf(run).sent == [etx.sequence.value])
    }

    /** The transaction gave its sequence back. */
    ghost predicate WasFatal(etx: Tx, from: Run<Cause>)
      reads this
    {
      && etx.id in rows && rows[etx.id].state == FatalError && rows[etx.id].sequence == None
      && rows[etx.id].attempts == [] && rows[etx.id].from == etx.from
      && next == Next(from) && HistoryOf(run) == HistoryOf(from)
    }

    /** Sends the attempt. */
    method SendTransactionReturnCode(etx: Tx, attempt: Attempt) returns (code: Code)
      requires Valid() && Holds(rows, etx, attempt)
      modifies `rows, `run, `clock
      ensures Valid() && Holds(rows, etx, attempt) && clock >= old(clock) && Since(old(run), run)
      ensures Next(run) == Next(old(run)) && HistoryOf(run) == HistoryOf(old(run))
      ensures IsLastSend(run, etx, attempt) && SentSince(etx, old(clock)) && Seen().None? && code == Answer()
    {
      Interfere();
      code := world(clock).code;
      clock := clock + 1;
      Update(Sent(etx.id, attempt, clock - 1), rows);
    }

    /** Assumes success: the rows first, then the map entry, which is raised from its own value. */
    method HandToConfirmer(etx: Tx, attempt: Attempt) returns (failed: bool)
      requires Valid() && Holds(rows, etx, attempt) && Taken(Terms(), run, etx, attempt)
      modifies `rows, `next, `run, `clock
      ensures Valid() && Since(old(run), run)
      ensures clock >= old(clock) && (failed ==> !enabled || Disturbed(old(clock)))
      ensures failed <==> next.None? || StoreRefused()
      ensures failed ==> rows == old(rows) && (old(next).Some? ==> run == old(run)) && StillInProgress(etx, old(run))
      ensures !failed ==> rows == MarkBroadcast(old(rows), etx, attempt) && NoneInProgress(rows)
      ensures !failed ==> WasBroadcast(etx, old(run))
      ensures LastSend(run) == LastSend(old(run))
      ensures Handover(old(rows), rows)
    {
      var sequence := GetNextSequence();
      if sequence.None? {
        return true;
      }
      ghost var loaded := run;
      failed := UpdateTxAttemptInProgressToBroadcast(etx, attempt, sequence.value);
      SinceTransitive(old(run), loaded, run);
      if !failed {
        SentIsBroadcast(etx, attempt, old(run), loaded);
      }
    }

    /** The rows, then the entry. */
    method UpdateTxAttemptInProgressToBroadcast(etx: Tx, attempt: Attempt, sequence: int) returns (failed: bool)
      requires Valid() && Holds(rows, etx, attempt) && Taken(Terms(), run, etx, attempt)
      requires next == Some(sequence)
      modifies `rows, `next, `run, `clock
      ensures Valid() && Handover(old(rows), rows)
      ensures clock == old(clock) + 1
      ensures failed <==> StoreRefused()
      ensures failed ==> rows == old(rows) && run == old(run)
      ensures !failed ==> rows == MarkBroadcast(old(rows), etx, attempt) && NoneInProgress(rows)
      ensures !failed ==> run == Then(old(run), HandedOver(etx, attempt), rows) && next == Some(sequence + 1)
    {
      var ok := StoreAnswers();
      if !ok {
        return true;
      }
      BroadcastKeepsStore(rows, etx, attempt);
      rows := MarkBroadcast(rows, etx, attempt);
      run := Then(run, HandedOver(etx, attempt), rows);
      next := Some(sequence + 1);
      failed := false;
    }

    /** Whether or not the entry had to be loaded first. */
    lemma SentIsBroadcast(etx: Tx, attempt: Attempt, from: Run<Cause>, loaded: Run<Cause>)
      requires Valid() && StoreValid(loaded.rows) && Holds(loaded.rows, etx, attempt) && Next(loaded).Some?
      requires rows == MarkBroadcast(loaded.rows, etx, attempt)
          && run == Then(loaded, HandedOver(etx, attempt), rows)
      requires loaded == from
          || (Next(from).None? && exists tick :: loaded == Then(from, Loaded(Next(loaded), tick), from.rows))
      ensures WasBroadcast(etx, from)
    {
    }

    /** Resumes the pipeline with the error if there is one waiting, then drops the attempts and the sequence. */
    method SaveFatallyErroredTransaction(etx: Tx) returns (failed: bool)
      requires Valid()
      requires etx.id in rows ==> rows[etx.id].state == etx.state && rows[etx.id].from == etx.from
      requires etx.state in {InProgress, Unstarted} ==> Rejected(Terms(), run, etx)
      modifies `rows, `run, `clock
      ensures Valid()
      ensures clock >= old(clock)
      ensures failed <==> etx.state !in {InProgress, Unstarted} || StoreRefused() || etx.id !in old(rows)
      ensures failed ==> rows == old(rows) && run == old(run)
      ensures !failed ==> etx.id in old(rows) && rows == MarkFatal(old(rows), etx)
      ensures !failed ==> run == Then(old(run), GaveUp(etx), rows)
      ensures !failed && etx.state == InProgress ==> NoneInProgress(rows)
      ensures NoneInProgress(old(rows)) ==> NoneInProgress(rows)
      ensures Handover(old(rows), rows)
    {
      if etx.state != InProgress && etx.state != Unstarted {
        return true;
      }
      var resumed := StoreAnswers();
      if !resumed {
        return true;
      }
      failed := UpdateTxFatalError(etx);
    }

    method UpdateTxFatalError(etx: Tx) returns (failed: bool)
      requires Valid() && etx.state in {InProgress, Unstarted} && Rejected(Terms(), run, etx)
      requires etx.id in rows ==> rows[etx.id].state == etx.state && rows[etx.id].from == etx.from
      modifies `rows, `run, `clock
      ensures Valid() && clock == old(clock) + 1
      ensures failed <==> StoreRefused() || etx.id !in old(rows)
      ensures failed ==> rows == old(rows) && run == old(run)
      ensures !failed ==> etx.id in old(rows) && rows == MarkFatal(old(rows), etx)
      ensures !failed ==> run == Then(old(run), GaveUp(etx), rows)
      ensures etx.state == InProgress || NoneInProgress(old(rows)) ==> failed || NoneInProgress(rows)
      ensures Handover(old(rows), rows)
    {
      var ok := StoreAnswers();
      if !ok || etx.id !in rows {
        return true;
      }
      GiveUpKeepsStore(rows, etx);
      Update(GaveUp(etx), MarkFatal(rows, etx));
      failed := false;
    }

    method GiveUp(etx: Tx, attempt: Attempt) returns (failed: bool)
      requires Valid() && Holds(rows, etx, attempt) && Answer() == Fatal && IsLastSend(run, etx, attempt)
      modifies `rows, `run, `clock
      ensures Valid() && Since(old(run), run)
      ensures clock >= old(clock)
      ensures Settled(etx, old(run), failed, true, 0) && LastSend(run) == LastSend(old(run))
    {
      failed := SaveFatallyErroredTransaction(etx);
    }

    /** No bump of this attempt succeeds with the price the node asks for just then. */
    ghost predicate NoBump(attempt: Attempt)
      reads this
    {
      clock > 0 && NoBumpAt(clock - 1, attempt)
    }

    predicate NoBumpAt(tick: nat, attempt: Attempt) {
      !CalculateBumpedFee(fees, world(tick).current, attempt.fee).Bumped?
    }

    /** The estimator may fail or ask for any price; the replacement is priced by `CalculateBumpedFee`. */
    method NewBumpTxAttempt(attempt: Attempt) returns (replacement: Option<Attempt>, retryable: bool)
      requires fees.bumpMin >= 0
      modifies `clock
      ensures replacement.None? ==> StoreRefused() || NoBump(attempt)
      ensures clock > old(clock)
      ensures replacement.None? ==>
                retryable == (!world(old(clock)).store || NoBumpAt(old(clock), attempt) || world(clock - 1).retryable)
      ensures replacement.None? ==> retryable || StoreRefused()
      ensures replacement.Some? ==>
                && CalculateBumpedFee(fees, world(old(clock)).current, attempt.fee) == Bumped(replacement.value.fee)
                && replacement.value.state == AttemptInProgress && replacement.value.dynamicFee == attempt.dynamicFee
    {
      var moment := world(clock);
      clock := clock + 1;
      var bump := CalculateBumpedFee(fees, moment.current, attempt.fee);
      if !moment.store || !bump.Bumped? {
        return None, true;
      }
      var built := StoreAnswers();
      retryable := world(clock - 1).retryable;
      replacement := if built then Some(Attempt(moment.id, bump.price, attempt.dynamicFee, AttemptInProgress, []))
          else None;
    }

    /** How far a price is below the limit. */
    function FeeGap(fee: int): nat {
      if fee <= fees.Limit() then fees.Limit() - fee else 0
    }

    /** The transaction that failed the check is gone. */
    ghost predicate Vanished()
      reads this
    {
      var check := LastCheck(run);
      check.Check? && !world(check.tick).store && check.id !in rows
    }

    /** The node's last answer is one after which the transaction stays in progress. */
    ghost predicate Unsent(since: Run<Cause>, refetches: nat, retryable: bool)
      reads this
    {
      var send := LastSend(run);
      && send.Sending? && send.id in rows
      && match Answer()
         case Retryable | InsufficientFunds => retryable
         case Unsupported => !retryable
         case Underpriced => NoBump(send.attempt) && retryable
         case FeeOutOfValidRange =>
           if send.attempt.dynamicFee then !retryable else Estimates(since, run) >= refetches && retryable
         case Unknown | ExceedsMaxFee | Other =>
           send.asked.Some? && !Accepted(Answer(), Seen(), rows[send.id].sequence) && retryable
         case _ => false
    }

    /** What an error can come from, and whether the caller is to try again. */
    ghost predicate Excused(since: Run<Cause>, refetches: nat, retryable: bool)
      reads this
    {
      StoreRefused() || ((next.None? || Vanished()) && retryable) || Unsent(since, refetches, retryable)
    }

    /** What a call on the transaction in progress leaves behind, by the node's last answer. */
    ghost predicate Settled(etx: Tx, from: Run<Cause>, failed: bool, retryable: bool, refetches: nat)
      reads this
    {
      if failed then
        && StillInProgress(etx, from)
        && Excused(from, refetches, retryable)
      else
        && NoneInProgress(rows)
        && (if Answer() == Fatal then WasFatal(etx, from) else WasBroadcast(etx, from))
        && (Answer() == Fatal || Accepted(Answer(), Seen(), etx.sequence))
    }

    lemma ExcusedSince(earlier: Run<Cause>, since: Run<Cause>, refetches: nat, retryable: bool)
      requires Excused(since, refetches, retryable) && Since(earlier, since) && Since(since, run)
      ensures Excused(earlier, refetches, retryable)
    {
      EstimatesAddUp(earlier, since, run);
    }

    lemma SettledFrom(etx: Tx, from: Run<Cause>, later: Run<Cause>, failed: bool, retryable: bool, refetches: nat)
      requires Next(later) == Next(from) && HistoryOf(later) == HistoryOf(from)
      requires Settled(etx, later, failed, retryable, refetches) && Since(from, later) && Since(later, run)
      ensures Settled(etx, from, failed, retryable, refetches)
    {
      if failed {
        ExcusedSince(from, later, refetches, retryable);
      }
    }

    /** Whatever the outcome, the history has only grown. */
    lemma SettledExtends(etx: Tx, from: Run<Cause>, failed: bool, retryable: bool, refetches: nat)
      requires Settled(etx, from, failed, retryable, refetches) && Next(from).Some?
      ensures Extends(from)
      ensures !failed ==> WasBroadcast(etx, from) || WasFatal(etx, from)
    {
    }

    lemma SettledIsHandled(etx: Tx, held: Tx, from: Run<Cause>, failed: bool, retryable: bool, refetches: nat)
      requires Settled(held, from, failed, retryable, refetches) && Next(from).Some?
      requires held.id == etx.id && held.sequence == etx.sequence && held.from == etx.from
      ensures Handled(etx, from, failed)
      ensures !failed ==> WasBroadcast(etx, from) || WasFatal(etx, from)
    {
    }

    /**
     Sends the transaction in progress and acts on the answer. The recursion through the two `TryAgain` methods ends
     because every bump closes part of the fee gap; a new estimate can reopen it, and the node may ask for one
     `refetches` times.
     */
    method HandleInProgressTx(etx: Tx, attempt: Attempt, refetches: nat) returns (failed: bool, retryable: bool)
      requires Valid()
      requires etx.state == InProgress ==> Holds(rows, etx, attempt)
      modifies `rows, `next, `run, `clock
      ensures Valid() && Since(old(run), run)
      ensures clock >= old(clock) && (etx.state == InProgress && failed ==> !enabled || Disturbed(old(clock)))
      ensures etx.state != InProgress ==> failed && !retryable && run == old(run)
      ensures etx.state == InProgress ==>
                Settled(etx, old(run), failed, retryable, refetches) && SentSince(etx, old(clock))
      decreases refetches, FeeGap(attempt.fee), 3
    {
      if etx.state != InProgress {
        return true, false;
      }
      var code := SendTransactionReturnCode(etx, attempt);
      ghost var sent := run;
      failed, retryable := ActOnAnswer(etx, attempt, code, refetches, old(clock));
      SettledFrom(etx, old(run), sent, failed, retryable, refetches);
      SinceTransitive(old(run), sent, run);
    }

    method ActOnAnswer(etx: Tx, attempt: Attempt, code: Code, refetches: nat, ghost since: nat)
      returns (failed: bool, retryable: bool)
      requires Valid() && Holds(rows, etx, attempt) && IsLastSend(run, etx, attempt)
      requires code == Answer() && Seen().None? && SentSince(etx, since)
      modifies `rows, `next, `run, `clock
      ensures Valid() && Since(old(run), run)
      ensures clock >= old(clock) && (failed ==> !enabled || Disturbed(since))
      ensures Settled(etx, old(run), failed, retryable, refetches) && SentSince(etx, since)
      decreases refetches, FeeGap(attempt.fee), 2
    {
      match code {
        case Fatal =>
          failed := GiveUp(etx, attempt);
          retryable := true;
        case TransactionAlreadyKnown | Successful =>
          failed := HandToConfirmer(etx, attempt);
          retryable := true;
        case Underpriced =>
          failed, retryable := TryAgainBumpingGas(etx, attempt, refetches);
        case InsufficientFunds | Retryable =>
          failed, retryable := true, true;
        case FeeOutOfValidRange =>
          failed, retryable := true, true;
          if refetches > 0 || attempt.dynamicFee {
            failed, retryable := TryAgainWithNewEstimation(etx, attempt, refetches);
          }
        case Unsupported =>
          failed, retryable := true, false;
        case ExceedsMaxFee | Unknown | Other =>
          failed := CompareWithPendingSequence(etx, attempt);
          retryable := true;
      }
    }

    /** After an unknown error: the node may still have accepted the transaction, which its pending sequence shows. */
    method CompareWithPendingSequence(etx: Tx, attempt: Attempt) returns (failed: bool)
      requires Valid() && Holds(rows, etx, attempt) && Answer() in {Unknown, ExceedsMaxFee, Other}
      requires IsLastSend(run, etx, attempt)
      modifies `rows, `next, `run, `clock
      ensures Valid() && Since(old(run), run)
      ensures clock >= old(clock)
      ensures Settled(etx, old(run), failed, true, 0)
      ensures LastSend(run) == LastSend(old(run)).(asked := Some(old(clock)))
      ensures failed <==> Seen().None? || Seen().value <= etx.sequence.value || next.None? || StoreRefused()
    {
      var pending := PendingSequenceAt(etx, attempt);
      ghost var asked := run;
      if pending.None? || pending.value <= etx.sequence.value {
        return true;
      }
      failed := HandToConfirmer(etx, attempt);
      SettledFrom(etx, old(run), asked, failed, true, 0);
      SinceTransitive(old(run), asked, run);
    }

    method PendingSequenceAt(etx: Tx, attempt: Attempt) returns (pending: Option<int>)
      requires Valid() && Holds(rows, etx, attempt) && IsLastSend(run, etx, attempt)
      modifies `rows, `run, `clock
      ensures Valid() && Holds(rows, etx, attempt) && clock == old(clock) + 1
      ensures run == Then(old(run), Asked(old(clock)), rows) && rows == old(rows)
      ensures LastSend(run) == LastSend(old(run)).(asked := Some(old(clock))) && Answer() == old(Answer())
      ensures pending == Seen()
    {
      pending := world(clock).pending;
      clock := clock + 1;
      Update(Asked(clock - 1), rows);
    }

    /** The run goes on with this attempt, priced at that moment, in place of the other. */
    ghost predicate WentOnWith(from: Run<Cause>, etx: Tx, attempt: Attempt, replacement: Attempt, isBump: bool,
        tick: nat)
      reads this
    {
      var replaced := Replaced(etx, attempt, replacement, isBump, tick);
      Since(Then(from, replaced, MarkReplaced(from.rows, etx, replacement)), run)
    }

    /** Nothing is done without a bump; with one it replaces the attempt first, and lies closer to the limit. */
    method TryAgainBumpingGas(etx: Tx, attempt: Attempt, refetches: nat) returns (failed: bool, retryable: bool)
      requires Valid() && Holds(rows, etx, attempt) && Answer() == Underpriced && IsLastSend(run, etx, attempt)
      modifies `rows, `next, `run, `clock
      ensures Valid() && Since(old(run), run)
      ensures clock >= old(clock)
      ensures Settled(etx, old(run), failed, retryable, refetches) && (run == old(run) || SentSince(etx, old(clock)))
      ensures || (failed && run == old(run) && (StoreRefused() || NoBump(attempt)))
              || exists bumped ::
                   && WentOnWith(old(run), etx, attempt, bumped, true, old(clock))
                   && CalculateBumpedFee(fees, world(old(clock)).current, attempt.fee) == Bumped(bumped.fee)
                   && FeeGap(bumped.fee) < FeeGap(attempt.fee)
      decreases refetches, FeeGap(attempt.fee), 1
    {
      var replacement;
      ghost var tick := clock;
      replacement, retryable := NewBumpTxAttempt(attempt);
      if replacement.None? {
        return true, retryable;
      }
      SuccessIsBump(fees, world(tick).current, attempt.fee);
      BumpRises(fees, attempt.fee, replacement.value.fee);
      failed, retryable := SaveTryAgainAttempt(etx, attempt, replacement.value, true, refetches, tick);
    }

    /** The estimator returns any price at all. */
    method TryAgainWithNewEstimation(etx: Tx, attempt: Attempt, refetches: nat) returns (failed: bool, retryable: bool)
      requires Valid() && Holds(rows, etx, attempt) && Answer() == FeeOutOfValidRange
      requires refetches > 0 || attempt.dynamicFee
      requires IsLastSend(run, etx, attempt)
      modifies `rows, `next, `run, `clock
      ensures Valid() && Since(old(run), run)
      ensures clock >= old(clock)
      ensures Settled(etx, old(run), failed, retryable, refetches) && (run == old(run) || SentSince(etx, old(clock)))
      ensures attempt.dynamicFee ==> failed && !retryable && run == old(run)
      ensures !attempt.dynamicFee ==>
                || (failed && run == old(run) && StoreRefused())
                || exists estimated ::
                     && WentOnWith(old(run), etx, attempt, estimated, false, old(clock))
                     && estimated.fee == world(old(clock)).fee
      decreases refetches, FeeGap(attempt.fee), 1
    {
      if attempt.dynamicFee {
        return true, false;
      }
      var moment := world(clock);
      var built := StoreAnswers();
      if !built {
        return true, moment.retryable;
      }
      var replacement := Attempt(moment.id, moment.fee, attempt.dynamicFee, AttemptInProgress, []);
      failed, retryable := SaveTryAgainAttempt(etx, attempt, replacement, false, refetches - 1, old(clock));
    }

    method SaveTryAgainAttempt(etx: Tx, attempt: Attempt, replacement: Attempt, isBump: bool, refetches: nat,
        ghost tick: nat)
      returns (failed: bool, retryable: bool)
      requires Valid() && ReplaceOk(Terms(), rows, etx, attempt, replacement, isBump, tick)
      requires Clock(run) <= tick < clock
      requires IsLastSend(run, etx, attempt) && Answer() == if isBump then Underpriced else FeeOutOfValidRange
      modifies `rows, `next, `run, `clock
      ensures Valid() && Since(old(run), run)
      ensures clock >= old(clock)
      ensures Settled(etx, old(run), failed, retryable, if isBump then refetches else refetches + 1)
      ensures run == old(run) || SentSince(etx, old(clock))
      ensures || (failed && run == old(run) && StoreRefused() && retryable)
              || WentOnWith(old(run), etx, attempt, replacement, isBump, tick)
      decreases refetches, FeeGap(replacement.fee), 4
    {
      failed := SaveReplacementInProgressAttempt(etx, attempt, replacement, isBump, tick);
      if failed {
        return true, true;
      }
      ghost var replaced := run;
      assert Next(replaced) == Next(old(run)) && HistoryOf(replaced) == HistoryOf(old(run));
      failed, retryable := HandleInProgressTx(etx, replacement, refetches);
      SettledAfterReplace(etx, old(run), replaced, failed, retryable, refetches, isBump);
      SinceTransitive(old(run), replaced, run);
    }

    lemma SettledAfterReplace(etx: Tx, from: Run<Cause>, replaced: Run<Cause>, failed: bool, retryable: bool,
        refetches: nat, isBump: bool)
      requires replaced.Then? && replaced.before == from && replaced.cause.Replaced? && replaced.cause.isBump == isBump
      requires Settled(etx, replaced, failed, retryable, refetches) && Since(replaced, run)
      ensures Settled(etx, from, failed, retryable, if isBump then refetches else refetches + 1)
    {
      SinceIsDeeper(from, from);
      assert replaced != from by {
        assert Depth(replaced) == Depth(from) + 1;
      }
      EstimatesAddUp(from, replaced, run);
      assert Estimates(from, replaced) == if isBump then 0 else 1;
    }

    method SaveReplacementInProgressAttempt(etx: Tx, attempt: Attempt, replacement: Attempt, ghost isBump: bool,
        ghost tick: nat)
      returns (failed: bool)
      requires Valid() && ReplaceOk(Terms(), rows, etx, attempt, replacement, isBump, tick)
      requires Clock(run) <= tick < clock
      requires IsLastSend(run, etx, attempt) && Answer() == if isBump then Underpriced else FeeOutOfValidRange
      modifies `rows, `run, `clock
      ensures Valid() && Handover(old(rows), rows)
      ensures clock >= old(clock)
      ensures failed <==> StoreRefused()
      ensures failed ==> run == old(run)
      ensures !failed ==> Holds(rows, etx, replacement) && rows == MarkReplaced(old(rows), etx, replacement)
      ensures !failed ==> run == Then(old(run), Replaced(etx, attempt, replacement, isBump, tick), rows)
    {
      var ok := StoreAnswers();
      if !ok {
        return true;
      }
      Update(Replaced(etx, attempt, replacement, isBump, tick), MarkReplaced(rows, etx, replacement));
      failed := false;
    }

    /** Finishes the job of the last run, if it left one. */
    method HandleAnyInProgressTx(refetches: nat) returns (failed: bool, retryable: bool)
      requires Valid()
      modifies `rows, `next, `run, `clock
      ensures Valid() && Since(old(run), run)
      ensures clock >= old(clock) && (failed ==> !enabled || Disturbed(old(clock)))
      ensures failed ==> Excused(old(run), refetches, retryable)
      ensures !failed ==> NoneInProgress(rows)
      ensures forall id :: id in old(rows) && old(rows)[id].state == InProgress ==>
                if failed then StillInProgress(old(rows)[id], old(run))
                else WasBroadcast(old(rows)[id], old(run)) || WasFatal(old(rows)[id], old(run))
      ensures forall id :: id in old(rows) && old(rows)[id].state == InProgress && !failed ==>
                SentSince(old(rows)[id], old(clock))
      ensures NoneInProgress(old(rows)) ==> next == old(next) && HistoryOf(run) == HistoryOf(old(run))
      ensures old(next).Some? ==> Extends(old(run))
      ensures failed && NoneInProgress(old(rows)) ==> retryable
    {
      Interfere();
      ghost var waited := run;
      assert Next(waited) == Next(old(run)) && HistoryOf(waited) == HistoryOf(old(run));
      var ok := StoreAnswers();
      if !ok {
        return true, true;
      }
      failed, retryable := false, false;
      if id :| id in rows && rows[id].state == InProgress {
        failed, retryable := FinishInProgress(id, refetches, old(run));
        SinceTransitive(old(run), waited, run);
      }
    }

    method FinishInProgress(id: Id, refetches: nat, ghost from: Run<Cause>) returns (failed: bool, retryable: bool)
      requires Valid() && id in rows && rows[id].state == InProgress
      requires Next(run) == Next(from) && HistoryOf(run) == HistoryOf(from) && Since(from, run)
      modifies `rows, `next, `run, `clock
      ensures Valid() && Since(old(run), run)
      ensures clock >= old(clock) && (failed ==> !enabled || Disturbed(old(clock)))
      ensures failed ==> Excused(from, refetches, retryable)
      ensures !failed ==> NoneInProgress(rows)
      ensures if failed then StillInProgress(old(rows)[id], from)
              else WasBroadcast(old(rows)[id], from) || WasFatal(old(rows)[id], from)
      ensures SentSince(old(rows)[id], old(clock))
      ensures old(next).Some? ==> Extends(from)
    {
      ghost var etx, waited := rows[id], run;
      failed, retryable := HandleInProgressTx(rows[id], rows[id].attempts[0], refetches);
      SettledFrom(etx, from, waited, failed, retryable, refetches);
      if old(next).Some? {
        SettledExtends(etx, from, failed, retryable, refetches);
      }
    }

    /** The history has only grown, one sequence per step of the entry. */
    ghost predicate Extends(from: Run<Cause>)
      reads this
    {
      var before, now := HistoryOf(from), HistoryOf(run);
      && next.Some? && Next(from).Some? && next.value >= Next(from).value
      && now.base == before.base && now.leftover == before.leftover && now.above == before.above
      && now.loaded == before.loaded
      && before.sent <= now.sent && next.value - Next(from).value == |now.sent| - |before.sent|
    }

    /** The next transaction to send, given the map entry as its sequence; `None` when the queue is empty. */
    method NextUnstartedTransactionWithSequence() returns (failed: bool, etx: Option<Tx>)
      requires Valid() && NoneInProgress(rows)
      modifies `next, `run, `clock
      ensures Valid() && Since(old(run), run)
      ensures clock >= old(clock) && (failed ==> !enabled || Disturbed(old(clock)))
      ensures failed ==> StoreRefused() || next.None?
      ensures !failed && etx.None? ==> forall id :: id in rows ==> rows[id].state != Unstarted
      ensures etx.Some? ==>
                && !failed && next.Some? && etx.value.sequence == next
                && etx.value.id in rows && rows[etx.value.id].state == Unstarted
                && etx.value == rows[etx.value.id].(sequence := next)
      ensures old(next).Some? ==> next == old(next) && run == old(run)
      ensures HasRoom(Terms(), old(run)) ==> HasRoom(Terms(), run)
    {
      var ok := StoreAnswers();
      if !ok {
        return true, None;
      }
      if forall id | id in rows :: rows[id].state != Unstarted {
        return false, None;
      }
      var id :| id in rows && rows[id].state == Unstarted;
      var sequence := GetNextSequence();
      if sequence.None? {
        return true, None;
      }
      return false, Some(rows[id].(sequence := sequence));
    }

    /** Counts what is in flight; at the limit, waits and looks again. */
    method CheckRoom() returns (room: RoomCheck, ghost counted: Run<Cause>)
      requires Valid() && NoneInProgress(rows)
      modifies `rows, `run, `clock
      ensures Valid() && Since(old(run), run) && NoneInProgress(rows)
      ensures clock >= old(clock) && (room.Stop? ==> Disturbed(old(clock)))
      ensures Next(run) == Next(old(run)) && HistoryOf(run) == HistoryOf(old(run))
      ensures Since(old(run), counted) && Since(counted, run)
      ensures room.Room? ==> run == counted && HasRoom(Terms(), run)
      ensures room.Stop? ==> StoreRefused()
      ensures room.Throttled? ==> 0 < maxInFlight <= |UnconfirmedIds(counted.rows)|
      ensures room.Stop? && !room.retryable ==> 0 < maxInFlight <= |UnconfirmedIds(counted.rows)|
    {
      Interfere();
      counted := run;
      room := Room;
      if maxInFlight > 0 {
        var answered := StoreAnswers();
        if !answered {
          return Stop(true), counted;
        }
        if |UnconfirmedIds(rows)| >= maxInFlight {
          room := WaitForRoom();
          SinceTransitive(old(run), counted, run);
        }
      }
    }

    method WaitForRoom() returns (room: RoomCheck)
      requires Valid() && NoneInProgress(rows)
      modifies `rows, `run, `clock
      ensures Valid() && Since(old(run), run) && NoneInProgress(rows) && clock >= old(clock)
      ensures Next(run) == Next(old(run)) && HistoryOf(run) == HistoryOf(old(run))
      ensures room.Throttled? || (room.Stop? && StoreRefused() && Disturbed(old(clock)))
      ensures room.Stop? ==> (room.retryable <==> !world(old(clock)).store)
    {
      var answered := StoreAnswers();
      if !answered {
        return Stop(true);
      }
      Interfere();
      var waited := StoreAnswers();
      return if waited then Throttled else Stop(false);
    }

    /**
     What becomes of an unstarted transaction: broadcast with the entry as its sequence, given up or removed by others
     without consuming it, or, after an error, still unstarted or in progress and nothing consumed either.
     */
    ghost predicate Handled(etx: Tx, from: Run<Cause>, failed: bool)
      reads this
    {
      if failed then
        && next == Next(from) && HistoryOf(run) == HistoryOf(from)
        && (etx.id in rows ==> rows[etx.id].state == etx.state || StillInProgress(etx, from))
      else
        || WasBroadcast(etx, from)
        || WasFatal(etx, from)
        || (etx.id !in rows && next == Next(from) && HistoryOf(run) == HistoryOf(from))
    }

    /** An attempt as the builder makes it at that moment. */
    function Built(tick: nat): Attempt {
      var moment := world(tick);
      Attempt(moment.id, moment.fee, moment.dynamicFee, AttemptInProgress, [])
    }

    /** The checker was asked about this attempt. */
    ghost predicate AskedAbout(id: Id, attempt: Attempt, from: Run<Cause>, tick: nat)
      reads this
    {
      exists before :: Since(from, before) && Since(Then(before, Checked(id, attempt, tick), before.rows), run)
    }

    /** A transaction that failed the check is given up or, when that fails, left as it was; it is never started. */
    ghost predicate Refused(etx: Tx, from: Run<Cause>, failed: bool)
      reads this
    {
      && next == Next(from) && HistoryOf(run) == HistoryOf(from)
      && if failed then etx.id in rows ==> rows[etx.id].state == Unstarted else WasFatal(etx, from)
    }

    /**
     Builds an attempt, runs the transmit checker and sends. A transaction that fails the check, was removed meanwhile
     or is rejected for good consumes no sequence; one that is broadcast consumes exactly the entry.
     */
    method HandleUnstartedTx(etx: Tx, refetches: nat)
      returns (failed: bool, retryable: bool, ghost checkedAt: Option<nat>)
      requires Valid() && NoneInProgress(rows) && HasRoom(Terms(), run)
      requires next.Some? && etx.sequence == next
      requires etx.id in rows && rows[etx.id].state == etx.state && rows[etx.id].from == etx.from
      modifies `rows, `next, `run, `clock
      ensures Valid() && Since(old(run), run)
      ensures clock >= old(clock) && (etx.state == Unstarted && failed ==> !enabled || Disturbed(old(clock)))
      ensures etx.state == Unstarted && failed ==> Excused(old(run), refetches, retryable)
      ensures !failed ==> NoneInProgress(rows)
      ensures etx.state != Unstarted ==> failed && run == old(run)
      ensures Handled(etx, old(run), failed)
      ensures etx.state != Unstarted ==> !retryable
      ensures etx.state == Unstarted && checkedAt.None? ==>
                retryable == (!world(old(clock)).store && world(old(clock)).retryable)
      ensures if checkedAt.None? then failed && run == old(run)
              else && old(clock) <= checkedAt.value < clock
                   && AskedAbout(etx.id, Built(old(clock)), old(run), checkedAt.value)
                   && (!world(checkedAt.value).store ==> Refused(etx, old(run), failed))
    {
      checkedAt := None;
      if etx.state != Unstarted {
        return true, false, None;
      }
      var moment := world(clock);
      var built := StoreAnswers();
      if !built {
        return true, moment.retryable, None;
      }
      var checkable := StoreAnswers();
      if !checkable {
        return true, false, None;
      }
      ghost var tick;
      failed, retryable, tick := CheckAndStart(etx, Built(clock - 2), refetches);
      checkedAt := Some(tick);
    }

    method CheckAndStart(etx: Tx, attempt: Attempt, refetches: nat)
      returns (failed: bool, retryable: bool, ghost checkedAt: nat)
      requires Valid() && NoneInProgress(rows) && HasRoom(Terms(), run) && attempt.state == AttemptInProgress
      requires next.Some? && etx.sequence == next && etx.state == Unstarted
      requires etx.id in rows && rows[etx.id].state == etx.state && rows[etx.id].from == etx.from
      modifies `rows, `next, `run, `clock
      ensures Valid() && Since(old(run), run)
      ensures clock >= old(clock) && (failed ==> !enabled || Disturbed(old(clock)))
      ensures failed ==> Excused(old(run), refetches, retryable)
      ensures !failed ==> NoneInProgress(rows)
      ensures Handled(etx, old(run), failed)
      ensures AskedAbout(etx.id, attempt, old(run), checkedAt)
      ensures old(clock) <= checkedAt < clock && (!world(checkedAt).store ==> Refused(etx, old(run), failed))
    {
      Interfere();
      ghost var waited := run;
      assert Next(waited) == Next(old(run)) && HistoryOf(waited) == HistoryOf(old(run));
      checkedAt := clock;
      failed, retryable := AfterCheck(etx, attempt, refetches);
      SinceTransitive(old(run), waited, run);
      if failed {
        ExcusedSince(old(run), waited, refetches, retryable);
      }
    }

    /** The checker is asked, and what it says is heeded. */
    method AfterCheck(etx: Tx, attempt: Attempt, refetches: nat) returns (failed: bool, retryable: bool)
      requires Valid() && NoneInProgress(rows) && HasRoom(Terms(), run) && attempt.state == AttemptInProgress
      requires next.Some? && etx.sequence == next && etx.state == Unstarted
      requires etx.id in rows ==> rows[etx.id].state == etx.state && rows[etx.id].from == etx.from
      modifies `rows, `next, `run, `clock
      ensures Valid() && Since(old(run), run)
      ensures clock > old(clock) && (failed ==> !enabled || Disturbed(old(clock)))
      ensures failed ==> Excused(old(run), refetches, retryable)
      ensures !failed ==> NoneInProgress(rows)
      ensures Handled(etx, old(run), failed)
      ensures Since(Then(old(run), Checked(etx.id, attempt, old(clock)), old(rows)), run)
      ensures !world(old(clock)).store ==> Refused(etx, old(run), failed)
      ensures !world(old(clock)).store && failed ==> retryable
    {
      var passed := CheckTransmit(etx, attempt);
      ghost var checked := run;
      if !passed {
        failed := SaveFatallyErroredTransaction(etx);
        return failed, true;
      }
      if etx.id !in rows {
        return false, false;
      }
      failed, retryable := StartTx(etx, attempt, refetches);
      SinceTransitive(old(run), checked, run);
      if failed {
        ExcusedSince(old(run), checked, refetches, retryable);
      }
    }

    method CheckTransmit(etx: Tx, attempt: Attempt) returns (passed: bool)
      requires Valid() && HasRoom(Terms(), run)
      modifies `rows, `run, `clock
      ensures Valid() && HasRoom(Terms(), run) && rows == old(rows) && clock == old(clock) + 1
      ensures run == Then(old(run), Checked(etx.id, attempt, old(clock)), rows)
      ensures Next(run) == Next(old(run)) && HistoryOf(run) == HistoryOf(old(run))
      ensures passed == world(old(clock)).store
      ensures if passed then Passed(Terms(), run, etx, attempt)
              else etx.state == Unstarted ==> Rejected(Terms(), run, etx)
    {
      passed := world(clock).store;
      clock := clock + 1;
      Update(Checked(etx.id, attempt, clock - 1), rows);
    }

    method UpdateTxUnstartedToInProgress(etx: Tx, attempt: Attempt) returns (failed: bool)
      requires Valid() && StartOk(rows, next, etx, attempt)
      requires HasRoom(Terms(), run) && Passed(Terms(), run, etx, attempt)
      modifies `rows, `run, `clock
      ensures Valid() && Handover(old(rows), rows)
      ensures clock == old(clock) + 1
      ensures failed <==> StoreRefused()
      ensures failed ==> run == old(run)
      ensures !failed ==> rows == MarkInProgress(old(rows), etx, next.value, attempt)
      ensures !failed ==>
          Holds(rows, etx.(state := InProgress), attempt) && run == Then(old(run), Started(etx, attempt), rows)
      ensures UnconfirmedIds(rows) == UnconfirmedIds(old(rows))
    {
      var ok := StoreAnswers();
      if !ok {
        return true;
      }
      Update(Started(etx, attempt), MarkInProgress(rows, etx, etx.sequence.value, attempt));
      failed := false;
    }

    /** The row goes in progress with the entry as its sequence, and is sent. */
    method StartTx(etx: Tx, attempt: Attempt, refetches: nat)
      returns (failed: bool, retryable: bool)
      requires Valid() && StartOk(rows, next, etx, attempt) && etx.state == Unstarted
      requires HasRoom(Terms(), run) && Passed(Terms(), run, etx, attempt)
      modifies `rows, `next, `run, `clock
      ensures Valid() && Since(old(run), run)
      ensures clock >= old(clock) && (failed ==> !enabled || Disturbed(old(clock)))
      ensures failed ==> Excused(old(run), refetches, retryable)
      ensures !failed ==> NoneInProgress(rows)
      ensures Handled(etx, old(run), failed)
      ensures !failed ==> WasBroadcast(etx, old(run)) || WasFatal(etx, old(run))
      ensures failed && run == old(run) ==> retryable
    {
      failed := UpdateTxUnstartedToInProgress(etx, attempt);
      if failed {
        return true, true;
      }
      ghost var started := run;
      assert Next(started) == Next(old(run)) && HistoryOf(started) == HistoryOf(old(run));
      var held := etx.(state := InProgress, attempts := [attempt]);
      failed, retryable := HandleInProgressTx(held, attempt, refetches);
      SettledFrom(held, old(run), started, failed, retryable, refetches);
      SettledIsHandled(etx, held, old(run), failed, retryable, refetches);
      SinceTransitive(old(run), started, run);
    }

    /**
     First the transaction left in progress, then one unstarted transaction after another, while there is room in
     flight. The source loops until the queue is empty; here any number of rounds is followed, and `running` says that
     the last of them did not end the call.
     */
    method ProcessUnstartedTxs(rounds: nat, refetches: nat)
      returns (failed: bool, retryable: bool, running: bool, ghost states: seq<Run<Cause>>)
      requires Valid()
      modifies this
      ensures Valid() && Since(old(run), run)
      ensures clock >= old(clock) && (failed ==> !enabled || Disturbed(old(clock)))
      ensures failed ==> Excused(old(run), refetches, retryable)
      ensures !failed ==> NoneInProgress(rows)
      ensures old(next).Some? ==> Extends(old(run))
      ensures !failed && !running ==> forall id :: id in rows ==> rows[id].state != Unstarted
      ensures Rounds(Terms(), states) && |states| <= rounds + 1
      ensures running ==> !failed && |states| == rounds + 1 && states[rounds] == run && Since(old(run), states[0])
    {
      running, states := false, [];
      failed, retryable := HandleAnyInProgressTx(refetches);
      if failed {
        return;
      }
      states := [run];
      for round := 0 to rounds
        invariant Valid() && NoneInProgress(rows) && Since(old(run), run) && clock >= old(clock)
        invariant old(next).Some? ==> Extends(old(run))
        invariant Rounds(Terms(), states) && |states| == round + 1 && states[round] == run && Since(old(run), states[0])
      {
        var waited, ended;
        ghost var from := run;
        failed, retryable, waited, ended := Round(refetches, old(run));
        if failed || ended {
          return failed, retryable, false, states;
        }
        OneMoreRound(Terms(), states, run);
        states := states + [run];
      }
      return false, false, true, states;
    }

    /** One round: there is no room for more, or one more transaction is handled. */
    method Round(refetches: nat, ghost from: Run<Cause>)
      returns (failed: bool, retryable: bool, waited: bool, ended: bool)
      requires Valid() && NoneInProgress(rows) && Since(from, run)
      requires Next(from).Some? ==> Extends(from)
      modifies this
      ensures Valid() && Since(old(run), run) && Since(from, run)
      ensures clock >= old(clock) && (failed ==> !enabled || Disturbed(old(clock)))
      ensures failed ==> Excused(from, refetches, retryable)
      ensures Next(from).Some? ==> Extends(from)
      ensures !failed ==> NoneInProgress(rows)
      ensures !failed && ended ==> forall id :: id in rows ==> rows[id].state != Unstarted
      ensures !failed && !ended ==> if waited then Waited(Terms(), old(run), run) else TookOne(old(run), run)
    {
      waited, ended := false, false;
      var room;
      ghost var counted;
      room, counted := CheckRoom();
      SinceTransitive(from, old(run), run);
      if room.Stop? {
        return true, room.retryable, false, false;
      }
      if room.Throttled? {
        return false, false, true, false;
      }
      ghost var looked := run;
      failed, retryable, ended := TakeOne(refetches, from);
      SinceTransitive(old(run), looked, run);
      if !failed && !ended {
        TookOneSince(old(run), looked, run);
      }
    }

    lemma TookOneSince(earlier: Run<Cause>, from: Run<Cause>, to: Run<Cause>)
      requires Since(earlier, from) && TookOne(from, to)
      ensures TookOne(earlier, to)
    {
      var picked, id :| Since(from, picked) && Since(picked, to) && WasHandled(picked, to, id);
      SinceTransitive(earlier, from, picked);
    }

    /** Takes the next unstarted transaction, if there is one. */
    method TakeOne(refetches: nat, ghost from: Run<Cause>) returns (failed: bool, retryable: bool, ended: bool)
      requires Valid() && NoneInProgress(rows) && HasRoom(Terms(), run) && Since(from, run)
      requires Next(from).Some? ==> Extends(from)
      modifies this
      ensures Valid() && Since(old(run), run) && Since(from, run)
      ensures clock >= old(clock) && (failed ==> !enabled || Disturbed(old(clock)))
      ensures failed ==> Excused(from, refetches, retryable)
      ensures Next(from).Some? ==> Extends(from)
      ensures !failed ==> NoneInProgress(rows)
      ensures !failed && ended ==> forall id :: id in rows ==> rows[id].state != Unstarted
      ensures !failed && !ended ==> TookOne(old(run), run)
    {
      var etx;
      failed, etx := NextUnstartedTransactionWithSequence();
      ghost var picked := run;
      SinceTransitive(from, old(run), run);
      if failed || etx.None? {
        return failed, true, true;
      }
      ended := false;
      ghost var checkedAt;
      failed, retryable, checkedAt := HandleUnstartedTx(etx.value, refetches);
      SinceTransitive(old(run), picked, run);
      SinceTransitive(from, picked, run);
      if failed {
        ExcusedSince(from, picked, refetches, retryable);
      } else {
        assert WasHandled(picked, run, etx.value.id);
      }
    }

    /** Starts over, after a crash, a reset or a change of keys: only the rows survive. */
    method StartInternal()
      requires Valid()
      modifies `next, `run, `clock
      ensures Valid() && run == Then(old(run), Loaded(next, old(clock)), rows)
      ensures clock >= old(clock)
      ensures enabled && Standing(old(run)).Some? && HistoryOf(old(run)).above ==>
                && ((next.Some? && SequenceLife.GoesOn(old(run), next.value)) <==>
                     SequenceLife.CanGoOn(Terms(), old(run), old(clock)))
                && ((next.Some? && SequenceLife.Skips(old(run), next.value)) <==>
                     SequenceLife.WillSkip(Terms(), old(run), old(clock)))
    {
      RunIsConsistent(Terms(), run);
      LoadEntry();
      if enabled && Standing(old(run)).Some? && HistoryOf(old(run)).above {
        SequenceLife.ReloadValue(Terms(), old(run), next, old(clock));
      }
    }

    /**
     A restart that goes on with the numbering and finds a started transaction. It is finished under its own number; if
     it was counted, the entry is one ahead of that for good, and if not, not.
     */
    method Resume(refetches: nat) returns (failed: bool, retryable: bool)
      requires Valid() && enabled
      modifies this
      ensures Valid() && Since(old(run), run)
      ensures clock >= old(clock) && (failed ==> !enabled || Disturbed(old(clock)))
      ensures failed ==> Excused(old(run), refetches, retryable)
      ensures Standing(old(run)).Some? && HistoryOf(old(run)).above && Pending(old(rows)) == Standing(old(run))
              && SequenceLife.CanGoOn(Terms(), old(run), old(clock)) && !failed ==>
                var started := Standing(old(run)).value;
                var entry := if SequenceLife.WillSkip(Terms(), old(run), old(clock)) then started + 1 else started;
                || (next == Some(entry + 1) && HistoryOf(run).sent == [started])
                || (next == Some(entry) && HistoryOf(run).sent == [])
    {
      StartInternal();
      ghost var loaded := run;
      failed, retryable := FinishLeftover(refetches);
      SinceTransitive(old(run), loaded, run);
      if failed {
        ExcusedSince(old(run), loaded, refetches, retryable);
      }
    }

    method FinishLeftover(refetches: nat) returns (failed: bool, retryable: bool)
      requires Valid() && (next.Some? ==> HistoryOf(run).sent == [])
      modifies this
      ensures Valid() && Since(old(run), run)
      ensures clock >= old(clock) && (failed ==> !enabled || Disturbed(old(clock)))
      ensures failed ==> Excused(old(run), refetches, retryable)
      ensures Pending(old(rows)).Some? && old(next).Some? && !failed ==>
                || (next == Some(old(next).value + 1) && HistoryOf(run).sent == [Pending(old(rows)).value])
                || (next == old(next) && HistoryOf(run).sent == [])
    {
      ghost var loaded, left := run, rows;
      failed, retryable := HandleAnyInProgressTx(refetches);
      if !failed && Pending(left).Some? && Next(loaded).Some? {
        LeftoverIsFinished(left, loaded, Pending(left).value, Next(loaded).value);
      }
    }

    lemma LeftoverIsFinished(left: Rows, loaded: Run<Cause>, started: int, entry: int)
      requires StoreValid(left) && Pending(left) == Some(started) && Next(loaded) == Some(entry)
          && HistoryOf(loaded).sent == []
      requires forall id :: id in left && left[id].state == InProgress ==>
          WasBroadcast(left[id], loaded) || WasFatal(left[id], loaded)
      ensures || (next == Some(entry + 1) && HistoryOf(run).sent == [started])
              || (next == Some(entry) && HistoryOf(run).sent == [])
    {
      var id :| id in left && left[id].state == InProgress;
      PendingIs(left, id);
    }

    /** What was broadcast in this life, over all restarts: the exact block iff no restart skipped. */
    lemma LifeIsExactBlock()
      requires Valid() && SequenceLife.InLife(run)
      ensures Standing(run).Some?
      ensures SequenceLife.ExactBlock(SequenceLife.SentInLife(run), SequenceLife.FirstBase(run), Standing(run).value)
              <==> SequenceLife.SkipsInLife(run) == 0
    {
      SequenceLife.RunIsExactBlock(Terms(), run);
    }
  }
}

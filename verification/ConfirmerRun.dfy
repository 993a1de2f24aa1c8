/**
 The runs of the Confirmer (common/txmgr/confirmer.go) as a state machine over the rows: what it does to a transaction
 and its attempts on a head, and what the Broadcasters do in between.

 What it cannot know comes from a `World`: the node's answers, whether a store operation fails, when the head's context
 is cancelled, what the queries and the receipts step find, what the attempt builder makes.
 */
module ConfirmerRun {
  import opened Options
  import opened Attempts
  import opened Chain
  import opened Fee
  import opened Interference
  import opened RebroadcastList
  import opened Reorg
  import opened Runs
  import opened TxStore

  /** Besides the price, whether the attempt builder can make the bumped attempt. */
  datatype Builder = CanBuild | FailsAsBump | FailsOtherwise

  datatype Moment = Moment(
    others: Rows -> Rows,       // the rows after others had the floor
    receipts: Rows -> Rows,     // and after the steps that look for receipts
    timeout: bool,              // the head's context is cancelled
    store: bool,                // whether a store operation succeeds
    code: Code,                 // the node's answer to a send
    query: Rows -> seq<Tx>,     // what a query for transactions to send again finds
    current: Option<int>,       // the node's current fee price
    builder: Builder)

  type World = nat -> Moment

  datatype Setting = Setting(world: World, enabled: seq<Address>, fees: FeeConfig)

  /** After these the attempt is neither settled nor replaced. */
  predicate Inconclusive(code: Code) {
    code in {Retryable, Unknown, Unsupported, FeeOutOfValidRange, Other}
  }

  predicate Smooth(moment: Moment) {
    !moment.timeout && moment.store && !Inconclusive(moment.code) && !moment.builder.FailsOtherwise?
  }

  /** The state a sent attempt is saved with. */
  function FinalState(code: Code): AttemptState {
    if code == InsufficientFunds then AttemptInsufficientFunds else AttemptBroadcast
  }

  predicate IsFinal(code: Code) {
    code in {Successful, TransactionAlreadyKnown, InsufficientFunds, Fatal, ExceedsMaxFee}
  }

  /** A rejected attempt is deleted; any other is saved with the state its answer calls for. */
  function Outcome(tx: Tx, attempt: Attempt, code: Code): Tx {
    if code == Fatal || code == ExceedsMaxFee then tx.(attempts := Delete(tx.attempts, attempt.id))
    else tx.(state := if code == TransactionAlreadyKnown then ConfirmedMissingReceipt else tx.state,
             attempts := SetState(tx.attempts, attempt.id, FinalState(code)))
  }

  /** Deletes the old attempt and inserts the new one. */
  function Exchanged(tx: Tx, attempt: Attempt, replacement: Attempt): Tx {
    tx.(attempts := Insert(Delete(tx.attempts, attempt.id), replacement))
  }

  /** Inserts a new attempt, or puts an old one back in progress. */
  function WithInProgress(tx: Tx, attempt: Attempt, isNew: bool): Tx {
    tx.(attempts := if isNew then Insert(tx.attempts, attempt)
        else SetState(tx.attempts, attempt.id, AttemptInProgress))
  }

  /**
   What the receipts steps may do: confirm transactions and attach receipts, make their attempts broadcast, move
   transactions among the later states or give them up. None starts an attempt or changes a price.
   */
  predicate ReceiptsOnly(before: Rows, after: Rows) {
    && Rely(before, after)
    && (forall id | id in after :: Visible(after[id]) ==>
          && id in before && after[id].from == before[id].from && Visible(before[id])
          && |after[id].attempts| == |before[id].attempts|
          && forall k | 0 <= k < |after[id].attempts| :: OnlyReceipts(before[id].attempts[k], after[id].attempts[k]))
  }

  predicate OnlyReceipts(before: Attempt, after: Attempt) {
    after.id == before.id && after.fee == before.fee && (after.state == before.state || after.state == AttemptBroadcast)
  }

  /** A query's results: unconfirmed transactions of the address, as they are in the rows, or else nothing. */
  function Found(s: Setting, rows: Rows, tick: nat, address: Address): (txs: seq<Tx>)
    ensures Fetched(rows, address, txs) && DistinctIds(txs)
  {
    var txs := s.world(tick).query(rows);
    if Fetched(rows, address, txs) && DistinctIds(txs) then txs else []
  }

  predicate Fetched(rows: Rows, address: Address, txs: seq<Tx>) {
    forall tx | tx in txs :: tx.id in rows && rows[tx.id] == tx && tx.state == Unconfirmed && tx.from == address
  }

  /** The rows after those steps. */
  function WithReceipts(s: Setting, rows: Rows, tick: nat): Rows {
    var after := s.world(tick).receipts(rows);
    if ReceiptsOnly(rows, after) then after else rows
  }

  // Runs

  /** What a step is: a change of the rows, or an answer of the node that a later one depends on. */
  datatype Cause =
    | Others(tick: nat)
    | Receipts(tick: nat)
    | Marked(id: Id, head: Head)
    | PutInProgress(id: Id, attempt: Attempt, isNew: bool, tick: nat)   // bumped, if new, at that moment
    | Sent(id: Id, attempt: Attempt, tick: nat)
    | Replaced(id: Id, attempt: Attempt, replacement: Attempt, tick: nat)
    | Saved(id: Id, attempt: Attempt)

  function Tick(cause: Cause): Option<nat> {
    match cause
    case Others(tick) => Some(tick)
    case Receipts(tick) => Some(tick)
    case PutInProgress(_, _, _, tick) => Some(tick)
    case Sent(_, _, tick) => Some(tick)
    case Replaced(_, _, _, tick) => Some(tick)
    case _ => None
  }

  /** The first moment that no step has looked at yet. */
  function Clock(run: Run<Cause>): nat {
    match run
    case Begin(_) => 0
    case Then(before, cause, _) => if Tick(cause).Some? then Tick(cause).value + 1 else Clock(before)
  }

  datatype Sending = NotSent | Sending(id: Id, attempt: Attempt, answered: nat)

  /** The last send, until another attempt is put in progress. */
  function LastSend(run: Run<Cause>): Sending {
    match run
    case Begin(_) => NotSent
    case Then(before, cause, _) =>
      match cause
      case Sent(id, attempt, tick) => Sending(id, attempt, tick)
      case Others(_) => LastSend(before)
      case Saved(_, _) => LastSend(before)
      case _ => NotSent
  }

  function LastCode(s: Setting, run: Run<Cause>): Code {
    var send := LastSend(run);
    if send.Sending? then s.world(send.answered).code else Other
  }

  predicate IsLastSend(run: Run<Cause>, id: Id, attempt: Attempt) {
    var send := LastSend(run);
    send.Sending? && send.id == id && send.attempt == attempt
  }

  ghost predicate RowValid(tx: Tx, enabled: seq<Address>) {
    Visible(tx) ==>
      && DistinctAttempts(tx.attempts) && FeesDescending(tx.attempts)
      && (tx.from in enabled ==> AtMostOneInProgress(tx.attempts))
  }

  ghost predicate RowsValid(rows: Rows, enabled: seq<Address>) {
    WellFormed(rows) && forall id :: id in rows ==> RowValid(rows[id], enabled)
  }

  ghost predicate Mine(s: Setting, rows: Rows, id: Id) {
    id in rows && Visible(rows[id]) && rows[id].from in s.enabled
  }

  ghost predicate HasInProgress(s: Setting, rows: Rows, id: Id, attempt: Attempt) {
    Mine(s, rows, id) && attempt in rows[id].attempts && attempt.state == AttemptInProgress
  }

  /** The attempt is the bump of the other that comes out at this moment. */
  predicate IsBumpOf(s: Setting, tick: nat, attempt: Attempt, bumped: Attempt) {
    && s.world(tick).builder.CanBuild? && bumped.dynamicFee == attempt.dynamicFee
    && CalculateBumpedFee(s.fees, s.world(tick).current, attempt.fee) == Bumped(bumped.fee)
  }

  /** A successful bump of the highest-priced attempt, or that attempt itself. */
  ghost predicate PutOk(s: Setting, rows: Rows, id: Id, attempt: Attempt, isNew: bool, tick: nat) {
    && Mine(s, rows, id) && Attempts.NoneInProgress(rows[id].attempts) && rows[id].attempts != []
    && attempt.state == AttemptInProgress
    && if isNew
       then && IsBumpOf(s, tick, rows[id].attempts[0], attempt)
            && forall a :: a in rows[id].attempts ==> a.id != attempt.id
       else attempt == rows[id].attempts[0].(state := AttemptInProgress)
  }

  ghost predicate MarkOk(s: Setting, rows: Rows, id: Id, head: Head) {
    && id in rows && NeedsMark(rows[id], head) && CanMark(rows[id])
    && (rows[id].from in s.enabled ==> Attempts.NoneInProgress(rows[id].attempts))
  }

  /** Only the highest-priced attempt is replaced, by a successful bump of it. */
  ghost predicate ReplaceOk(s: Setting, rows: Rows, id: Id, attempt: Attempt, replacement: Attempt, tick: nat) {
    && HasInProgress(s, rows, id, attempt) && rows[id].attempts[0].id == attempt.id
    && replacement.state == AttemptInProgress && IsBumpOf(s, tick, rows[id].attempts[0], replacement)
    && forall a :: a in rows[id].attempts ==> a.id != replacement.id
  }

  ghost predicate StepOk(s: Setting, before: Run<Cause>, cause: Cause, after: Rows) {
    && (Tick(cause).Some? ==> Tick(cause).value >= Clock(before))
    && match cause
       case Others(tick) => after == s.world(tick).others(before.rows) && Handover(before.rows, after)
       case Receipts(tick) => after == WithReceipts(s, before.rows, tick)
       case Marked(id, head) =>
         MarkOk(s, before.rows, id, head) && after == before.rows[id := Rebroadcast(before.rows[id])]
       case PutInProgress(id, attempt, isNew, tick) =>
         && PutOk(s, before.rows, id, attempt, isNew, tick)
         && after == before.rows[id := WithInProgress(before.rows[id], attempt, isNew)]
       case Sent(id, attempt, _) => HasInProgress(s, before.rows, id, attempt) && after == before.rows
       case Replaced(id, attempt, replacement, tick) =>
         && ReplaceOk(s, before.rows, id, attempt, replacement, tick)
         && IsLastSend(before, id, attempt) && LastCode(s, before) == Underpriced
         && after == before.rows[id := Exchanged(before.rows[id], attempt, replacement)]
       case Saved(id, attempt) =>
         && HasInProgress(s, before.rows, id, attempt)
         && IsLastSend(before, id, attempt) && IsFinal(LastCode(s, before))
         && after == before.rows[id := Outcome(before.rows[id], attempt, LastCode(s, before))]
  }

  ghost predicate RunOk(s: Setting, run: Run<Cause>) {
    match run
    case Begin(rows) => RowsValid(rows, s.enabled)
    case Then(before, cause, rows) => RunOk(s, before) && StepOk(s, before, cause, rows)
  }

  /** The Confirmer's own steps are what every Broadcaster allows for. */
  lemma OwnStepIsRely(s: Setting, before: Run<Cause>, cause: Cause, after: Rows)
    requires WellFormed(before.rows) && StepOk(s, before, cause, after) && !cause.Others?
    ensures Rely(before.rows, after)
  {
    var rows := before.rows;
    match cause
    case Receipts(_) =>
    case Marked(id, _) => VisibleUpdateIsRely(rows, id, Rebroadcast(rows[id]));
    case PutInProgress(id, attempt, isNew, _) =>
      VisibleUpdateIsRely(rows, id, WithInProgress(rows[id], attempt, isNew));
    case Sent(_, _, _) =>
    case Replaced(id, attempt, replacement, _) =>
      VisibleUpdateIsRely(rows, id, Exchanged(rows[id], attempt, replacement));
    case Saved(id, attempt) => VisibleUpdateIsRely(rows, id, Outcome(rows[id], attempt, LastCode(s, before)));
  }

  // What a run keeps

  lemma HandoverKeepsValid(before: Rows, after: Rows, enabled: seq<Address>)
    requires Handover(before, after) && RowsValid(before, enabled)
    ensures RowsValid(after, enabled)
  {
  }

  lemma ReceiptsKeepValid(before: Rows, after: Rows, enabled: seq<Address>)
    requires ReceiptsOnly(before, after) && RowsValid(before, enabled)
    ensures RowsValid(after, enabled)
  {
    forall id | id in after && Visible(after[id]) ensures RowValid(after[id], enabled) {
      var a, b := before[id].attempts, after[id].attempts;
      assert RowValid(before[id], enabled);
      assert forall k :: 0 <= k < |b| ==> OnlyReceipts(a[k], b[k]);
    }
  }

  lemma OneRowKeepsValid(rows: Rows, id: Id, tx: Tx, enabled: seq<Address>)
    requires RowsValid(rows, enabled) && id in rows && RowValid(tx, enabled)
    requires tx.id == id && tx.sequence == rows[id].sequence && Visible(tx) && Visible(rows[id])
    ensures RowsValid(rows[id := tx], enabled)
  {
  }

  lemma MarkKeepsValid(s: Setting, rows: Rows, id: Id, head: Head)
    requires RowsValid(rows, s.enabled) && MarkOk(s, rows, id, head)
    ensures RowsValid(rows[id := Rebroadcast(rows[id])], s.enabled)
  {
    assert RowValid(rows[id], s.enabled);
    if rows[id].from in s.enabled {
      RebroadcastMeaning(rows[id]);
    }
    OneRowKeepsValid(rows, id, Rebroadcast(rows[id]), s.enabled);
  }

  lemma PutKeepsValid(s: Setting, rows: Rows, id: Id, attempt: Attempt, isNew: bool, tick: nat)
    requires RowsValid(rows, s.enabled) && PutOk(s, rows, id, attempt, isNew, tick)
    ensures RowsValid(rows[id := WithInProgress(rows[id], attempt, isNew)], s.enabled)
  {
    var tx := rows[id];
    assert RowValid(tx, s.enabled);
    if isNew {
      EntersTable(tx.attempts, attempt);
    } else {
      EntersProgress(tx.attempts, tx.attempts[0]);
    }
    OneRowKeepsValid(rows, id, WithInProgress(tx, attempt, isNew), s.enabled);
  }

  lemma ExchangedIsValid(attempts: seq<Attempt>, attempt: Attempt, replacement: Attempt)
    requires DistinctAttempts(attempts) && FeesDescending(attempts) && AtMostOneInProgress(attempts)
    requires attempt in attempts && attempt.state == AttemptInProgress
    requires forall a :: a in attempts ==> a.id != replacement.id
    ensures var after := Insert(Delete(attempts, attempt.id), replacement);
            DistinctAttempts(after) && FeesDescending(after) && AtMostOneInProgress(after)
  {
    LeavesTable(attempts, attempt);
    EntersTable(Delete(attempts, attempt.id), replacement);
  }

  lemma ReplaceKeepsValid(s: Setting, rows: Rows, id: Id, attempt: Attempt, replacement: Attempt, tick: nat)
    requires RowsValid(rows, s.enabled) && ReplaceOk(s, rows, id, attempt, replacement, tick)
    ensures RowsValid(rows[id := Exchanged(rows[id], attempt, replacement)], s.enabled)
  {
    assert RowValid(rows[id], s.enabled);
    ExchangedIsValid(rows[id].attempts, attempt, replacement);
    OneRowKeepsValid(rows, id, Exchanged(rows[id], attempt, replacement), s.enabled);
  }

  lemma SaveKeepsValid(s: Setting, rows: Rows, id: Id, attempt: Attempt, code: Code)
    requires RowsValid(rows, s.enabled) && HasInProgress(s, rows, id, attempt)
    ensures RowsValid(rows[id := Outcome(rows[id], attempt, code)], s.enabled)
  {
    var tx := rows[id];
    assert RowValid(tx, s.enabled);
    if code == Fatal || code == ExceedsMaxFee {
      LeavesTable(tx.attempts, attempt);
    } else {
      LeavesProgress(tx.attempts, attempt, FinalState(code));
    }
    OneRowKeepsValid(rows, id, Outcome(tx, attempt, code), s.enabled);
  }

  lemma StepKeepsValid(s: Setting, before: Run<Cause>, cause: Cause, after: Rows)
    requires RowsValid(before.rows, s.enabled) && StepOk(s, before, cause, after)
    ensures RowsValid(after, s.enabled)
  {
    var rows := before.rows;
    match cause
    case Others(_) => HandoverKeepsValid(rows, after, s.enabled);
    case Receipts(_) =>
      if ReceiptsOnly(rows, after) {
        ReceiptsKeepValid(rows, after, s.enabled);
      }
    case Marked(id, head) => MarkKeepsValid(s, rows, id, head);
    case PutInProgress(id, attempt, isNew, tick) => PutKeepsValid(s, rows, id, attempt, isNew, tick);
    case Sent(_, _, _) =>
    case Replaced(id, attempt, replacement, tick) => ReplaceKeepsValid(s, rows, id, attempt, replacement, tick);
    case Saved(id, attempt) => SaveKeepsValid(s, rows, id, attempt, LastCode(s, before));
  }

  /**
   In every state of every run: at most one attempt of a transaction is in progress, for the enabled addresses, and
   attempts are in order of price.
   */
  lemma {:induction false} AlwaysValid(s: Setting, run: Run<Cause>, earlier: Run<Cause>)
    requires RunOk(s, run) && Since(earlier, run)
    ensures RowsValid(earlier.rows, s.enabled)
  {
    if run != earlier {
      AlwaysValid(s, run.before, earlier);
    } else if run.Then? {
      AlwaysValid(s, run.before, run.before);
      StepKeepsValid(s, run.before, run.cause, run.rows);
    }
  }

  /** A transaction to be sent has no attempt. */
  ghost predicate Bare(rows: Rows) {
    exists id :: id in rows && rows[id].state == Unconfirmed && rows[id].attempts == []
  }

  /** An underpriced attempt that is not the highest-priced one, or that no bump was to be had of. */
  ghost predicate Stuck(s: Setting, run: Run<Cause>, until: nat) {
    var send := LastSend(run);
    && send.Sending? && LastCode(s, run) == Underpriced && send.id in run.rows && run.rows[send.id].attempts != []
    && var top := run.rows[send.id].attempts[0];
       send.attempt.id != top.id || exists tick :: send.answered < tick < until && CannotBump(s, tick, top)
  }

  predicate CannotBump(s: Setting, tick: nat, attempt: Attempt) {
    !s.world(tick).builder.CanBuild? || !CalculateBumpedFee(s.fees, s.world(tick).current, attempt.fee).Bumped?
  }

  ghost predicate EverBlocked(s: Setting, run: Run<Cause>, until: nat) {
    Bare(run.rows) || Stuck(s, run, until) || (run.Then? && EverBlocked(s, run.before, until))
  }

  lemma {:induction false} StaysBlocked(s: Setting, earlier: Run<Cause>, run: Run<Cause>, until: nat, later: nat)
    requires Since(earlier, run) && until <= later && EverBlocked(s, earlier, until)
    ensures EverBlocked(s, run, later)
  {
    if run != earlier {
      StaysBlocked(s, earlier, run.before, until, later);
    } else if !Bare(run.rows) && !Stuck(s, run, until) {
      StaysBlocked(s, run.before, run.before, until, later);
    }
  }

  // Re-org protection

  /** Since then transactions were marked, and others had the floor. */
  ghost predicate OnlyMarks(earlier: Run<Cause>, run: Run<Cause>) {
    run == earlier || (run.Then? && (run.cause.Marked? || run.cause.Others?) && OnlyMarks(earlier, run.before))
  }

  /** Since then attempts in progress were sent, and others had the floor. */
  ghost predicate OnlySends(earlier: Run<Cause>, run: Run<Cause>) {
    run == earlier || (run.Then? && IsSending(run.cause) && OnlySends(earlier, run.before))
  }

  predicate IsSending(cause: Cause) {
    cause.Others? || cause.Sent? || cause.Replaced? || cause.Saved?
  }

  ghost predicate SentAfter(earlier: Run<Cause>, run: Run<Cause>, id: Id) {
    run != earlier && run.Then? && ((run.cause.Sent? && run.cause.id == id) || SentAfter(earlier, run.before, id))
  }

  /** Since then an attempt of this transaction was sent, the answer was final, and it was acted on. */
  ghost predicate WasSent(earlier: Run<Cause>, run: Run<Cause>, id: Id) {
    && run != earlier && run.Then?
    && (|| (run.cause.Saved? && run.cause.id == id && SentAfter(earlier, run.before, id))
        || WasSent(earlier, run.before, id))
  }

  lemma {:induction false} OnlySendsTransitive(a: Run<Cause>, b: Run<Cause>, c: Run<Cause>)
    requires OnlySends(a, b) && OnlySends(b, c)
    ensures OnlySends(a, c)
  {
    if b != c {
      OnlySendsTransitive(a, b, c.before);
    }
  }

  lemma {:induction false} OnlyMarksTransitive(a: Run<Cause>, b: Run<Cause>, c: Run<Cause>)
    requires OnlyMarks(a, b) && OnlyMarks(b, c)
    ensures OnlyMarks(a, c)
  {
    if b != c {
      OnlyMarksTransitive(a, b, c.before);
    }
  }

  lemma {:induction false} OnlySendsIsSince(a: Run<Cause>, b: Run<Cause>)
    requires OnlySends(a, b) || OnlyMarks(a, b)
    ensures Since(a, b)
  {
    if a != b {
      OnlySendsIsSince(a, b.before);
    }
  }

  /** What happened since one state happened since any state before it. */
  lemma {:induction false} SentSinceEarlier(earlier: Run<Cause>, middle: Run<Cause>, run: Run<Cause>, id: Id)
    requires Since(earlier, middle) && Since(middle, run)
    ensures SentAfter(middle, run, id) ==> SentAfter(earlier, run, id)
    ensures WasSent(middle, run, id) ==> WasSent(earlier, run, id)
  {
    if run != middle {
      SentSinceEarlier(earlier, middle, run.before, id);
      SinceIsDeeper(earlier, middle);
      SinceIsDeeper(middle, run.before);
    }
  }

  lemma SendingKeepsView(s: Setting, before: Run<Cause>, cause: Cause, after: Rows, id: Id)
    requires StepOk(s, before, cause, after) && IsSending(cause) && id in before.rows && Visible(before.rows[id])
    ensures id in after && Visible(after[id])
    ensures after[id].from == before.rows[id].from && after[id].sequence == before.rows[id].sequence
  {
    match cause
    case Others(_) =>
    case Sent(_, _, _) =>
    case Replaced(_, _, _, _) =>
    case Saved(_, _) =>
  }

  /** While attempts are sent, a transaction in view stays there, with its owner and its sequence. */
  lemma {:induction false} StaysVisible(s: Setting, earlier: Run<Cause>, run: Run<Cause>, id: Id)
    requires RunOk(s, run) && OnlySends(earlier, run) && id in earlier.rows && Visible(earlier.rows[id])
    ensures id in run.rows && Visible(run.rows[id])
    ensures run.rows[id].from == earlier.rows[id].from && run.rows[id].sequence == earlier.rows[id].sequence
  {
    if run != earlier {
      StaysVisible(s, earlier, run.before, id);
      SendingKeepsView(s, run.before, run.cause, run.rows, id);
    }
  }

  /** An answer that is acted on is to a send since then, if none was waiting to be acted on. */
  lemma {:induction false} SendIsRecent(earlier: Run<Cause>, run: Run<Cause>)
    requires OnlySends(earlier, run) && LastSend(earlier).NotSent? && LastSend(run).Sending?
    ensures SentAfter(earlier, run, LastSend(run).id)
  {
    if !run.cause.Sent? {
      SendIsRecent(earlier, run.before);
    }
  }

  lemma StepKeepsInProgress(s: Setting, before: Run<Cause>, cause: Cause, after: Rows, id: Id)
    requires StepOk(s, before, cause, after) && IsSending(cause) && !(cause.Saved? && cause.id == id)
    requires id in before.rows && Visible(before.rows[id]) && !Attempts.NoneInProgress(before.rows[id].attempts)
    ensures id in after && Visible(after[id]) && !Attempts.NoneInProgress(after[id].attempts)
  {
    SendingKeepsView(s, before, cause, after, id);
    if cause.Replaced? && cause.id == id {
      InsertMembers(Delete(before.rows[id].attempts, cause.attempt.id), cause.replacement);
    }
  }

  /** One that is not sent keeps its attempt in progress. */
  lemma {:induction false} UnsentStaysInProgress(s: Setting, earlier: Run<Cause>, run: Run<Cause>, id: Id)
    requires RunOk(s, run) && OnlySends(earlier, run) && LastSend(earlier).NotSent? && !WasSent(earlier, run, id)
    requires id in earlier.rows && Visible(earlier.rows[id]) && !Attempts.NoneInProgress(earlier.rows[id].attempts)
    ensures id in run.rows && Visible(run.rows[id]) && !Attempts.NoneInProgress(run.rows[id].attempts)
  {
    if run != earlier {
      UnsentStaysInProgress(s, earlier, run.before, id);
      if run.cause.Saved? && run.cause.id == id {
        SendIsRecent(earlier, run.before);
      } else {
        StepKeepsInProgress(s, run.before, run.cause, run.rows, id);
      }
    }
  }

  /** Marking puts an end to whatever was sent before. */
  lemma {:induction false} MarkForgetsSends(s: Setting, found: Run<Cause>, marked: Run<Cause>, id: Id)
    requires RunOk(s, marked) && OnlyMarks(found, marked) && id in found.rows && Visible(found.rows[id])
    ensures id in marked.rows && Visible(marked.rows[id])
    ensures marked.rows[id] != found.rows[id] ==> LastSend(marked).NotSent?
  {
    if marked != found {
      MarkForgetsSends(s, found, marked.before, id);
    }
  }

  /**
   Between `found` and `marked` every transaction that had lost its place in the chain was put back, and no other;
   after that, attempts were only sent, and every one that was put back has been, if its address is enabled.
   */
  ghost predicate ReorgHandled(s: Setting, found: Run<Cause>, marked: Run<Cause>, done: Run<Cause>, head: Head) {
    && OnlyMarks(found, marked) && OnlySends(marked, done)
    && AllMarked(found.rows, marked.rows, head)
    && (forall id :: id in found.rows && NeedsMark(found.rows[id], head) && found.rows[id].from in s.enabled ==>
          WasSent(marked, done, id))
  }

  /** A marked transaction with nothing left in progress has been sent. */
  lemma MarkedWasSent(s: Setting, found: Run<Cause>, marked: Run<Cause>, done: Run<Cause>, head: Head, id: Id)
    requires RunOk(s, done) && RunOk(s, marked) && OnlyMarks(found, marked) && OnlySends(marked, done)
    requires id in found.rows && id in marked.rows && NeedsMark(found.rows[id], head) && CanMark(found.rows[id])
    requires marked.rows[id] == Rebroadcast(found.rows[id])
    requires id in done.rows && Visible(done.rows[id]) ==> Attempts.NoneInProgress(done.rows[id].attempts)
    ensures WasSent(marked, done, id)
  {
    if !WasSent(marked, done, id) {
      MarkForgetsSends(s, found, marked, id);
      assert marked.rows[id].attempts[0] in marked.rows[id].attempts;
      UnsentStaysInProgress(s, marked, done, id);
    }
  }

  // Sending again

  /** The run has gone on from there by putting an attempt of this transaction in progress and sending it. */
  ghost predicate SentAgain(from: Run<Cause>, run: Run<Cause>, id: Id) {
    exists put: Run<Cause> ::
      && put.Then? && put.before == from && put.cause.PutInProgress? && put.cause.id == id
      && OnlySends(put, run) && WasSent(put, run, id)
  }

  /** These transactions, one after the other, and nothing else. */
  ghost predicate SentInOrder(from: Run<Cause>, run: Run<Cause>, etxs: seq<Tx>)
    decreases |etxs|
  {
    if etxs == [] then run == from
    else
      var n := |etxs| - 1;
      exists middle :: SentInOrder(from, middle, etxs[..n]) && SentAgain(middle, run, etxs[n].id)
  }
}

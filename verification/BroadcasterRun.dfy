/**
 The runs of one address's Broadcaster (common/txmgr/broadcaster.go) as a state machine over the rows: what it
 loads, the four updates it makes itself, and what others do in between.

 Everything it cannot know comes from a `World`, an arbitrary function of time: the node's answers, whether a store
 operation fails, what the attempt builder makes, and what has become of the rows while others had the floor.
 */
module BroadcasterRun {
  import opened Options
  import opened Fee
  import opened Interference
  import opened Runs
  import opened SetFacts
  import opened TxStore

  datatype Moment = Moment(
    others: Rows -> Rows,     // the rows after others had the floor
    store: bool,              // whether a store operation, or another local step that can fail, succeeds
    code: Code,               // the node's answer to a send
    pending: Option<int>,     // its pending sequence, if it can be had
    current: Option<int>,     // its current fee price
    fee: int,                 // an attempt as the builder would make it now
    id: Id,
    dynamicFee: bool,
    retryable: bool)          // and, when it cannot make one, whether to try again

  predicate Smooth(moment: Moment) {
    moment.store && moment.code in {Successful, TransactionAlreadyKnown} && moment.pending.Some?
  }

  type World = nat -> Moment

  /** Fixed for a run. `countsInProgress` says whether the latest stored sequence may be that of the row in progress. */
  datatype Setting =
    Setting(world: World, enabled: bool, maxInFlight: nat, fees: FeeConfig, countsInProgress: bool)

  ghost predicate NoneInProgress(rows: Rows) {
    forall id :: id in rows ==> rows[id].state != InProgress
  }

  /** At most one transaction in progress, and it has exactly one attempt, itself in progress. */
  ghost predicate StoreValid(rows: Rows) {
    && WellFormed(rows)
    && (forall i, j :: i in rows && j in rows && rows[i].state == InProgress && rows[j].state == InProgress ==> i == j)
    && (forall i :: i in rows && rows[i].state == InProgress ==>
          |rows[i].attempts| == 1 && rows[i].attempts[0].state == AttemptInProgress)
  }

  /** The sequence of the transaction in progress. */
  ghost function Pending(rows: Rows): Option<int> {
    if exists id :: id in rows && rows[id].state == InProgress then
      var id :| id in rows && rows[id].state == InProgress;
      rows[id].sequence
    else None
  }

  lemma PendingIs(rows: Rows, id: Id)
    requires StoreValid(rows) && id in rows && rows[id].state == InProgress
    ensures Pending(rows) == rows[id].sequence && Pending(rows).Some?
  {
  }

  // What the store is asked for

  /** Whether `FindLatestSequence` looks at this row; the EVM store looks at every row with a sequence. */
  predicate Counted(tx: Tx, countsInProgress: bool) {
    tx.sequence.Some? && (countsInProgress || tx.state != InProgress)
  }

  predicate SomeCounted(rows: Rows, countsInProgress: bool) {
    exists id | id in rows :: Counted(rows[id], countsInProgress)
  }

  predicate IsLatestRow(rows: Rows, countsInProgress: bool, id: Id)
    requires id in rows
  {
    && Counted(rows[id], countsInProgress)
    && forall j | j in rows :: Counted(rows[j], countsInProgress) ==> rows[j].sequence.value <= rows[id].sequence.value
  }

  ghost predicate IsLatest(rows: Rows, countsInProgress: bool, latest: int) {
    exists id :: id in rows && IsLatestRow(rows, countsInProgress, id) && rows[id].sequence == Some(latest)
  }

  lemma LatestExists(rows: Rows, countsInProgress: bool)
    requires SomeCounted(rows, countsInProgress)
    ensures exists id :: id in rows && IsLatestRow(rows, countsInProgress, id)
  {
    var candidates := set id | id in rows && Counted(rows[id], countsInProgress);
    var some :| some in rows && Counted(rows[some], countsInProgress);
    assert some in candidates;
    var value := (id: Id) => if id in rows && rows[id].sequence.Some? then rows[id].sequence.value else 0;
    var best := Maximum(candidates, value);
    forall j | j in rows && Counted(rows[j], countsInProgress)
      ensures rows[j].sequence.value <= rows[best].sequence.value
    {
      assert j in candidates;
      assert value(j) <= value(best);
    }
    assert IsLatestRow(rows, countsInProgress, best);
  }

  // Runs

  /** What a step is: a change of the rows or of the entry, or a word with the outside that others depend on. */
  datatype Cause =
    | Others(tick: nat)
    | Loaded(entry: Option<int>, tick: nat)
    | Checked(id: Id, attempt: Attempt, tick: nat)      // the transmit checker has looked at it
    | Started(tx: Tx, attempt: Attempt)
    | Replaced(tx: Tx, attempt: Attempt, replacement: Attempt, isBump: bool, tick: nat)  // priced at that moment
    | Sent(id: Id, attempt: Attempt, tick: nat)         // the node has answered
    | Asked(tick: nat)                                  // and has been asked for its pending sequence
    | HandedOver(tx: Tx, attempt: Attempt)
    | GaveUp(tx: Tx)

  /** When a step looked outside. */
  function Tick(cause: Cause): Option<nat> {
    match cause
    case Others(tick) => Some(tick)
    case Loaded(_, tick) => Some(tick)
    case Checked(_, _, tick) => Some(tick)
    case Replaced(_, _, _, _, tick) => Some(tick)
    case Sent(_, _, tick) => Some(tick)
    case Asked(tick) => Some(tick)
    case _ => None
  }

  /** The first moment that no step has looked at yet. */
  function Clock(run: Run<Cause>): nat {
    match run
    case Begin(_) => 0
    case Then(before, cause, _) => if Tick(cause).Some? then Tick(cause).value + 1 else Clock(before)
  }

  /** The entry of `nextSequenceMap`. */
  function Next(run: Run<Cause>): Option<int> {
    match run
    case Begin(_) => None
    case Then(before, cause, _) =>
      match cause
      case Loaded(entry, _) => entry
      case HandedOver(_, _) => var next := Next(before); if next.Some? then Some(next.value + 1) else None
      case _ => Next(before)
  }

  /** The entry that was known last: a load that fails leaves the map without one. */
  function Standing(run: Run<Cause>): Option<int> {
    match run
    case Begin(_) => None
    case Then(before, cause, _) =>
      match cause
      case Loaded(entry, _) => if entry.Some? then entry else Standing(before)
      case HandedOver(_, _) => var next := Next(before); if next.Some? then Some(next.value + 1) else Standing(before)
      case _ => Standing(before)
  }

  datatype Sending = NotSent | Sending(id: Id, attempt: Attempt, answered: nat, asked: Option<nat>)

  /** The last send of what is now in progress, and when the node was asked for its pending sequence after it. */
  function LastSend(run: Run<Cause>): Sending {
    match run
    case Begin(_) => NotSent
    case Then(before, cause, _) =>
      match cause
      case Sent(id, attempt, tick) => Sending(id, attempt, tick, None)
      case Asked(tick) => var send := LastSend(before); if send.Sending? then send.(asked := Some(tick)) else NotSent
      case Started(_, _) => NotSent
      case Replaced(_, _, _, _, _) => NotSent
      case _ => LastSend(before)
  }

  function LastCode(s: Setting, run: Run<Cause>): Code {
    var send := LastSend(run);
    if send.Sending? then s.world(send.answered).code else Other
  }

  function LastPending(s: Setting, run: Run<Cause>): Option<int> {
    var send := LastSend(run);
    if send.Sending? && send.asked.Some? then s.world(send.asked.value).pending else None
  }

  predicate IsLastSend(run: Run<Cause>, tx: Tx, attempt: Attempt) {
    var send := LastSend(run);
    send.Sending? && send.id == tx.id && send.attempt == attempt
  }

  datatype Check = NotChecked | Check(id: Id, attempt: Attempt, tick: nat)

  function LastCheck(run: Run<Cause>): Check {
    match run
    case Begin(_) => NotChecked
    case Then(before, cause, _) =>
      match cause
      case Checked(id, attempt, tick) => Check(id, attempt, tick)
      case Others(_) => LastCheck(before)
      case _ => NotChecked
  }

  function UnconfirmedIds(rows: Rows): set<Id> {
    set id | id in rows && rows[id].state == Unconfirmed
  }

  /** Steps between the count of what is in flight and the start of a transaction. */
  predicate IsWaiting(cause: Cause) {
    cause.Others? || cause.Loaded? || cause.Checked?
  }

  /** There was room for one more when they were last counted. */
  ghost predicate HasRoom(s: Setting, run: Run<Cause>) {
    || s.maxInFlight == 0 || |UnconfirmedIds(run.rows)| < s.maxInFlight
    || (run.Then? && IsWaiting(run.cause) && HasRoom(s, run.before))
  }

  /** From the rows when the store answers and counts one of them, else from the chain. */
  ghost predicate LoadOk(s: Setting, rows: Rows, entry: Option<int>, tick: nat) {
    if !s.enabled then entry.None?
    else if s.world(tick).store && SomeCounted(rows, s.countsInProgress) then
      entry.Some? && IsLatest(rows, s.countsInProgress, entry.value - 1)
    else entry == s.world(tick + 1).pending
  }

  /** The transaction and its one attempt, as the broadcaster holds them in memory. */
  ghost predicate Holds(rows: Rows, tx: Tx, attempt: Attempt) {
    && tx.id in rows && rows[tx.id] == tx.(attempts := [attempt])
    && tx.state == InProgress && attempt.state == AttemptInProgress
  }

  /** The answers on which a send counts as a success: outright, or by a pending sequence that has moved past it. */
  predicate Accepted(code: Code, pending: Option<int>, sequence: Option<int>) {
    || code == Successful || code == TransactionAlreadyKnown
    || (code in {Unknown, ExceedsMaxFee, Other} && pending.Some? && sequence.Some? && pending.value > sequence.value)
  }

  ghost predicate StartOk(rows: Rows, next: Option<int>, tx: Tx, attempt: Attempt) {
    && NoneInProgress(rows) && next.Some? && tx.sequence == next && attempt.state == AttemptInProgress
    && tx.id in rows && rows[tx.id].state == Unstarted && rows[tx.id].from == tx.from
  }

  /** Bumped from the price the node asks for then, or estimated anew. */
  ghost predicate ReplaceOk(s: Setting, rows: Rows, tx: Tx, attempt: Attempt, replacement: Attempt, isBump: bool,
      tick: nat)
  {
    && Holds(rows, tx, attempt)
    && replacement.state == AttemptInProgress && replacement.dynamicFee == attempt.dynamicFee
    && if isBump then CalculateBumpedFee(s.fees, s.world(tick).current, attempt.fee) == Bumped(replacement.fee)
       else !attempt.dynamicFee && replacement.fee == s.world(tick).fee
  }

  ghost predicate GiveUpOk(rows: Rows, tx: Tx) {
    && tx.id in rows && rows[tx.id].state == tx.state && rows[tx.id].from == tx.from
    && tx.state in {InProgress, Unstarted}
  }

  /** The transmit checker let it pass. */
  predicate Passed(s: Setting, run: Run<Cause>, tx: Tx, attempt: Attempt) {
    var check := LastCheck(run);
    check.Check? && check.id == tx.id && check.attempt == attempt && s.world(check.tick).store
  }

  /** The node rejected it for good, or, before it was started, the transmit checker did. */
  predicate Rejected(s: Setting, run: Run<Cause>, tx: Tx) {
    if tx.state == InProgress then LastSend(run).Sending? && LastSend(run).id == tx.id && LastCode(s, run) == Fatal
    else
      var check := LastCheck(run);
      check.Check? && check.id == tx.id && !s.world(check.tick).store
  }

  predicate Taken(s: Setting, run: Run<Cause>, tx: Tx, attempt: Attempt) {
    IsLastSend(run, tx, attempt) && Accepted(LastCode(s, run), LastPending(s, run), tx.sequence)
  }

  ghost predicate StepOk(s: Setting, before: Run<Cause>, cause: Cause, after: Rows) {
    && (Tick(cause).Some? ==> Tick(cause).value >= Clock(before))
    && match cause
       case Others(tick) => after == s.world(tick).others(before.rows) && Rely(before.rows, after)
       case Loaded(entry, tick) => after == before.rows && LoadOk(s, before.rows, entry, tick)
       case Checked(_, _, _) => after == before.rows
       case Started(tx, attempt) =>
         && StartOk(before.rows, Next(before), tx, attempt)
         && HasRoom(s, before) && Passed(s, before, tx, attempt)
         && after == MarkInProgress(before.rows, tx, tx.sequence.value, attempt)
       case Replaced(tx, attempt, replacement, isBump, tick) =>
         && ReplaceOk(s, before.rows, tx, attempt, replacement, isBump, tick) && IsLastSend(before, tx, attempt)
         && LastCode(s, before) == (if isBump then Underpriced else FeeOutOfValidRange)
         && after == MarkReplaced(before.rows, tx, replacement)
       case Sent(id, attempt, _) =>
         && id in before.rows && before.rows[id].state == InProgress && before.rows[id].attempts == [attempt]
         && after == before.rows
       case Asked(_) => after == before.rows
       case HandedOver(tx, attempt) =>
         && Next(before).Some? && Holds(before.rows, tx, attempt) && Taken(s, before, tx, attempt)
         && after == MarkBroadcast(before.rows, tx, attempt)
       case GaveUp(tx) => GiveUpOk(before.rows, tx) && Rejected(s, before, tx) && after == MarkFatal(before.rows, tx)
  }

  ghost predicate RunOk(s: Setting, run: Run<Cause>) {
    match run
    case Begin(rows) => StoreValid(rows)
    case Then(before, cause, rows) => RunOk(s, before) && StepOk(s, before, cause, rows)
  }

  // What a run keeps

  /** What happened since the entry was last loaded. */
  datatype History = History(
    base: int,              // the loaded value
    loaded: Rows,           // and the rows then
    leftover: Option<int>,  // sequence of the transaction that was then in progress
    leftoverSent: bool,     // and whether it has been broadcast since, under a number other than the entry
    sent: seq<int>,         // sequences broadcast, in order
    above: bool)            // whether the loaded value was above every stored sequence

  function AfterBroadcast(h: History, sequence: int, next: int): History {
    h.(sent := h.sent + [sequence], leftoverSent := h.leftoverSent || sequence != next)
  }

  ghost function Load(rows: Rows, entry: int): History {
    History(entry, rows, Pending(rows), false, [], AboveAll(rows, entry))
  }

  ghost function HistoryOf(run: Run<Cause>): History {
    match run
    case Begin(rows) => Load(rows, 0)
    case Then(before, cause, rows) =>
      match cause
      case Loaded(entry, _) => if entry.Some? then Load(rows, entry.value) else HistoryOf(before)
      case HandedOver(tx, _) =>
        if tx.sequence.Some? && Next(before).Some?
        then AfterBroadcast(HistoryOf(before), tx.sequence.value, Next(before).value) else HistoryOf(before)
      case _ => HistoryOf(before)
  }

  /** Which row was last started under a sequence. */
  function Owners(run: Run<Cause>): map<int, Id> {
    match run
    case Begin(_) => map[]
    case Then(before, cause, _) =>
      match cause
      case Loaded(entry, _) => if entry.Some? then map[] else Owners(before)
      case Started(tx, _) => if tx.sequence.Some? then Owners(before)[tx.sequence.value := tx.id] else Owners(before)
      case _ => Owners(before)
  }

  /** The exact numbering: consecutive from the loaded value, except for a leftover, which keeps its own number. */
  ghost predicate Numbered(rows: Rows, next: int, h: History) {
    && next == h.base + |h.sent|
    && (h.leftoverSent ==> |h.sent| > 0 && h.leftover == Some(h.sent[0]) && h.sent[0] != h.base)
    && (forall i :: 0 <= i < |h.sent| && !(i == 0 && h.leftoverSent) ==> h.sent[i] == h.base + i)
    && (forall id :: id in rows && rows[id].state == InProgress ==>
          rows[id].sequence == Some(next) || (rows[id].sequence == h.leftover && h.sent == []))
  }

  /** The entry is above every stored sequence, except that the one in progress may carry it. */
  ghost predicate AboveAll(rows: Rows, next: int) {
    forall id :: id in rows && rows[id].sequence.Some? ==>
      rows[id].sequence.value < next || (rows[id].state == InProgress && rows[id].sequence.value == next)
  }

  /** The row has carried this sequence since the load. */
  predicate Old(h: History, rows: Rows, id: Id)
    requires id in rows
  {
    id in h.loaded && h.loaded[id].sequence == rows[id].sequence
  }

  /** A sequence new since the load is in progress as the entry, or has been broadcast, on the row it was given to. */
  ghost predicate Carried(rows: Rows, next: int, h: History, owners: map<int, Id>) {
    forall id :: id in rows && rows[id].sequence.Some? && !Old(h, rows, id) ==>
      var sequence := rows[id].sequence.value;
      && sequence in owners && owners[sequence] == id
      && if rows[id].state == InProgress then sequence == next else sequence in h.sent && h.base <= sequence < next
  }

  ghost predicate Consistent(rows: Rows, next: Option<int>, h: History, owners: map<int, Id>) {
    next.Some? ==>
      && Numbered(rows, next.value, h) && Carried(rows, next.value, h, owners)
      && (h.above ==> AboveAll(rows, next.value))
  }

  ghost predicate RunConsistent(run: Run<Cause>) {
    && StoreValid(run.rows) && Consistent(run.rows, Standing(run), HistoryOf(run), Owners(run))
    && (Next(run).Some? ==> Standing(run) == Next(run))
  }

  lemma RelyKeepsConsistent(before: Rows, after: Rows, next: Option<int>, h: History, owners: map<int, Id>)
    requires Rely(before, after)
    ensures StoreValid(before) ==> StoreValid(after)
    ensures Consistent(before, next, h, owners) ==> Consistent(after, next, h, owners)
    ensures NoneInProgress(before) ==> NoneInProgress(after)
  {
  }

  /** A load starts the numbering over: every sequence there is old, and only the leftover may still be sent. */
  lemma LoadIsConsistent(rows: Rows, entry: int)
    requires StoreValid(rows)
    ensures Consistent(rows, Some(entry), Load(rows, entry), map[])
  {
    forall id | id in rows && rows[id].state == InProgress ensures Pending(rows) == rows[id].sequence {
      PendingIs(rows, id);
    }
  }

  lemma StartKeepsConsistent(rows: Rows, tx: Tx, attempt: Attempt, next: int, h: History, owners: map<int, Id>)
    requires StoreValid(rows) && Consistent(rows, Some(next), h, owners) && StartOk(rows, Some(next), tx, attempt)
    ensures StoreValid(MarkInProgress(rows, tx, next, attempt))
    ensures Consistent(MarkInProgress(rows, tx, next, attempt), Some(next), h, owners[next := tx.id])
  {
  }

  lemma ReplaceKeepsConsistent(rows: Rows, tx: Tx, attempt: Attempt, replacement: Attempt, next: Option<int>,
      h: History, owners: map<int, Id>)
    requires StoreValid(rows) && Consistent(rows, next, h, owners)
    requires Holds(rows, tx, attempt) && replacement.state == AttemptInProgress
    ensures StoreValid(MarkReplaced(rows, tx, replacement))
    ensures Consistent(MarkReplaced(rows, tx, replacement), next, h, owners)
  {
  }

  /** Raising the entry from its own value keeps the numbering exact, leftover or not. */
  lemma BroadcastKeepsConsistent(rows: Rows, tx: Tx, attempt: Attempt, next: int, h: History, owners: map<int, Id>)
    requires StoreValid(rows) && Consistent(rows, Some(next), h, owners) && Holds(rows, tx, attempt)
    ensures StoreValid(MarkBroadcast(rows, tx, attempt))
    ensures Consistent(MarkBroadcast(rows, tx, attempt), Some(next + 1), AfterBroadcast(h, tx.sequence.value, next),
        owners)
  {
  }

  lemma GiveUpKeepsConsistent(rows: Rows, tx: Tx, next: Option<int>, h: History, owners: map<int, Id>)
    requires StoreValid(rows) && Consistent(rows, next, h, owners) && tx.id in rows
    ensures StoreValid(MarkFatal(rows, tx)) && Consistent(MarkFatal(rows, tx), next, h, owners)
  {
  }

  lemma BroadcastKeepsStore(rows: Rows, tx: Tx, attempt: Attempt)
    requires StoreValid(rows) && Holds(rows, tx, attempt)
    ensures StoreValid(MarkBroadcast(rows, tx, attempt)) && NoneInProgress(MarkBroadcast(rows, tx, attempt))
  {
  }

  lemma GiveUpKeepsStore(rows: Rows, tx: Tx)
    requires StoreValid(rows) && tx.id in rows
    ensures StoreValid(MarkFatal(rows, tx))
    ensures rows[tx.id].state == InProgress || NoneInProgress(rows) ==> NoneInProgress(MarkFatal(rows, tx))
  {
  }

  lemma StepKeepsStore(s: Setting, before: Run<Cause>, cause: Cause, after: Rows)
    requires StoreValid(before.rows) && StepOk(s, before, cause, after)
    ensures StoreValid(after)
  {
    match cause
    case HandedOver(tx, attempt) => BroadcastKeepsStore(before.rows, tx, attempt);
    case GaveUp(tx) => GiveUpKeepsStore(before.rows, tx);
    case _ =>
  }

  lemma LoadStepIsConsistent(s: Setting, before: Run<Cause>, entry: Option<int>, tick: nat)
    requires RunConsistent(before)
    ensures RunConsistent(Then(before, Loaded(entry, tick), before.rows))
  {
    if entry.Some? {
      LoadIsConsistent(before.rows, entry.value);
    }
  }

  lemma HandOverIsConsistent(s: Setting, before: Run<Cause>, tx: Tx, attempt: Attempt)
    requires RunConsistent(before) && Next(before).Some? && Holds(before.rows, tx, attempt)
    ensures RunConsistent(Then(before, HandedOver(tx, attempt), MarkBroadcast(before.rows, tx, attempt)))
  {
    BroadcastKeepsConsistent(before.rows, tx, attempt, Next(before).value, HistoryOf(before), Owners(before));
  }

  lemma StepIsConsistent(s: Setting, before: Run<Cause>, cause: Cause, after: Rows)
    requires RunConsistent(before) && StepOk(s, before, cause, after)
    ensures RunConsistent(Then(before, cause, after))
  {
    var rows, next, h, owners := before.rows, Standing(before), HistoryOf(before), Owners(before);
    match cause
    case Others(_) => RelyKeepsConsistent(rows, after, next, h, owners);
    case Loaded(entry, tick) => LoadStepIsConsistent(s, before, entry, tick);
    case Started(tx, attempt) => StartKeepsConsistent(rows, tx, attempt, next.value, h, owners);
    case Replaced(tx, attempt, replacement, _, _) =>
        ReplaceKeepsConsistent(rows, tx, attempt, replacement, next, h, owners);
    case HandedOver(tx, attempt) => HandOverIsConsistent(s, before, tx, attempt);
    case GaveUp(tx) => GiveUpKeepsConsistent(rows, tx, next, h, owners);
    case _ =>
  }

  /**
   Over every run: one transaction in progress at most, and the broadcast sequences are the consecutive block from
   the loaded value up to the entry, a leftover's own number apart.
   */
  lemma {:induction false} RunIsConsistent(s: Setting, run: Run<Cause>)
    requires RunOk(s, run)
    ensures RunConsistent(run)
  {
    match run
    case Begin(_) =>
    case Then(before, cause, rows) =>
      RunIsConsistent(s, before);
      StepIsConsistent(s, before, cause, rows);
  }

  /** No two rows carry the same sequence since the load. */
  lemma OneRowPerSequence(s: Setting, run: Run<Cause>, i: Id, j: Id)
    requires RunOk(s, run) && Standing(run).Some?
    requires i in run.rows && j in run.rows && run.rows[i].sequence.Some?
        && run.rows[i].sequence == run.rows[j].sequence
    requires !Old(HistoryOf(run), run.rows, i) && !Old(HistoryOf(run), run.rows, j)
    ensures i == j
  {
    RunIsConsistent(s, run);
  }

  /** How often the price has been estimated anew since then. */
  function Estimates(from: Run<Cause>, run: Run<Cause>): nat {
    if run == from || run.Begin? then 0
    else Estimates(from, run.before) + if run.cause.Replaced? && !run.cause.isBump then 1 else 0
  }

  lemma {:induction false} EstimatesAddUp(from: Run<Cause>, middle: Run<Cause>, run: Run<Cause>)
    requires Since(from, middle) && Since(middle, run)
    ensures Estimates(from, run) == Estimates(from, middle) + Estimates(middle, run)
  {
    if run != middle {
      EstimatesAddUp(from, middle, run.before);
      SinceIsDeeper(from, middle);
      SinceIsDeeper(middle, run.before);
    }
  }

  // Rounds

  /** At some state in between, as many were unconfirmed as the cap allows. */
  ghost predicate Waited(s: Setting, from: Run<Cause>, to: Run<Cause>) {
    exists counted :: Since(from, counted) && Since(counted, to) && 0 < s.maxInFlight <= |UnconfirmedIds(counted.rows)|
  }

  /** What was unstarted at `picked` has since been broadcast under the entry of that time, given up, or removed. */
  ghost predicate WasHandled(picked: Run<Cause>, to: Run<Cause>, id: Id) {
    && id in picked.rows && picked.rows[id].state == Unstarted && Next(picked).Some?
    && (|| id !in to.rows
        || to.rows[id].state == FatalError
        || (to.rows[id].state == Unconfirmed && to.rows[id].sequence == Next(picked)
            && Next(to) == Some(Next(picked).value + 1)))
  }

  /** An unstarted transaction was taken and handled. */
  ghost predicate TookOne(from: Run<Cause>, to: Run<Cause>) {
    exists picked, id :: Since(from, picked) && Since(picked, to) && WasHandled(picked, to, id)
  }

  /** The states before and after each round: in every one, either there was no room, or one more was handled. */
  ghost predicate Rounds(s: Setting, states: seq<Run<Cause>>) {
    forall i :: 0 < i < |states| ==> Waited(s, states[i - 1], states[i]) || TookOne(states[i - 1], states[i])
  }

  lemma OneMoreRound(s: Setting, states: seq<Run<Cause>>, run: Run<Cause>)
    requires Rounds(s, states) && states != []
    requires Waited(s, states[|states| - 1], run) || TookOne(states[|states| - 1], run)
    ensures Rounds(s, states + [run])
  {
  }

  // The in-flight cap

  /** How many rows others have made unconfirmed since there was room. */
  ghost function PutBack(s: Setting, run: Run<Cause>): nat {
    if |UnconfirmedIds(run.rows)| < s.maxInFlight || run.Begin? || !IsWaiting(run.cause) then 0
    else PutBack(s, run.before) + |UnconfirmedIds(run.rows) - UnconfirmedIds(run.before.rows)|
  }

  lemma {:induction false} RoomBound(s: Setting, run: Run<Cause>)
    requires HasRoom(s, run) && s.maxInFlight > 0
    ensures |UnconfirmedIds(run.rows)| < s.maxInFlight + PutBack(s, run)
  {
    if |UnconfirmedIds(run.rows)| >= s.maxInFlight {
      RoomBound(s, run.before);
      var before, after := UnconfirmedIds(run.before.rows), UnconfirmedIds(run.rows);
      CoverCardinality(after, before, after - before);
    }
  }

  function InFlight(rows: Rows): set<Id> {
    set id | id in rows && rows[id].state in {Unconfirmed, InProgress}
  }

  /** Every start of a run keeps what is in flight within the cap, but for what others have put back since the count. */
  lemma CapIsKept(s: Setting, run: Run<Cause>, start: Run<Cause>)
    requires RunOk(s, run) && Since(start, run) && s.maxInFlight > 0
    requires start.Then? && start.cause.Started?
    ensures |InFlight(start.rows)| <= s.maxInFlight + PutBack(s, start.before)
  {
    RunOkBefore(s, start, run);
    RoomBound(s, start.before);
    var tx := start.cause.tx;
    assert StepOk(s, start.before, start.cause, start.rows);
    forall id | id in InFlight(start.rows) ensures id in UnconfirmedIds(start.before.rows) + {tx.id} {
      assert id != tx.id ==> start.rows[id] == start.before.rows[id];
    }
    CoverCardinality(InFlight(start.rows), UnconfirmedIds(start.before.rows), {tx.id});
  }

  lemma {:induction false} RunOkBefore(s: Setting, earlier: Run<Cause>, run: Run<Cause>)
    requires RunOk(s, run) && Since(earlier, run)
    ensures RunOk(s, earlier)
  {
    if run != earlier {
      RunOkBefore(s, earlier, run.before);
    }
  }

  /** The row a step of the Broadcaster's own is about. */
  function About(cause: Cause): Option<Id> {
    match cause
    case Started(tx, _) => Some(tx.id)
    case Replaced(tx, _, _, _, _) => Some(tx.id)
    case HandedOver(tx, _) => Some(tx.id)
    case GaveUp(tx) => Some(tx.id)
    case _ => None
  }

  /** Since then others changed nothing, and no step was about this row. */
  ghost predicate LeftAlone(earlier: Run<Cause>, run: Run<Cause>, id: Id) {
    run == earlier || (run.Then? && !run.cause.Others? && About(run.cause) != Some(id)
        && LeftAlone(earlier, run.before, id))
  }

  /** The Broadcaster itself never loses a row, and never touches one it is not sending or giving up. */
  lemma {:induction false} LeftAloneIsSame(s: Setting, earlier: Run<Cause>, run: Run<Cause>, id: Id)
    requires RunOk(s, run) && LeftAlone(earlier, run, id)
    ensures id in run.rows <==> id in earlier.rows
    ensures id in run.rows ==> run.rows[id] == earlier.rows[id]
  {
    if run != earlier {
      LeftAloneIsSame(s, earlier, run.before, id);
    }
  }

  /** The Broadcaster's own steps are what the Confirmer allows for. */
  lemma OwnStepIsHandover(s: Setting, before: Run<Cause>, cause: Cause, after: Rows)
    requires RunConsistent(before) && StepOk(s, before, cause, after) && !cause.Others?
    ensures Handover(before.rows, after)
  {
    match cause
    case Started(tx, attempt) =>
      HiddenUpdateIsHandover(before.rows, tx.id, tx.(state := InProgress, attempts := [attempt]));
    case Replaced(tx, _, replacement, _, _) =>
      HiddenUpdateIsHandover(before.rows, tx.id, tx.(attempts := [replacement]));
    case HandedOver(tx, attempt) =>
      HiddenUpdateIsHandover(before.rows, tx.id,
          tx.(state := Unconfirmed, attempts := [attempt.(state := AttemptBroadcast)]));
    case GaveUp(tx) => HiddenUpdateIsHandover(before.rows, tx.id,
        tx.(state := FatalError, sequence := None, attempts := []));
    case _ =>
  }
}

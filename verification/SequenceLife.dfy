/**
 The sequences one address broadcasts over its whole life, across any number of restarts.

 `BroadcasterRun` bounds what one load of the map entry leads to. Here the loads of a run are strung together: after a
 restart the entry is the latest stored sequence plus one, and whether a transaction left in progress counts as stored
 decides whether a number is skipped.
 */
module SequenceLife {
  import opened Options
  import opened Runs
  import opened Fee
  import opened Interference
  import opened TxStore
  import B = BroadcasterRun

  /** One load and all that followed; `pending` is the sequence of the transaction in progress at its end. */
  datatype Epoch = Epoch(h: B.History, next: int, pending: Option<int>)

  ghost predicate EpochOk(e: Epoch) {
    && e.next == e.h.base + |e.h.sent|
    && (e.h.leftoverSent ==> |e.h.sent| > 0 && e.h.leftover == Some(e.h.sent[0]) && e.h.sent[0] != e.h.base)
    && (forall i :: 0 <= i < |e.h.sent| && !(i == 0 && e.h.leftoverSent) ==> e.h.sent[i] == e.h.base + i)
    && (e.pending.Some? ==> e.pending == Some(e.next) || (e.pending == e.h.leftover && e.h.sent == []))
  }

  /** One epoch hands on to the next, which may start one number higher when a started transaction was left behind. */
  ghost predicate Follows(p: Epoch, e: Epoch) {
    e.h.leftover == p.pending && (e.h.base == p.next || (e.h.base == p.next + 1 && p.pending == Some(p.next)))
  }

  ghost predicate Life(es: seq<Epoch>) {
    && |es| > 0
    && (es[0].h.leftover.Some? ==> es[0].h.leftover.value == es[0].h.base)
    && (forall i :: 0 <= i < |es| ==> EpochOk(es[i]))
    && (forall i :: 0 <= i < |es| - 1 ==> Follows(es[i], es[i + 1]))
  }

  function Total(es: seq<Epoch>): seq<int> {
    if es == [] then [] else Total(es[..|es| - 1]) + es[|es| - 1].h.sent
  }

  /** Restarts that left out a number. */
  function Gaps(es: seq<Epoch>): nat {
    if |es| <= 1 then 0
    else Gaps(es[..|es| - 1]) + if es[|es| - 1].h.base != es[|es| - 2].next then 1 else 0
  }

  ghost predicate Increasing(s: seq<int>) {
    forall i, j :: 0 <= i < j < |s| ==> s[i] < s[j]
  }

  ghost predicate Within(s: seq<int>, low: int, high: int) {
    forall i :: 0 <= i < |s| ==> low <= s[i] < high
  }

  function Last(es: seq<Epoch>): Epoch
    requires es != []
  {
    es[|es| - 1]
  }

  /** The lowest sequence that may still be broadcast. */
  function Frontier(e: Epoch): int {
    if e.pending.Some? then e.pending.value else e.next
  }

  /** The lowest sequence an epoch may broadcast. */
  function Entry(e: Epoch): int {
    if e.h.leftover.Some? then e.h.leftover.value else e.h.base
  }

  ghost predicate EntryShape(e: Epoch) {
    e.h.leftover.Some? ==> e.h.base - 1 <= e.h.leftover.value <= e.h.base
  }

  lemma EpochIncreases(e: Epoch)
    requires EpochOk(e) && EntryShape(e)
    ensures Increasing(e.h.sent) && Within(e.h.sent, Entry(e), Frontier(e))
    ensures Entry(e) <= Frontier(e) <= e.next <= Frontier(e) + 1
    ensures e.pending.Some? && e.pending != Some(e.next) ==> e.pending == Some(e.next - 1)
  {
  }

  lemma IncreasingAppend(s: seq<int>, t: seq<int>, low: int, middle: int, high: int)
    requires Increasing(s) && Within(s, low, middle)
    requires Increasing(t) && Within(t, middle, high)
    requires low <= middle <= high
    ensures Increasing(s + t) && Within(s + t, low, high)
  {
  }

  /**
   Over a whole life the broadcast sequences strictly increase, and the range they span is longer than their number by
   exactly one for every restart that left out a number.
   */
  lemma {:induction false} LifeIncreases(es: seq<Epoch>)
    requires Life(es)
    ensures Increasing(Total(es)) && Within(Total(es), es[0].h.base, Last(es).next)
    ensures |Total(es)| + Gaps(es) == Last(es).next - es[0].h.base
  {
    LifeReachesFrontier(es);
    EpochIncreases(Last(es));
  }

  lemma {:induction false} LifeReachesFrontier(es: seq<Epoch>)
    requires Life(es)
    ensures EntryShape(Last(es))
    ensures es[0].h.base <= Frontier(Last(es))
    ensures Increasing(Total(es)) && Within(Total(es), es[0].h.base, Frontier(Last(es)))
    ensures |Total(es)| + Gaps(es) == Last(es).next - es[0].h.base
  {
    var n := |es|;
    var e := Last(es);
    var before := es[..n - 1];
    if n == 1 {
      assert Total(before) == [];
      assert Total(es) == e.h.sent;
      EpochIncreases(e);
    } else {
      LifeBefore(es);
      LifeReachesFrontier(before);
      NextEpoch(Last(before), e);
      IncreasingAppend(Total(before), e.h.sent, es[0].h.base, Frontier(Last(before)), Frontier(e));
    }
  }

  lemma LifeBefore(es: seq<Epoch>)
    requires Life(es) && |es| > 1
    ensures var before := es[..|es| - 1];
            && Life(before) && before[0] == es[0] && Last(before) == es[|es| - 2]
            && EpochOk(Last(es)) && Follows(Last(before), Last(es))
  {
    var before := es[..|es| - 1];
    assert forall i :: 0 <= i < |before| ==> before[i] == es[i];
    assert Follows(es[|es| - 2], es[|es| - 2 + 1]);
  }

  /** The frontier is handed on. */
  lemma NextEpoch(p: Epoch, e: Epoch)
    requires EpochOk(p) && EntryShape(p) && EpochOk(e) && Follows(p, e)
    ensures EntryShape(e)
    ensures Increasing(e.h.sent) && Within(e.h.sent, Frontier(p), Frontier(e)) && Frontier(p) <= Frontier(e)
    ensures e.next - p.next == |e.h.sent| + if e.h.base != p.next then 1 else 0
  {
    EpochIncreases(p);
    EpochIncreases(e);
  }

  ghost predicate ExactBlock(s: seq<int>, base: int, next: int) {
    |s| == next - base && forall i :: 0 <= i < |s| ==> s[i] == base + i
  }

  lemma {:induction false} DenseIsBlock(s: seq<int>, low: int, high: int)
    requires Increasing(s) && Within(s, low, high) && |s| == high - low
    ensures ExactBlock(s, low, high)
  {
    if s != [] {
      var k := |s| - 1;
      FullLength(s, low);
      assert s[k] == high - 1;
      DenseIsBlock(s[..k], low, high - 1);
    }
  }

  lemma {:induction false} FullLength(s: seq<int>, low: int)
    requires Increasing(s) && s != [] && s[0] >= low
    ensures s[|s| - 1] >= low + |s| - 1
  {
    if |s| > 1 {
      FullLength(s[..|s| - 1], low);
    }
  }

  // The life of a run

  /** Every state of a run is the end of an epoch. */
  ghost function Current(run: Run<B.Cause>): Epoch
    requires B.Standing(run).Some?
  {
    Epoch(B.HistoryOf(run), B.Standing(run).value, B.Pending(run.rows))
  }

  lemma CurrentIsEpoch(run: Run<B.Cause>)
    requires B.RunConsistent(run) && B.Standing(run).Some?
    ensures EpochOk(Current(run))
  {
    if id :| id in run.rows && run.rows[id].state == InProgress {
      B.PendingIs(run.rows, id);
    }
  }

  /** A restart leaves out the number of a started transaction, which that transaction keeps. */
  ghost predicate Skips(before: Run<B.Cause>, entry: int) {
    B.Standing(before).Some? && entry == B.Standing(before).value + 1 && B.Pending(before.rows) == B.Standing(before)
  }

  /** It goes on where the entry stood, or skips. */
  ghost predicate GoesOn(before: Run<B.Cause>, entry: int) {
    B.Standing(before) == Some(entry) || Skips(before, entry)
  }

  predicate StoreAnswers(s: B.Setting, rows: Rows, tick: nat) {
    s.world(tick).store && B.SomeCounted(rows, s.countsInProgress)
  }

  /** What decides it: how far the counted rows reach, or, when there is no answer from the store, the chain. */
  ghost predicate CanGoOn(s: B.Setting, before: Run<B.Cause>, tick: nat)
    requires B.Standing(before).Some?
  {
    var rows, standing, chain := before.rows, B.Standing(before).value, s.world(tick + 1).pending;
    if StoreAnswers(s, rows, tick) then
      exists id :: id in rows && B.Counted(rows[id], s.countsInProgress) && rows[id].sequence.value >= standing - 1
    else chain == Some(standing) || (chain == Some(standing + 1) && B.Pending(rows) == Some(standing))
  }

  ghost predicate WillSkip(s: B.Setting, before: Run<B.Cause>, tick: nat)
    requires B.Standing(before).Some?
  {
    && B.Pending(before.rows) == B.Standing(before)
    && if StoreAnswers(s, before.rows, tick) then s.countsInProgress
       else s.world(tick + 1).pending == Some(B.Standing(before).value + 1)
  }

  /** Exactly when a restart goes on, and when it skips, if nothing stored was ever above the entry. */
  lemma ReloadValue(s: B.Setting, before: Run<B.Cause>, entry: Option<int>, tick: nat)
    requires B.RunConsistent(before) && B.LoadOk(s, before.rows, entry, tick) && s.enabled
    requires B.Standing(before).Some? && B.HistoryOf(before).above
    ensures entry.Some? && GoesOn(before, entry.value) <==> CanGoOn(s, before, tick)
    ensures entry.Some? && Skips(before, entry.value) <==> WillSkip(s, before, tick)
    ensures CanGoOn(s, before, tick) ==> B.AboveAll(before.rows, entry.value)
  {
    if StoreAnswers(s, before.rows, tick) {
      LatestReaches(before.rows, B.Standing(before).value, s.countsInProgress, entry.value - 1);
    }
  }

  /** The latest counted sequence is below the entry, or it is that of the transaction in progress. */
  lemma LatestReaches(rows: Rows, standing: int, countsInProgress: bool, latest: int)
    requires B.StoreValid(rows) && B.AboveAll(rows, standing) && B.IsLatest(rows, countsInProgress, latest)
    ensures latest < standing || (latest == standing && countsInProgress && B.Pending(rows) == Some(standing))
    ensures countsInProgress && B.Pending(rows) == Some(standing) ==> latest == standing
    ensures latest >= standing - 1 <==>
            exists id :: id in rows && B.Counted(rows[id], countsInProgress) && rows[id].sequence.value >= standing - 1
  {
    var best :| best in rows && B.IsLatestRow(rows, countsInProgress, best) && rows[best].sequence == Some(latest);
    if rows[best].state == InProgress {
      B.PendingIs(rows, best);
    }
    if left :| left in rows && rows[left].state == InProgress {
      B.PendingIs(rows, left);
      assert countsInProgress ==> B.Counted(rows[left], countsInProgress);
    }
  }

  /** A life begins with a load that finds nothing in progress, or what already carries the entry. */
  ghost predicate Clean(rows: Rows, entry: int) {
    B.Pending(rows).Some? ==> B.Pending(rows).value == entry
  }

  /** Since then every restart has gone on with the numbering. A load that fails is only a delay. */
  ghost predicate InLife(run: Run<B.Cause>)
    decreases run, 0
  {
    match run
    case Begin(_) => false
    case Then(before, cause, rows) =>
      if Reloads(cause) then Continued(before, cause.entry.value) || Clean(rows, cause.entry.value) else InLife(before)
  }

  predicate Reloads(cause: B.Cause) {
    cause.Loaded? && cause.entry.Some?
  }

  ghost predicate Continued(before: Run<B.Cause>, entry: int)
    decreases before, 1
  {
    InLife(before) && GoesOn(before, entry)
  }

  /** The epochs of that life before the current one. */
  ghost function Past(run: Run<B.Cause>): seq<Epoch> {
    match run
    case Begin(_) => []
    case Then(before, cause, _) =>
      if !Reloads(cause) then Past(before)
      else if Continued(before, cause.entry.value) && B.Standing(before).Some? then Past(before) + [Current(before)]
      else []
  }

  /** What was broadcast in it, over all its restarts, in order. */
  ghost function SentInLife(run: Run<B.Cause>): seq<int> {
    match run
    case Begin(_) => []
    case Then(before, cause, _) =>
      if Reloads(cause) then if Continued(before, cause.entry.value) then SentInLife(before) else []
      else SentInLife(before) + SentBy(cause)
  }

  function SentBy(cause: B.Cause): seq<int> {
    if cause.HandedOver? && cause.tx.sequence.Some? then [cause.tx.sequence.value] else []
  }

  /** Its restarts that left out a number. */
  ghost function SkipsInLife(run: Run<B.Cause>): nat {
    match run
    case Begin(_) => 0
    case Then(before, cause, _) =>
      if !Reloads(cause) then SkipsInLife(before)
      else if Continued(before, cause.entry.value)
      then SkipsInLife(before) + if Skips(before, cause.entry.value) then 1 else 0
      else 0
  }

  ghost function Epochs(run: Run<B.Cause>): seq<Epoch>
    requires B.Standing(run).Some?
  {
    Past(run) + [Current(run)]
  }

  /** The value its first load gave. */
  ghost function FirstBase(run: Run<B.Cause>): int
    requires B.Standing(run).Some?
  {
    Epochs(run)[0].h.base
  }

  lemma PastOfStep(s: B.Setting, before: Run<B.Cause>, cause: B.Cause, after: Rows)
    requires !Reloads(cause) && B.RunConsistent(before) && B.StepOk(s, before, cause, after)
    requires B.Standing(before).Some?
    ensures var run := Then(before, cause, after);
            && Past(run) == Past(before) && B.Standing(run).Some?
            && Current(run).h.base == Current(before).h.base && Current(run).h.leftover == Current(before).h.leftover
            && Current(run).h.sent == Current(before).h.sent + SentBy(cause)
  {
  }

  /** The epochs so far with another end of the last one. */
  lemma LastEpochMoves(es: seq<Epoch>, e: Epoch, e': Epoch)
    requires Life(es + [e]) && EpochOk(e') && e'.h.base == e.h.base && e'.h.leftover == e.h.leftover
    ensures Life(es + [e']) && Gaps(es + [e']) == Gaps(es + [e])
  {
    var before, after := es + [e], es + [e'];
    assert before[..|es|] == es && after[..|es|] == es;
    assert forall i :: 0 <= i < |es| ==> before[i] == es[i] && after[i] == es[i];
    forall i | 0 <= i < |after| - 1 ensures Follows(after[i], after[i + 1]) {
      assert Follows(before[i], before[i + 1]);
    }
  }

  lemma NextEpochJoins(es: seq<Epoch>, e: Epoch)
    requires Life(es) && EpochOk(e) && Follows(Last(es), e)
    ensures Life(es + [e]) && Gaps(es + [e]) == Gaps(es) + if e.h.base != Last(es).next then 1 else 0
  {
    var more := es + [e];
    assert more[..|es|] == es;
    assert forall i :: 0 <= i < |es| ==> more[i] == es[i];
    forall i | 0 <= i < |more| - 1 ensures Follows(more[i], more[i + 1]) {
      if i < |es| - 1 {
        assert Follows(es[i], es[i + 1]);
      }
    }
  }

  lemma TotalOfMore(es: seq<Epoch>, e: Epoch)
    ensures Total(es + [e]) == Total(es) + e.h.sent
  {
    assert (es + [e])[..|es|] == es;
  }

  /** What the functions of a run say of its epochs. */
  ghost predicate LifeIs(run: Run<B.Cause>)
    requires B.Standing(run).Some?
  {
    && Life(Epochs(run)) && Total(Epochs(run)) == SentInLife(run) && Gaps(Epochs(run)) == SkipsInLife(run)
  }

  lemma StepKeepsLife(s: B.Setting, before: Run<B.Cause>, cause: B.Cause, rows: Rows)
    requires B.RunConsistent(before) && B.StepOk(s, before, cause, rows) && !Reloads(cause)
    requires B.Standing(before).Some? && LifeIs(before)
    ensures B.Standing(Then(before, cause, rows)).Some? && LifeIs(Then(before, cause, rows))
  {
    var run := Then(before, cause, rows);
    B.StepIsConsistent(s, before, cause, rows);
    PastOfStep(s, before, cause, rows);
    CurrentIsEpoch(run);
    EpochGrows(Past(before), Current(before), Current(run), SentBy(cause));
  }

  lemma EpochGrows(past: seq<Epoch>, e: Epoch, e': Epoch, more: seq<int>)
    requires Life(past + [e]) && EpochOk(e')
    requires e'.h.base == e.h.base && e'.h.leftover == e.h.leftover && e'.h.sent == e.h.sent + more
    ensures Life(past + [e']) && Gaps(past + [e']) == Gaps(past + [e])
    ensures Total(past + [e']) == Total(past + [e]) + more
  {
    LastEpochMoves(past, e, e');
    TotalOfMore(past, e);
    TotalOfMore(past, e');
    assert Total(past) + (e.h.sent + more) == Total(past) + e.h.sent + more;
  }

  lemma RestartEpoch(s: B.Setting, before: Run<B.Cause>, entry: int, tick: nat)
    requires B.StepOk(s, before, B.Loaded(Some(entry), tick), before.rows) && Continued(before, entry)
    requires B.Standing(before).Some?
    ensures var run := Then(before, B.Loaded(Some(entry), tick), before.rows);
            && Epochs(run) == Epochs(before) + [Current(run)]
            && Follows(Current(before), Current(run)) && Current(run).h.sent == []
            && SentInLife(run) == SentInLife(before)
            && SkipsInLife(run) == SkipsInLife(before) + if Current(run).h.base != Current(before).next then 1 else 0
  {
  }

  lemma RestartKeepsLife(s: B.Setting, before: Run<B.Cause>, entry: int, tick: nat)
    requires B.RunConsistent(before) && B.StepOk(s, before, B.Loaded(Some(entry), tick), before.rows)
    requires Continued(before, entry) && LifeIs(before)
    ensures LifeIs(Then(before, B.Loaded(Some(entry), tick), before.rows))
  {
    var run := Then(before, B.Loaded(Some(entry), tick), before.rows);
    RestartEpoch(s, before, entry, tick);
    B.StepIsConsistent(s, before, B.Loaded(Some(entry), tick), before.rows);
    CurrentIsEpoch(run);
    LastIsCurrent(before);
    EpochStarts(Epochs(before), Current(run));
  }

  lemma LastIsCurrent(run: Run<B.Cause>)
    requires B.Standing(run).Some?
    ensures Last(Epochs(run)) == Current(run)
  {
  }

  lemma EpochStarts(es: seq<Epoch>, e: Epoch)
    requires Life(es) && EpochOk(e) && Follows(Last(es), e) && e.h.sent == []
    ensures Life(es + [e]) && Total(es + [e]) == Total(es)
    ensures Gaps(es + [e]) == Gaps(es) + if e.h.base != Last(es).next then 1 else 0
  {
    NextEpochJoins(es, e);
    TotalOfMore(es, e);
    assert Total(es) + [] == Total(es);
  }

  lemma FirstLoadStartsLife(s: B.Setting, before: Run<B.Cause>, entry: int, tick: nat)
    requires B.RunConsistent(before) && B.StepOk(s, before, B.Loaded(Some(entry), tick), before.rows)
    requires Clean(before.rows, entry) && !Continued(before, entry)
    ensures LifeIs(Then(before, B.Loaded(Some(entry), tick), before.rows))
  {
    var run := Then(before, B.Loaded(Some(entry), tick), before.rows);
    B.StepIsConsistent(s, before, B.Loaded(Some(entry), tick), before.rows);
    CurrentIsEpoch(run);
    FirstEpoch(Current(run));
    assert Epochs(run) == [Current(run)];
  }

  lemma FirstEpoch(e: Epoch)
    requires EpochOk(e) && (e.h.leftover.Some? ==> e.h.leftover.value == e.h.base) && e.h.sent == []
    ensures Life([e]) && Total([e]) == [] && Gaps([e]) == 0
  {
    assert [e][..0] == [];
    assert Total([e]) == Total([]) + [];
  }

  /** Every run of the Broadcaster that is in a life is one. */
  lemma {:induction false} RunIsLife(s: B.Setting, run: Run<B.Cause>)
    requires B.RunOk(s, run) && InLife(run)
    ensures B.Standing(run).Some? && LifeIs(run)
  {
    match run
    case Then(before, cause, rows) =>
      B.RunIsConsistent(s, before);
      if !Reloads(cause) {
        RunIsLife(s, before);
        StepKeepsLife(s, before, cause, rows);
      } else if Continued(before, cause.entry.value) {
        RunIsLife(s, before);
        RestartKeepsLife(s, before, cause.entry.value, cause.tick);
      } else {
        FirstLoadStartsLife(s, before, cause.entry.value, cause.tick);
      }
  }

  /**
   The numbering promised to the chain - every number from the first to the last, each exactly once and in order -
   holds over a whole life, restarts included, if and only if no restart skipped. What was broadcast rises strictly
   in any case, and every number that is missing was skipped.
   */
  lemma RunIsExactBlock(s: B.Setting, run: Run<B.Cause>)
    requires B.RunOk(s, run) && InLife(run)
    ensures B.Standing(run).Some? && Increasing(SentInLife(run))
    ensures |SentInLife(run)| + SkipsInLife(run) == B.Standing(run).value - FirstBase(run)
    ensures ExactBlock(SentInLife(run), FirstBase(run), B.Standing(run).value) <==> SkipsInLife(run) == 0
  {
    RunIsLife(s, run);
    var es := Epochs(run);
    assert Last(es) == Current(run);
    LifeIsExactBlock(es, SentInLife(run), SkipsInLife(run));
  }

  lemma LifeIsExactBlock(es: seq<Epoch>, sent: seq<int>, skips: nat)
    requires Life(es) && Total(es) == sent && Gaps(es) == skips
    ensures Increasing(sent) && |sent| + skips == Last(es).next - es[0].h.base
    ensures ExactBlock(sent, es[0].h.base, Last(es).next) <==> skips == 0
  {
    LifeIncreases(es);
    if skips == 0 {
      DenseIsBlock(sent, es[0].h.base, Last(es).next);
    }
  }

  /** A restart of that life skipped on the word of the chain, or over rows that were stored above the entry. */
  ghost predicate Outrun(s: B.Setting, run: Run<B.Cause>) {
    match run
    case Begin(_) => false
    case Then(before, cause, _) =>
      if !Reloads(cause) then Outrun(s, before)
      else
        && Continued(before, cause.entry.value)
        && (|| (Skips(before, cause.entry.value)
                && !(StoreAnswers(s, before.rows, cause.tick) && B.HistoryOf(before).above))
            || Outrun(s, before))
  }

  lemma {:induction false} ExcludingSkipsWhenOutrun(s: B.Setting, run: Run<B.Cause>)
    requires B.RunOk(s, run) && InLife(run) && !s.countsInProgress
    ensures SkipsInLife(run) == 0 <==> !Outrun(s, run)
  {
    match run
    case Then(before, cause, _) =>
      if !Reloads(cause) {
        ExcludingSkipsWhenOutrun(s, before);
      } else if Continued(before, cause.entry.value) {
        ExcludingSkipsWhenOutrun(s, before);
        if StoreAnswers(s, before.rows, cause.tick) && B.HistoryOf(before).above {
          B.RunIsConsistent(s, before);
          ReloadValue(s, before, cause.entry, cause.tick);
        }
      }
  }

  /** The store that leaves out what is in progress keeps the promise, unless it cannot be asked. */
  lemma ExcludingIsExactBlock(s: B.Setting, run: Run<B.Cause>)
    requires B.RunOk(s, run) && InLife(run) && !s.countsInProgress
    ensures B.Standing(run).Some?
    ensures ExactBlock(SentInLife(run), FirstBase(run), B.Standing(run).value) <==> !Outrun(s, run)
  {
    ExcludingSkipsWhenOutrun(s, run);
    RunIsExactBlock(s, run);
  }

  // Any run

  /** What was broadcast since. */
  function SentFrom(first: Run<B.Cause>, run: Run<B.Cause>): seq<int> {
    if run == first || run.Begin? then [] else SentFrom(first, run.before) + SentBy(run.cause)
  }

  ghost predicate ExactNow(first: Run<B.Cause>, run: Run<B.Cause>) {
    && B.Standing(first).Some? && B.Standing(run).Some?
    && ExactBlock(SentFrom(first, run), B.Standing(first).value, B.Standing(run).value)
  }

  /** At every moment since then, what has been broadcast is the exact block. */
  ghost predicate AlwaysExact(first: Run<B.Cause>, run: Run<B.Cause>) {
    ExactNow(first, run) && (run == first || run.Begin? || AlwaysExact(first, run.before))
  }

  /** Every restart since then loaded the entry as it stood. */
  predicate NeverMoved(first: Run<B.Cause>, run: Run<B.Cause>) {
    || run == first || run.Begin?
    || (NeverMoved(first, run.before) && (Reloads(run.cause) ==> run.cause.entry == B.Standing(run.before)))
  }

  /**
   Any run at all, whatever its restarts load: the numbering is exact throughout if and only if every restart loads
   the entry as it stood, given that the first load found nothing in progress, or what carries the entry.
   */
  lemma {:induction false} ExactThroughout(s: B.Setting, first: Run<B.Cause>, run: Run<B.Cause>)
    requires B.RunOk(s, run) && Since(first, run)
    requires B.Standing(first).Some? && Clean(first.rows, B.Standing(first).value)
    ensures AlwaysExact(first, run) <==> NeverMoved(first, run)
    ensures NeverMoved(first, run) ==> B.Standing(run).Some? && Clean(run.rows, B.Standing(run).value)
  {
    if run != first {
      ExactThroughout(s, first, run.before);
      if NeverMoved(first, run.before) {
        B.RunIsConsistent(s, run.before);
        StepStaysExact(s, first, run.before, run.cause, run.rows);
      }
    }
  }

  lemma StepStaysExact(s: B.Setting, first: Run<B.Cause>, before: Run<B.Cause>, cause: B.Cause, rows: Rows)
    requires B.RunConsistent(before) && B.StepOk(s, before, cause, rows)
    requires ExactNow(first, before) && Clean(before.rows, B.Standing(before).value)
    requires Then(before, cause, rows) != first
    ensures var run := Then(before, cause, rows);
            && B.Standing(run).Some?
            && (ExactNow(first, run) <==> Reloads(cause) ==> cause.entry == B.Standing(before))
            && (ExactNow(first, run) ==> Clean(rows, B.Standing(run).value))
  {
    if cause.HandedOver? {
      B.PendingIs(before.rows, cause.tx.id);
      assert SentBy(cause) == [B.Standing(before).value];
    }
    StepStaysClean(s, before, cause, rows);
  }

  /** What is then in progress carries the entry. */
  lemma StepStaysClean(s: B.Setting, before: Run<B.Cause>, cause: B.Cause, rows: Rows)
    requires B.RunConsistent(before) && B.StepOk(s, before, cause, rows) && B.Standing(before).Some?
    requires Clean(before.rows, B.Standing(before).value)
    ensures Reloads(cause) || Clean(rows, B.Standing(Then(before, cause, rows)).value)
    ensures cause.Loaded? ==> Clean(rows, B.Standing(before).value)
  {
    B.StepKeepsStore(s, before, cause, rows);
    if id :| id in rows && rows[id].state == InProgress {
      B.PendingIs(rows, id);
      if id in before.rows && before.rows[id].state == InProgress {
        B.PendingIs(before.rows, id);
      }
    }
  }

  // The skip, on a concrete run

  /** A world in which everything succeeds and nobody interferes; the chain's pending sequence is 5. */
  function Calm(): B.World {
    tick => B.Moment(rows => rows, true, Successful, Some(5), None, 1, 1, false, false)
  }

  function CalmSetting(): B.Setting {
    B.Setting(Calm(), true, 0, FeeConfig(10, 10, 1, 0), true)
  }

  const ATTEMPT := Attempt(1, 1, false, AttemptInProgress, [])

  function Unsent(id: Id): Tx {
    Tx(id, 0, Unstarted, None, [])
  }

  function Checked(run: Run<B.Cause>, id: Id): Run<B.Cause> {
    Then(run, B.Checked(id, ATTEMPT, B.Clock(run)), run.rows)
  }

  function WithStarted(run: Run<B.Cause>, id: Id): Run<B.Cause>
    requires B.Next(run).Some?
  {
    var tx := Unsent(id).(sequence := B.Next(run));
    Then(Checked(run, id), B.Started(tx, ATTEMPT), MarkInProgress(run.rows, tx, tx.sequence.value, ATTEMPT))
  }

  function Answered(run: Run<B.Cause>, id: Id): Run<B.Cause> {
    Then(run, B.Sent(id, ATTEMPT, B.Clock(run)), run.rows)
  }

  function WithSent(run: Run<B.Cause>, id: Id, sequence: int): Run<B.Cause> {
    var tx := Tx(id, 0, InProgress, Some(sequence), [ATTEMPT]);
    Then(Answered(run, id), B.HandedOver(tx, ATTEMPT), MarkBroadcast(run.rows, tx, ATTEMPT))
  }

  /** The queue behind the transactions sent so far. */
  ghost predicate Waiting(rows: Rows, id: Id) {
    id in rows && rows[id] == Unsent(id)
  }

  /** A run of that world, where it stands and what it has sent. */
  ghost predicate Reached(run: Run<B.Cause>, next: int, sent: seq<int>, skips: nat) {
    && B.RunOk(CalmSetting(), run) && InLife(run) && B.Next(run) == Some(next) && B.Standing(run) == Some(next)
    && SentInLife(run) == sent && SkipsInLife(run) == skips
  }

  lemma StartsNext(run: Run<B.Cause>, id: Id, next: int, sent: seq<int>, skips: nat)
    requires Reached(run, next, sent, skips) && B.NoneInProgress(run.rows) && Waiting(run.rows, id)
    ensures var started := WithStarted(run, id);
            && Reached(started, next, sent, skips)
            && started.rows == run.rows[id := Tx(id, 0, InProgress, Some(next), [ATTEMPT])]
  {
    var checked := Checked(run, id);
    assert B.RunOk(CalmSetting(), checked) && sent + [] == sent;
    assert Reached(checked, next, sent, skips);
  }

  lemma SendsNext(run: Run<B.Cause>, id: Id, sequence: int, next: int, sent: seq<int>, skips: nat)
    requires Reached(run, next, sent, skips)
    requires id in run.rows && run.rows[id] == Tx(id, 0, InProgress, Some(sequence), [ATTEMPT])
    ensures var longer := WithSent(run, id, sequence);
            && Reached(longer, next + 1, sent + [sequence], skips) && B.NoneInProgress(longer.rows)
            && longer.rows == run.rows[id := SentTx(id, sequence)]
  {
    B.RunIsConsistent(CalmSetting(), run);
    var answered := Answered(run, id);
    assert B.RunOk(CalmSetting(), answered) && sent + [] == sent;
    assert Reached(answered, next, sent, skips);
  }

  function SentTx(id: Id, sequence: int): Tx {
    Tx(id, 0, Unconfirmed, Some(sequence), [ATTEMPT.(state := AttemptBroadcast)])
  }

  /** Four transactions on an empty account whose next sequence is 5. */
  function Queued(): Rows {
    map[1 := Unsent(1), 2 := Unsent(2), 3 := Unsent(3), 4 := Unsent(4)]
  }

  lemma FirstLoad() returns (run: Run<B.Cause>)
    ensures Reached(run, 5, [], 0) && run.rows == Queued() && B.NoneInProgress(run.rows)
  {
    run := Then(Begin(Queued()), B.Loaded(Some(5), 0), Queued());
    assert !B.SomeCounted(Queued(), true);
  }

  /** The restart with 7 in progress: the latest stored sequence is 7, so 8 is loaded. */
  lemma RestartCounts(run: Run<B.Cause>, sent: seq<int>, skips: nat) returns (loaded: Run<B.Cause>)
    requires Reached(run, 7, sent, skips)
    requires 3 in run.rows && run.rows[3].sequence == Some(7) && run.rows[3].state == InProgress
    requires forall id :: id in run.rows && run.rows[id].sequence.Some? ==> run.rows[id].sequence.value <= 7
    ensures Reached(loaded, 8, sent, skips + 1) && loaded.rows == run.rows
  {
    loaded := Then(run, B.Loaded(Some(8), B.Clock(run)), run.rows);
    assert B.Counted(run.rows[3], true) && B.IsLatestRow(run.rows, true, 3);
    assert B.SomeCounted(run.rows, true);
    B.RunIsConsistent(CalmSetting(), run);
    B.PendingIs(run.rows, 3);
  }

  lemma SendsOne(run: Run<B.Cause>, id: Id, next: int, sent: seq<int>, skips: nat) returns (longer: Run<B.Cause>)
    requires Reached(run, next, sent, skips) && B.NoneInProgress(run.rows) && Waiting(run.rows, id)
    ensures Reached(longer, next + 1, sent + [next], skips) && B.NoneInProgress(longer.rows)
    ensures longer.rows == run.rows[id := SentTx(id, next)]
  {
    StartsNext(run, id, next, sent, skips);
    longer := WithStarted(run, id);
    SendsNext(longer, id, next, next, sent, skips);
    longer := WithSent(longer, id, next);
  }

  lemma FirstTwo() returns (run: Run<B.Cause>)
    ensures Reached(run, 7, [5, 6], 0) && B.NoneInProgress(run.rows)
    ensures run.rows == Queued()[1 := SentTx(1, 5)][2 := SentTx(2, 6)]
  {
    run := FirstLoad();
    run := SendsOne(run, 1, 5, [], 0);
    assert [] + [5] == [5] && [5] + [6] == [5, 6];
    assert Waiting(run.rows, 2);
    run := SendsOne(run, 2, 6, [5], 0);
  }

  lemma BeforeRestart() returns (run: Run<B.Cause>)
    ensures Reached(run, 7, [5, 6], 0)
    ensures run.rows == Queued()[1 := SentTx(1, 5)][2 := SentTx(2, 6)][3 := Tx(3, 0, InProgress, Some(7), [ATTEMPT])]
  {
    run := FirstTwo();
    assert Waiting(run.rows, 3);
    StartsNext(run, 3, 7, [5, 6], 0);
    run := WithStarted(run, 3);
  }

  lemma AfterRestart() returns (run: Run<B.Cause>)
    ensures Reached(run, 9, [5, 6, 7], 1) && B.NoneInProgress(run.rows) && Waiting(run.rows, 4)
  {
    run := BeforeRestart();
    run := RestartCounts(run, [5, 6], 0);
    SendsNext(run, 3, 7, 8, [5, 6], 1);
    assert [5, 6] + [7] == [5, 6, 7];
    run := WithSent(run, 3, 7);
  }

  /** The store that counts it does skip: 5, 6 are sent, 7 is started, the process restarts, 7 goes out, 9 is next. */
  lemma CountingSkips() returns (run: Run<B.Cause>)
    ensures B.RunOk(CalmSetting(), run) && InLife(run) && CalmSetting().countsInProgress
    ensures SentInLife(run) == [5, 6, 7, 9] && SkipsInLife(run) == 1
  {
    run := AfterRestart();
    run := SendsOne(run, 4, 9, [5, 6, 7], 1);
  }
}

/**
 How a new highest head travels to the subscribers (handleNewHead and broadcastLoop in
 common/headtracker/head_tracker.go, common/headtracker/head_broadcaster.go), as a state machine over the steps
 that are atomic in the code: one mailbox operation, one critical section, one callback. A head is its number.
 */
module HeadDelivery {
  import opened Options

  const MAILBOX_CAPACITY := 10

  type Subscriber = nat

  /** What one subscriber knows: the head `Subscribe` returned to it, and its callbacks so far. */
  datatype Inbox = Inbox(returned: Option<int>, delivered: seq<int>)

  datatype State = State(
    stored: seq<int>,                       // every head the saver has stored, oldest first
    offered: seq<int>,                      // those that went to the broadcast mailbox
    queue: seq<int>,                        // the broadcast mailbox
    held: Option<int>,                      // retrieved by the broadcast loop, not yet handed on
    slot: Option<int>,                      // the broadcaster's one-place mailbox
    retrieved: Option<int>,                 // retrieved by executeCallbacks, before its critical section
    latest: Option<int>,
    callbacks: set<Subscriber>,
    pending: set<Subscriber>,               // callbacks still to be made with `latest`
    lastCallbackID: nat,
    inboxes: map<Subscriber, Inbox>)

  datatype Event =
    | Arrive(number: int, isStored: bool)   // handleNewHead; saving may fail or be cancelled
    | RetrieveNext                          // broadcastLoop without sampling
    | RetrieveLatest                        // with sampling: the newest, and the mailbox cleared
    | Broadcast                             // BroadcastNewLongestChain
    | TakeSlot                              // executeCallbacks retrieves
    | Capture                               // its critical section: the callbacks, and `latest`
    | Callback(id: Subscriber)              // one of the goroutines it starts and waits for
    | Subscribe
    | Unsubscribe(id: Subscriber)
    | Close

  /** `LatestChain`: the highest number stored. */
  function Highest(stored: seq<int>): Option<int> {
    if stored == [] then None
    else
      var n := |stored| - 1;
      var before := Highest(stored[..n]);
      if before.Some? && before.value >= stored[n] then before else Some(stored[n])
  }

  /** A full mailbox drops its oldest item. */
  function Deliver(queue: seq<int>, number: int): seq<int> {
    (if |queue| >= MAILBOX_CAPACITY then queue[|queue| - MAILBOX_CAPACITY + 1..] else queue) + [number]
  }

  function Step(s: State, e: Event): State {
    match e
    case Arrive(number, isStored) =>
      var prev := Highest(s.stored);
      if !isStored then s
      else if prev.None? || number > prev.value then
        s.(stored := s.stored + [number], offered := s.offered + [number], queue := Deliver(s.queue, number))
      else s.(stored := s.stored + [number])
    case RetrieveNext =>
      if s.held.None? && s.queue != [] then s.(held := Some(s.queue[0]), queue := s.queue[1..]) else s
    case RetrieveLatest =>
      if s.held.None? && s.queue != [] then s.(held := Some(s.queue[|s.queue| - 1]), queue := []) else s
    case Broadcast =>
      if s.held.Some? then s.(slot := s.held, held := None) else s
    case TakeSlot =>
      if s.slot.Some? && s.retrieved.None? && s.pending == {} then s.(retrieved := s.slot, slot := None) else s
    case Capture =>
      if s.retrieved.Some? then s.(latest := s.retrieved, retrieved := None, pending := s.callbacks) else s
    case Callback(id) =>
      if id in s.pending && s.latest.Some? && id in s.inboxes then
        s.(pending := s.pending - {id},
           inboxes := s.inboxes[id := s.inboxes[id].(delivered := s.inboxes[id].delivered + [s.latest.value])])
      else s
    case Subscribe =>
      var id := s.lastCallbackID + 1;
      s.(lastCallbackID := id, callbacks := s.callbacks + {id}, inboxes := s.inboxes[id := Inbox(s.latest, [])])
    case Unsubscribe(id) => s.(callbacks := s.callbacks - {id})
    case Close => s.(callbacks := {})
  }

  function After(s: State, events: seq<Event>): State
    decreases |events|
  {
    if events == [] then s else After(Step(s, events[0]), events[1..])
  }

  /** The start: the saver may have loaded any heads, and nobody has subscribed. */
  function Started(loaded: seq<int>): State {
    State(loaded, [], [], None, None, None, None, {}, {}, 0, map[])
  }

  function AsSeq(o: Option<int>): seq<int> {
    if o.Some? then [o.value] else []
  }

  /** Everything on its way, oldest first. */
  function Pipeline(s: State): seq<int> {
    AsSeq(s.latest) + AsSeq(s.retrieved) + AsSeq(s.slot) + AsSeq(s.held) + s.queue
  }

  predicate Increasing(s: seq<int>) {
    forall i, j :: 0 <= i < j < |s| ==> s[i] < s[j]
  }

  /** The callbacks rise strictly, from above the head that `Subscribe` returned. */
  predicate InboxRises(inbox: Inbox) {
    && Increasing(inbox.delivered)
    && (inbox.returned.Some? ==> forall i :: 0 <= i < |inbox.delivered| ==> inbox.returned.value < inbox.delivered[i])
  }

  /** The newest head the subscriber knows of. */
  function Newest(inbox: Inbox): Option<int> {
    if inbox.delivered != [] then Some(inbox.delivered[|inbox.delivered| - 1]) else inbox.returned
  }

  predicate Below(o: Option<int>, number: int) {
    o.Some? ==> o.value < number
  }

  /** What is on its way rises, was offered, and ends with the last head offered; what was offered was stored. */
  ghost predicate PipeOk(pipe: seq<int>, offered: seq<int>, stored: seq<int>) {
    && Increasing(offered) && Increasing(pipe)
    && (forall i :: 0 <= i < |pipe| ==> pipe[i] in offered)
    && (forall i :: 0 <= i < |offered| ==> offered[i] in stored)
    && (offered != [] ==> pipe != [] && pipe[|pipe| - 1] == offered[|offered| - 1])
  }

  /** A subscriber still to be called knows nothing as new as `latest`; one that is not knows nothing newer. */
  ghost predicate InboxOk(inbox: Inbox, isCallback: bool, isPending: bool, latest: Option<int>, offered: seq<int>) {
    && InboxRises(inbox)
    && (forall i :: 0 <= i < |inbox.delivered| ==> inbox.delivered[i] in offered)
    && (Newest(inbox).Some? ==> latest.Some? && Newest(inbox).value <= latest.value)
    && (isPending ==> latest.Some? && Below(Newest(inbox), latest.value))
    && (isCallback && !isPending && latest.Some? ==> Newest(inbox) == latest)
  }

  ghost predicate InboxesOk(s: State) {
    && s.callbacks + s.pending <= s.inboxes.Keys
    && (forall id :: id in s.inboxes ==>
          && id <= s.lastCallbackID
          && InboxOk(s.inboxes[id], id in s.callbacks, id in s.pending, s.latest, s.offered))
  }

  /** A capture comes only once the previous one has been delivered. */
  ghost predicate Ok(s: State) {
    && PipeOk(Pipeline(s), s.offered, s.stored)
    && InboxesOk(s)
    && (s.latest.Some? ==> s.latest.value in s.offered)
    && (s.retrieved.Some? ==> s.pending == {})
  }

  lemma {:induction false} HighestIsMax(stored: seq<int>)
    ensures Highest(stored).None? <==> stored == []
    ensures Highest(stored).Some? ==> Highest(stored).value in stored
    ensures forall i :: 0 <= i < |stored| ==> stored[i] <= Highest(stored).value
  {
    if stored != [] {
      var n := |stored| - 1;
      HighestIsMax(stored[..n]);
      assert forall i :: 0 <= i < n ==> stored[i] == stored[..n][i];
    }
  }

  /** A head is offered exactly when its number exceeds all that were stored before. */
  lemma OfferedIsNewHighest(s: State, number: int)
    ensures Step(s, Arrive(number, true)).offered != s.offered <==>
        forall i :: 0 <= i < |s.stored| ==> s.stored[i] < number
  {
    HighestIsMax(s.stored);
    assert |s.offered + [number]| != |s.offered|;
  }

  lemma IncreasingParts(a: seq<int>, b: seq<int>, c: seq<int>)
    requires Increasing(a + b + c)
    ensures Increasing(a + c)
  {
    var abc, ac := a + b + c, a + c;
    forall i, j | 0 <= i < j < |ac| ensures ac[i] < ac[j] {
      var i', j' := if i < |a| then i else i + |b|, if j < |a| then j else j + |b|;
      assert ac[i] == abc[i'] && ac[j] == abc[j'];
    }
  }

  /** Dropping older items from the pipeline is harmless. */
  lemma Drop(a: seq<int>, b: seq<int>, c: seq<int>, offered: seq<int>, stored: seq<int>)
    requires PipeOk(a + b + c, offered, stored) && (c == [] ==> b == [])
    ensures PipeOk(a + c, offered, stored)
  {
    IncreasingParts(a, b, c);
    forall i | 0 <= i < |a + c| ensures (a + c)[i] in offered {
      assert (a + c)[i] == (a + b + c)[if i < |a| then i else i + |b|];
    }
    if c == [] {
      assert a + b + c == a + c;
    } else {
      assert (a + b + c)[|a + b + c| - 1] == c[|c| - 1] == (a + c)[|a + c| - 1];
    }
  }

  lemma Dropped(before: seq<int>, after: seq<int>, a: seq<int>, b: seq<int>, c: seq<int>, offered: seq<int>,
      stored: seq<int>)
    requires before == a + b + c && after == a + c && c != [] && PipeOk(before, offered, stored)
    ensures PipeOk(after, offered, stored)
  {
    Drop(a, b, c, offered, stored);
  }

  lemma Append(pipe: seq<int>, offered: seq<int>, stored: seq<int>, number: int)
    requires PipeOk(pipe, offered, stored) && forall i :: 0 <= i < |stored| ==> stored[i] < number
    ensures PipeOk(pipe + [number], offered + [number], stored + [number])
  {
    assert forall i :: 0 <= i < |offered| ==> offered[i] in stored && offered[i] < number;
    assert forall i :: 0 <= i < |pipe| ==> pipe[i] in offered && pipe[i] < number;
  }

  lemma ArriveKeepsPipe(s: State, number: int)
    requires PipeOk(Pipeline(s), s.offered, s.stored)
    requires Highest(s.stored).Some? ==> number > Highest(s.stored).value
    ensures var t := Step(s, Arrive(number, true)); PipeOk(Pipeline(t), t.offered, t.stored)
  {
    HighestIsMax(s.stored);
    var front := AsSeq(s.latest) + AsSeq(s.retrieved) + AsSeq(s.slot) + AsSeq(s.held);
    Append(front + s.queue, s.offered, s.stored, number);
    Assoc(front, s.queue, [number]);
    DeliverDrops(front, s.queue, number, s.offered + [number], s.stored + [number]);
  }

  lemma DeliverDrops(front: seq<int>, queue: seq<int>, number: int, offered: seq<int>, stored: seq<int>)
    requires PipeOk(front + (queue + [number]), offered, stored)
    ensures PipeOk(front + Deliver(queue, number), offered, stored)
  {
    var n := if |queue| >= MAILBOX_CAPACITY then |queue| - MAILBOX_CAPACITY + 1 else 0;
    var dropped, kept := queue[..n], queue[n..] + [number];
    assert queue + [number] == dropped + kept;
    Assoc(front, dropped, kept);
    Drop(front, dropped, kept, offered, stored);
    assert queue[0..] == queue;
  }

  lemma Assoc(a: seq<int>, b: seq<int>, c: seq<int>)
    ensures a + (b + c) == a + b + c
  {
  }

  lemma SplitAt(queue: seq<int>, n: nat)
    requires n < |queue|
    ensures queue == queue[..n] + queue[n..] && queue[n..] == [queue[n]] + queue[n + 1..]
  {
  }

  lemma RetrieveDropsOlder(s: State, e: Event) returns (a: seq<int>, b: seq<int>, c: seq<int>)
    requires (e.RetrieveNext? || e.RetrieveLatest?) && s.held.None? && s.queue != []
    ensures Pipeline(s) == a + b + c && Pipeline(Step(s, e)) == a + c && c != []
  {
    var n := if e.RetrieveNext? then 0 else |s.queue| - 1;
    a, b, c := AsSeq(s.latest) + AsSeq(s.retrieved) + AsSeq(s.slot), s.queue[..n], s.queue[n..];
    SplitAt(s.queue, n);
    Assoc(a, b, c);
    Assoc(a, [s.queue[n]], s.queue[n + 1..]);
    Assoc(a, [], s.queue);
    Assoc(a, [s.queue[n]], Step(s, e).queue);
    assert Step(s, e).queue == s.queue[n + 1..];
  }

  lemma RetrieveKeepsPipe(s: State, e: Event)
    requires PipeOk(Pipeline(s), s.offered, s.stored) && (e.RetrieveNext? || e.RetrieveLatest?)
    requires s.held.None? && s.queue != []
    ensures PipeOk(Pipeline(Step(s, e)), s.offered, s.stored)
  {
    var a, b, c := RetrieveDropsOlder(s, e);
    Dropped(Pipeline(s), Pipeline(Step(s, e)), a, b, c, s.offered, s.stored);
  }

  lemma BroadcastDropsSlot(s: State) returns (a: seq<int>, b: seq<int>, c: seq<int>)
    requires s.held.Some?
    ensures Pipeline(s) == a + b + c && Pipeline(Step(s, Broadcast)) == a + c && c != []
  {
    a, b, c := AsSeq(s.latest) + AsSeq(s.retrieved), AsSeq(s.slot), AsSeq(s.held) + s.queue;
  }

  lemma BroadcastKeepsPipe(s: State)
    requires PipeOk(Pipeline(s), s.offered, s.stored) && s.held.Some?
    ensures PipeOk(Pipeline(Step(s, Broadcast)), s.offered, s.stored)
  {
    var a, b, c := BroadcastDropsSlot(s);
    Dropped(Pipeline(s), Pipeline(Step(s, Broadcast)), a, b, c, s.offered, s.stored);
  }

  lemma TakeSlotKeepsPipe(s: State)
    ensures Pipeline(Step(s, TakeSlot)) == Pipeline(s)
  {
  }

  lemma FromFront(l: seq<int>, r: seq<int>, slot: seq<int>, held: seq<int>, queue: seq<int>)
    ensures l + r + slot + held + queue == [] + l + (r + slot + held + queue)
    ensures [] + r + slot + held + queue == [] + (r + slot + held + queue)
  {
    Assoc(l, r, slot);
    Assoc(l, r + slot, held);
    Assoc(l, r + slot + held, queue);
    assert [] + l == l && [] + r == r;
  }

  lemma CaptureDropsLatest(s: State) returns (a: seq<int>, b: seq<int>, c: seq<int>)
    requires s.retrieved.Some?
    ensures Pipeline(s) == a + b + c && Pipeline(Step(s, Capture)) == a + c && c != []
  {
    a, b, c := [], AsSeq(s.latest), AsSeq(s.retrieved) + AsSeq(s.slot) + AsSeq(s.held) + s.queue;
    FromFront(b, AsSeq(s.retrieved), AsSeq(s.slot), AsSeq(s.held), s.queue);
    assert AsSeq(s.retrieved) + [] == AsSeq(s.retrieved) && [] + AsSeq(s.retrieved) == AsSeq(s.retrieved);
  }

  lemma CaptureKeepsPipe(s: State)
    requires PipeOk(Pipeline(s), s.offered, s.stored) && s.retrieved.Some?
    ensures PipeOk(Pipeline(Step(s, Capture)), s.offered, s.stored)
  {
    var a, b, c := CaptureDropsLatest(s);
    Dropped(Pipeline(s), Pipeline(Step(s, Capture)), a, b, c, s.offered, s.stored);
  }

  lemma CallbackKeepsInbox(inbox: Inbox, isCallback: bool, latest: int, offered: seq<int>)
    requires InboxOk(inbox, isCallback, true, Some(latest), offered) && latest in offered
    ensures InboxOk(inbox.(delivered := inbox.delivered + [latest]), isCallback, false, Some(latest), offered)
  {
    var after := inbox.delivered + [latest];
    forall i | 0 <= i < |inbox.delivered| ensures after[i] < latest {
      var last := |inbox.delivered| - 1;
      assert inbox.delivered[i] <= inbox.delivered[last];
    }
  }

  lemma CallbackIsOk(s: State, id: Subscriber)
    requires Ok(s) && id in s.pending
    ensures InboxesOk(Step(s, Callback(id)))
  {
    CallbackKeepsInbox(s.inboxes[id], id in s.callbacks, s.latest.value, s.offered);
  }

  /** The pipeline has `latest` at its front, so what is captured is newer than what everybody knows. */
  lemma CaptureIsOk(s: State)
    requires Ok(s) && s.retrieved.Some?
    ensures InboxesOk(Step(s, Capture)) && s.retrieved.value in s.offered
  {
    var pipe := Pipeline(s);
    if s.latest.Some? {
      assert pipe[0] == s.latest.value && pipe[1] == s.retrieved.value;
    } else {
      assert pipe[0] == s.retrieved.value;
    }
  }

  lemma NewHeadIsOk(s: State, number: int)
    requires Ok(s) && (Highest(s.stored).Some? ==> number > Highest(s.stored).value)
    ensures Ok(Step(s, Arrive(number, true)))
  {
    ArriveKeepsPipe(s, number);
    ArriveKeepsInboxes(s, number);
  }

  lemma OldHeadIsOk(s: State, number: int)
    requires Ok(s) && Highest(s.stored).Some? && number <= Highest(s.stored).value
    ensures Ok(Step(s, Arrive(number, true)))
  {
    ArriveKeepsInboxes(s, number);
    StoredGrows(Pipeline(s), s.offered, s.stored, number);
    assert Pipeline(Step(s, Arrive(number, true))) == Pipeline(s);
  }

  lemma StoredGrows(pipe: seq<int>, offered: seq<int>, stored: seq<int>, number: int)
    requires PipeOk(pipe, offered, stored)
    ensures PipeOk(pipe, offered, stored + [number])
  {
  }

  lemma ArriveIsOk(s: State, number: int)
    requires Ok(s)
    ensures Ok(Step(s, Arrive(number, true)))
  {
    if Highest(s.stored).None? || number > Highest(s.stored).value {
      NewHeadIsOk(s, number);
    } else {
      OldHeadIsOk(s, number);
    }
  }

  lemma ArriveKeepsInboxes(s: State, number: int)
    requires InboxesOk(s)
    ensures InboxesOk(Step(s, Arrive(number, true)))
  {
    var offered := Step(s, Arrive(number, true)).offered;
    forall id | id in s.inboxes
      ensures InboxOk(s.inboxes[id], id in s.callbacks, id in s.pending, s.latest, offered)
    {
      OfferedGrows(s.inboxes[id], id in s.callbacks, id in s.pending, s.latest, s.offered, offered);
    }
  }

  lemma OfferedGrows(inbox: Inbox, isCallback: bool, isPending: bool, latest: Option<int>, offered: seq<int>,
      more: seq<int>)
    requires InboxOk(inbox, isCallback, isPending, latest, offered)
    requires forall n :: n in offered ==> n in more
    ensures InboxOk(inbox, isCallback, isPending, latest, more)
  {
  }

  lemma LeavingKeepsInbox(inbox: Inbox, isCallback: bool, isPending: bool, latest: Option<int>, offered: seq<int>)
    requires InboxOk(inbox, isCallback, isPending, latest, offered)
    ensures InboxOk(inbox, false, isPending, latest, offered)
  {
  }

  lemma NewInboxIsOk(latest: Option<int>, offered: seq<int>)
    ensures InboxOk(Inbox(latest, []), true, false, latest, offered)
  {
  }

  lemma SubscribersKeepInboxes(s: State, e: Event)
    requires InboxesOk(s) && (e.Subscribe? || e.Unsubscribe? || e.Close?)
    ensures InboxesOk(Step(s, e))
  {
    var t := Step(s, e);
    NewInboxIsOk(s.latest, s.offered);
    forall id | id in t.inboxes
      ensures InboxOk(t.inboxes[id], id in t.callbacks, id in t.pending, t.latest, t.offered)
    {
      if id in s.inboxes {
        LeavingKeepsInbox(s.inboxes[id], id in s.callbacks, id in s.pending, s.latest, s.offered);
      }
    }
  }

  /** Only the inboxes are affected. */
  lemma SamePipeIsOk(s: State, t: State)
    requires Ok(s) && InboxesOk(t) && t.retrieved == s.retrieved && t.pending <= s.pending
    requires t.stored == s.stored && t.offered == s.offered && t.queue == s.queue
    requires t.held == s.held && t.slot == s.slot && t.latest == s.latest
    ensures Ok(t)
  {
    assert Pipeline(t) == Pipeline(s);
  }

  lemma SubscribeIsOk(s: State)
    requires Ok(s)
    ensures Ok(Step(s, Subscribe))
  {
    SubscribersKeepInboxes(s, Subscribe);
    SamePipeIsOk(s, Step(s, Subscribe));
  }

  lemma UnsubscribeIsOk(s: State, id: Subscriber)
    requires Ok(s)
    ensures Ok(Step(s, Unsubscribe(id)))
  {
    SubscribersKeepInboxes(s, Unsubscribe(id));
    SamePipeIsOk(s, Step(s, Unsubscribe(id)));
  }

  lemma CloseIsOk(s: State)
    requires Ok(s)
    ensures Ok(Step(s, Close))
  {
    SubscribersKeepInboxes(s, Close);
    SamePipeIsOk(s, Step(s, Close));
  }

  /** Only what is on its way to `latest` is affected. */
  lemma SameInboxesAreOk(s: State, t: State)
    requires Ok(s) && PipeOk(Pipeline(t), s.offered, s.stored)
    requires t.stored == s.stored && t.offered == s.offered && t.latest == s.latest
    requires t.lastCallbackID == s.lastCallbackID && t.callbacks == s.callbacks && t.pending == s.pending
    requires t.inboxes == s.inboxes
    requires t.retrieved.Some? ==> t.pending == {}
    ensures Ok(t)
  {
  }

  lemma RetrieveNextIsOk(s: State)
    requires Ok(s) && s.held.None? && s.queue != []
    ensures Ok(Step(s, RetrieveNext))
  {
    RetrieveKeepsPipe(s, RetrieveNext);
    SameInboxesAreOk(s, Step(s, RetrieveNext));
  }

  lemma RetrieveLatestIsOk(s: State)
    requires Ok(s) && s.held.None? && s.queue != []
    ensures Ok(Step(s, RetrieveLatest))
  {
    RetrieveKeepsPipe(s, RetrieveLatest);
    SameInboxesAreOk(s, Step(s, RetrieveLatest));
  }

  lemma BroadcastIsOk(s: State)
    requires Ok(s) && s.held.Some?
    ensures Ok(Step(s, Broadcast))
  {
    BroadcastKeepsPipe(s);
    SameInboxesAreOk(s, Step(s, Broadcast));
  }

  lemma TakeSlotIsOk(s: State)
    requires Ok(s)
    ensures Ok(Step(s, TakeSlot))
  {
    TakeSlotKeepsPipe(s);
    SameInboxesAreOk(s, Step(s, TakeSlot));
  }

  lemma StepIsOk(s: State, e: Event)
    requires Ok(s)
    ensures Ok(Step(s, e))
  {
    match e
    case Arrive(number, isStored) =>
      if isStored {
        ArriveIsOk(s, number);
      }
    case Capture =>
      if s.retrieved.Some? {
        CaptureKeepsPipe(s);
        CaptureIsOk(s);
      }
    case Callback(id) =>
      if id in s.pending {
        CallbackIsOk(s, id);
        SamePipeIsOk(s, Step(s, e));
      }
    case Subscribe => SubscribeIsOk(s);
    case Unsubscribe(id) => UnsubscribeIsOk(s, id);
    case Close => CloseIsOk(s);
    case TakeSlot => TakeSlotIsOk(s);
    case Broadcast =>
      if s.held.Some? {
        BroadcastIsOk(s);
      }
    case RetrieveNext =>
      if s.held.None? && s.queue != [] {
        RetrieveNextIsOk(s);
      }
    case RetrieveLatest =>
      if s.held.None? && s.queue != [] {
        RetrieveLatestIsOk(s);
      }
  }

  lemma {:induction false} RunIsOk(s: State, events: seq<Event>)
    requires Ok(s)
    ensures Ok(After(s, events))
    decreases |events|
  {
    if events != [] {
      StepIsOk(s, events[0]);
      RunIsOk(Step(s, events[0]), events[1..]);
    }
  }

  /**
   For every interleaving: what goes to the broadcast mailbox rises strictly, each subscriber is called with
   strictly rising numbers above the head `Subscribe` returned to it, and never with a head that was not stored.
   */
  lemma DeliveryRises(loaded: seq<int>, events: seq<Event>)
    ensures var s := After(Started(loaded), events);
            && Increasing(s.offered)
            && forall id :: id in s.inboxes ==>
                 && InboxRises(s.inboxes[id])
                 && forall i :: 0 <= i < |s.inboxes[id].delivered| ==> s.inboxes[id].delivered[i] in s.stored
  {
    RunIsOk(Started(loaded), events);
    var s := After(Started(loaded), events);
    assert forall n :: n in s.offered ==> n in s.stored;
  }

  /**
   Heads may be skipped, but never the newest: once everything on its way has arrived, every subscriber that is
   still subscribed knows the last head that was offered.
   */
  lemma NewestArrives(loaded: seq<int>, events: seq<Event>, id: Subscriber)
    requires var s := After(Started(loaded), events);
             && s.queue == [] && s.held.None? && s.slot.None? && s.retrieved.None? && s.pending == {}
             && s.offered != [] && id in s.callbacks
    ensures var s := After(Started(loaded), events);
            id in s.inboxes && Newest(s.inboxes[id]) == Some(s.offered[|s.offered| - 1])
  {
    RunIsOk(Started(loaded), events);
    var s := After(Started(loaded), events);
    assert Pipeline(s) == AsSeq(s.latest);
  }

  /** Up to ten heads wait; only then does a new one push the oldest out. */
  lemma OldestIsDropped(s: State, number: int)
    requires forall i :: 0 <= i < |s.stored| ==> s.stored[i] < number
    requires |s.queue| <= 10
    ensures var t := Step(s, Arrive(number, true));
            t.queue == (if |s.queue| < 10 then s.queue else s.queue[1..]) + [number] && |t.queue| <= 10
  {
    HighestIsMax(s.stored);
  }

  lemma {:induction false} NeverMoreThanTen(s: State, events: seq<Event>)
    requires |s.queue| <= 10
    ensures |After(s, events).queue| <= 10
    decreases |events|
  {
    if events != [] {
      NeverMoreThanTen(Step(s, events[0]), events[1..]);
    }
  }

  /** Who is neither subscribed nor about to be called is never called again. */
  lemma {:induction false} StaysSilent(s: State, events: seq<Event>, id: Subscriber)
    requires id !in s.callbacks && id !in s.pending && id in s.inboxes && id <= s.lastCallbackID
    ensures id in After(s, events).inboxes && After(s, events).inboxes[id] == s.inboxes[id]
    decreases |events|
  {
    if events != [] {
      StaysSilent(Step(s, events[0]), events[1..], id);
    }
  }

  /** After unsubscribing, or after `Close`, nobody is called who was not being called just then. */
  lemma NoCallsAfter(s: State, e: Event, id: Subscriber, events: seq<Event>)
    requires Ok(s) && id in s.inboxes && id !in s.pending && (e == Close || e == Unsubscribe(id))
    ensures var t := After(Step(s, e), events); id in t.inboxes && t.inboxes[id] == s.inboxes[id]
  {
    StaysSilent(Step(s, e), events, id);
  }
}

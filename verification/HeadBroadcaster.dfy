/**
 The methods of common/headtracker/head_broadcaster.go and `handleNewHead` over their fields. The atomic ones
 are proved to be steps of the state machine in HeadDelivery, so what holds for all its runs holds for them.
 */
module HeadBroadcaster {
  import opened Options
  import opened HeadDelivery
  import opened SetFacts

  class HeadTracker {
    var stored: seq<int>
    ghost var offered: seq<int>
    var queue: seq<int>
    var held: Option<int>
    var slot: Option<int>
    var retrieved: Option<int>
    var latest: Option<int>
    var callbacks: set<Subscriber>
    var pending: set<Subscriber>
    var lastCallbackID: nat
    var inboxes: map<Subscriber, Inbox>

    ghost function Abstract(): State
      reads this
    {
      State(stored, offered, queue, held, slot, retrieved, latest, callbacks, pending, lastCallbackID, inboxes)
    }

    /** Part of what every run keeps (`StepIsOk`). */
    ghost predicate Registered()
      reads this
    {
      callbacks + pending <= inboxes.Keys && forall id :: id in inboxes ==> id <= lastCallbackID
    }

    constructor (loaded: seq<int>)
      ensures Abstract() == Started(loaded)
    {
      stored := loaded;
      offered, queue := [], [];
      held, slot, retrieved, latest := None, None, None, None;
      callbacks, pending := {}, {};
      lastCallbackID := 0;
      inboxes := map[];
    }

    /** The saver's `LatestChain`. */
    method LatestChain() returns (highest: Option<int>)
      ensures highest == Highest(stored)
    {
      highest := None;
      for i := 0 to |stored|
        invariant highest == Highest(stored[..i])
      {
        assert stored[..i + 1][..i] == stored[..i];
        if highest.None? || stored[i] > highest.value {
          highest := Some(stored[i]);
        }
      }
      assert stored[..|stored|] == stored;
    }

    /** Whether the saver takes the head is up to the saver; a cancelled context counts as not taken. */
    method HandleNewHead(number: int, isStored: bool)
      modifies this
      ensures Abstract() == Step(old(Abstract()), Arrive(number, isStored))
    {
      var prevHead := LatestChain();
      if !isStored {
        return;
      }
      stored := stored + [number];
      if prevHead.None? || number > prevHead.value {
        offered := offered + [number];
        queue := Deliver(queue, number);
      }
    }

    method BroadcastNewLongestChain()
      requires held.Some?
      modifies this
      ensures Abstract() == Step(old(Abstract()), Broadcast)
    {
      slot := held;
      held := None;
    }

    /** The result stands for the handle with which the caller can unsubscribe; nobody held it before. */
    method SubscribeCallback() returns (current: Option<int>, callbackID: Subscriber)
      requires Registered()
      modifies this
      ensures Abstract() == Step(old(Abstract()), Subscribe)
      ensures current == latest && callbackID in callbacks && callbackID !in old(inboxes)
    {
      current := latest;
      lastCallbackID := lastCallbackID + 1;
      callbackID := lastCallbackID;
      callbacks := callbacks + {callbackID};
      inboxes := inboxes[callbackID := Inbox(current, [])];
    }

    method UnsubscribeCallback(callbackID: Subscriber)
      modifies this
      ensures Abstract() == Step(old(Abstract()), Unsubscribe(callbackID))
    {
      callbacks := callbacks - {callbackID};
    }

    method CallOne(id: Subscriber)
      requires Registered() && id in pending && latest.Some?
      modifies `pending, `inboxes
      ensures Abstract() == Step(old(Abstract()), Callback(id))
    {
      pending := pending - {id};
      inboxes := inboxes[id := inboxes[id].(delivered := inboxes[id].delivered + [latest.value])];
    }

    method Capture()
      requires slot.Some? && retrieved.None? && pending == {}
      modifies `retrieved, `slot, `latest, `pending
      ensures Abstract() == Step(Step(old(Abstract()), TakeSlot), HeadDelivery.Capture)
    {
      retrieved, slot := slot, None;
      latest, retrieved, pending := retrieved, None, callbacks;
    }

    /**
     One pass of `executeCallbacks`: every subscriber there is at the critical section is called once with the
     head that was waiting, in any order, and nobody else is called. The steps are in `events`.
     */
    method ExecuteCallbacks() returns (ghost events: seq<Event>)
      requires Registered() && retrieved.None? && pending == {}
      modifies this
      ensures Abstract() == After(old(Abstract()), events)
      ensures retrieved.None? && pending == {} && slot.None? && callbacks == old(callbacks)
      ensures latest == if old(slot).Some? then old(slot) else old(latest)
      ensures inboxes.Keys == old(inboxes.Keys)
      ensures forall id :: id in inboxes ==>
          inboxes[id] == Called(old(inboxes[id]), old(slot).Some? && id in callbacks, latest)
    {
      events := [];
      if slot.None? {
        return;
      }
      Capture();
      events := [TakeSlot, HeadDelivery.Capture];
      AfterTwo(old(Abstract()), TakeSlot, HeadDelivery.Capture);
      while pending != {}
        invariant Registered() && retrieved.None? && slot.None? && latest == old(slot) && latest.Some?
        invariant Abstract() == After(old(Abstract()), events)
        invariant callbacks == old(callbacks) && inboxes.Keys == old(inboxes.Keys) && pending <= callbacks
        invariant forall id :: id in inboxes ==>
            inboxes[id] == Called(old(inboxes[id]), id in callbacks - pending, latest)
        decreases pending
      {
        var id := PickAny(pending);
        CallOne(id);
        AfterOneMore(old(Abstract()), events, Callback(id));
        events := events + [Callback(id)];
      }
    }
  }

  function Called(inbox: Inbox, called: bool, latest: Option<int>): Inbox
    requires called ==> latest.Some?
  {
    if called then inbox.(delivered := inbox.delivered + [latest.value]) else inbox
  }

  lemma {:induction false} AfterOneMore(s: State, events: seq<Event>, e: Event)
    ensures After(s, events + [e]) == Step(After(s, events), e)
    decreases |events|
  {
    if events == [] {
      assert events + [e] == [e];
      assert After(s, [e]) == After(Step(s, e), [e][1..]);
    } else {
      assert (events + [e])[1..] == events[1..] + [e];
      AfterOneMore(Step(s, events[0]), events[1..], e);
    }
  }

  lemma AfterTwo(s: State, first: Event, second: Event)
    ensures After(s, [first, second]) == Step(Step(s, first), second)
  {
    assert After(s, [first]) == After(Step(s, first), [first][1..]);
    assert [first] + [second] == [first, second];
    AfterOneMore(s, [first], second);
  }
}

/**
 The transaction manager's run loop (common/txmgr/txmgr.go): resets and key changes stop the
 Broadcaster and the Confirmer and start them again, while the stop signal may come at any moment.
 */
module Txm {
  datatype Error = NoError | TxmWasStopped | AbandonFailed

  /** A run of the reset callback, and which services were running then. */
  datatype CallbackRun = CallbackRun(broadcasterRunning: bool, confirmerRunning: bool)

  /** What the run loop finds ready; changed keys may fail to load. */
  datatype Event = ResetAsked | KeysChanged(loaded: bool) | StopReady | Other

  function CountResets(events: seq<Event>): nat {
    if events == [] then 0 else CountResets(events[..|events| - 1]) + if events[|events| - 1].ResetAsked? then 1 else 0
  }

  function CountReloads(events: seq<Event>): nat {
    if events == [] then 0
    else CountReloads(events[..|events| - 1]) + if events[|events| - 1] == KeysChanged(true) then 1 else 0
  }

  function CountRun(answers: seq<Error>): nat {
    if answers == [] then 0 else CountRun(answers[..|answers| - 1]) + if answers[|answers| - 1] == NoError then 1 else 0
  }

  class Service {
    var isStarted: bool
    ghost var starts: nat

    constructor ()
      ensures isStarted && starts == 1
    {
      isStarted, starts := true, 1;
    }

    /** Fails if it is already started, or for reasons of its own. */
    method StartInternal(mayFail: bool) returns (failed: bool)
      modifies this
      ensures old(isStarted) ==> failed
      ensures isStarted == (old(isStarted) || !failed)
      ensures starts == old(starts) + if failed then 0 else 1
      ensures !mayFail && !old(isStarted) ==> !failed
    {
      if isStarted {
        return true;
      }
      var keysLoaded: bool := *;
      if mayFail && !keysLoaded {
        return true;
      }
      isStarted, starts := true, starts + 1;
      failed := false;
    }

    method CloseInternal() returns (failed: bool)
      modifies this
      ensures failed <==> !old(isStarted)
      ensures !isStarted && starts == old(starts)
    {
      failed := !isStarted;
      isStarted := false;
    }
  }

  class Txm {
    const broadcaster: Service
    const confirmer: Service
    var chStopClosed: bool
    var stopped: bool
    ghost var callbacks: seq<CallbackRun>

    /** At the top of the run loop: both services run, unless a reset was cut short by the stop signal. */
    ghost predicate Valid()
      reads this, broadcaster, confirmer
    {
      && broadcaster != confirmer
      && (stopped || (broadcaster.isStarted && confirmer.isStarted))
      && (stopped ==> chStopClosed)
      && CallbacksAlone()
    }

    ghost predicate CallbacksAlone()
      reads this
    {
      forall i :: 0 <= i < |callbacks| ==> !callbacks[i].broadcasterRunning && !callbacks[i].confirmerRunning
    }

    /** Both services have been started once more. */
    ghost predicate Restarted(broadcasterStarts: nat, confirmerStarts: nat)
      reads this, broadcaster, confirmer
    {
      broadcaster.starts == broadcasterStarts + 1 && confirmer.starts == confirmerStarts + 1
    }

    ghost predicate Untouched(broadcasterStarts: nat, confirmerStarts: nat)
      reads this, broadcaster, confirmer
    {
      broadcaster.starts == broadcasterStarts && confirmer.starts == confirmerStarts
    }

    constructor ()
      ensures Valid() && fresh(broadcaster) && fresh(confirmer) && !stopped && callbacks == []
    {
      broadcaster := new Service();
      confirmer := new Service();
      chStopClosed, stopped, callbacks := false, false, [];
    }

    /** `Close` may be called at any moment. */
    method Interfere()
      modifies `chStopClosed
      ensures old(chStopClosed) ==> chStopClosed
    {
      var closing: bool := *;
      chStopClosed := chStopClosed || closing;
    }

    /**
     Retries until the service has started or the stop signal is seen. The source retries without end;
     here the service fails to start at most `failures` times.
     */
    method StartWithRetries(service: Service, failures: nat)
      requires !service.isStarted
      modifies service, `chStopClosed, `stopped
      ensures old(chStopClosed) ==> chStopClosed
      ensures old(stopped) ==> stopped
      ensures service.isStarted || (stopped && chStopClosed)
      ensures service.starts == old(service.starts) + if service.isStarted then 1 else 0
      ensures !service.isStarted || stopped == old(stopped)
      ensures stopped ==> old(stopped) || chStopClosed
    {
      var left := failures;
      while true
        invariant !service.isStarted && service.starts == old(service.starts)
        invariant old(chStopClosed) ==> chStopClosed
        invariant stopped == old(stopped)
        decreases left
      {
        Interfere();
        var seen: bool := *;
        if chStopClosed && seen {
          stopped := true;
          return;
        }
        var failed := service.StartInternal(left > 0);
        if !failed {
          return;
        }
        left := left - 1;
      }
    }

    /** Stops both services, runs the callback, and starts both again. If closing fails, the source panics. */
    method ExecReset(withCallback: bool, failures: nat) returns (callbackFailed: bool)
      requires Valid() && !stopped
      modifies this, broadcaster, confirmer
      ensures Valid()
      ensures old(chStopClosed) ==> chStopClosed
      ensures !chStopClosed ==> !stopped
      ensures callbacks == old(callbacks) + if withCallback then [CallbackRun(false, false)] else []
      ensures !withCallback ==> !callbackFailed
      ensures !stopped ==> Restarted(old(broadcaster.starts), old(confirmer.starts))
    {
      var failed := broadcaster.CloseInternal();
      assert !failed;
      failed := confirmer.CloseInternal();
      assert !failed;
      callbackFailed := false;
      if withCallback {
        callbacks := callbacks + [CallbackRun(broadcaster.isStarted, confirmer.isStarted)];
        callbackFailed := *;
      }
      StartWithRetries(broadcaster, failures);
      StartWithRetries(confirmer, failures);
    }

    /**
     `Reset` with an abandon callback, as its caller sees it. The callback's error is stored in the same
     variable as the answer on the `done` channel, which overwrites it: the caller learns only whether the
     transaction manager was stopped, never that abandoning failed.
     */
    method Reset(failures: nat) returns (err: Error, callbackFailed: bool)
      requires Valid()
      modifies this, broadcaster, confirmer
      ensures Valid()
      ensures old(chStopClosed) ==> chStopClosed
      ensures err == if old(stopped) then TxmWasStopped else NoError
      ensures callbacks == old(callbacks) + if old(stopped) then [] else [CallbackRun(false, false)]
      ensures old(stopped) ==> stopped && Untouched(old(broadcaster.starts), old(confirmer.starts))
      ensures !stopped ==> Restarted(old(broadcaster.starts), old(confirmer.starts))
    {
      err, callbackFailed := NoError, false;
      if stopped {
        err := TxmWasStopped;
        return;
      }
      callbackFailed := ExecReset(true, failures);
      if callbackFailed {
        err := AbandonFailed;
      }
      err := NoError;
    }

    /** With the keys reloaded, both services start over on them. */
    method ReloadKeys(loaded: bool, failures: nat)
      requires Valid()
      modifies this, broadcaster, confirmer
      ensures Valid() && callbacks == old(callbacks) && (old(chStopClosed) ==> chStopClosed)
      ensures old(stopped) || !loaded ==>
                stopped == old(stopped) && Untouched(old(broadcaster.starts), old(confirmer.starts))
      ensures !stopped && loaded ==> Restarted(old(broadcaster.starts), old(confirmer.starts))
    {
      if stopped {
        return;
      }
      if !loaded {
        return;
      }
      var _ := ExecReset(false, failures);
    }

    /** The stop case: whatever still runs is closed; a service that never came back is already stopped. */
    method StopServices()
      requires Valid() && chStopClosed
      modifies broadcaster, confirmer
      ensures !broadcaster.isStarted && !confirmer.isStarted
      ensures Untouched(old(broadcaster.starts), old(confirmer.starts))
    {
      var _ := broadcaster.CloseInternal();
      var _ := confirmer.CloseInternal();
    }

    /**
     Any number of rounds, each taking whichever event is ready. `answers` are what the callers of `Reset` are told, in
     order; `taken` rounds were made, and the loop ends early only in the stop case.
     */
    method RunLoop(events: seq<Event>, failures: nat) returns (answers: seq<Error>, taken: nat)
      requires Valid()
      modifies this, broadcaster, confirmer
      ensures taken <= |events| && CallbacksAlone()
      ensures |answers| == CountResets(events[..taken]) && |callbacks| == |old(callbacks)| + CountRun(answers)
      ensures if taken == |events| then Valid()
              else events[taken] == StopReady && chStopClosed && !broadcaster.isStarted && !confirmer.isStarted
      ensures old(chStopClosed) ==> StopReady !in events[..taken]
      ensures !stopped ==>
                && (forall i :: 0 <= i < |answers| ==> answers[i] == NoError)
                && InStep(old(broadcaster.starts), old(confirmer.starts), events[..taken])
    {
      answers := [];
      for i := 0 to |events|
        invariant Valid() && |callbacks| == |old(callbacks)| + CountRun(answers)
        invariant old(chStopClosed) ==> chStopClosed && StopReady !in events[..i]
        invariant Told(answers, events[..i])
        invariant !stopped ==> InStep(old(broadcaster.starts), old(confirmer.starts), events[..i])
      {
        assert events[..i + 1] == events[..i] + [events[i]];
        Interfere();
        if events[i] == StopReady && chStopClosed {
          StopServices();
          return answers, i;
        }
        answers := TakeEvent(events[i], answers, failures, old(broadcaster.starts), old(confirmer.starts), events[..i]);
      }
      taken := |events|;
      assert events[..|events|] == events;
    }

    /** A round that does not end the loop. */
    method TakeEvent(event: Event, before: seq<Error>, failures: nat, ghost broadcasterStarts: nat,
        ghost confirmerStarts: nat, ghost events: seq<Event>)
      returns (answers: seq<Error>)
      requires Valid() && (!stopped ==> InStep(broadcasterStarts, confirmerStarts, events))
      requires (event == StopReady ==> !chStopClosed) && Told(before, events)
      modifies this, broadcaster, confirmer
      ensures Valid() && (old(chStopClosed) ==> chStopClosed) && (old(stopped) ==> stopped)
      ensures answers == before + if event == ResetAsked then [if old(stopped) then TxmWasStopped else NoError] else []
      ensures |callbacks| - CountRun(answers) == |old(callbacks)| - CountRun(before)
      ensures Told(answers, events + [event])
      ensures !stopped ==> InStep(broadcasterStarts, confirmerStarts, events + [event])
    {
      assert (events + [event])[..|events|] == events;
      answers := before;
      match event {
        case ResetAsked =>
          var answer, _ := Reset(failures);
          answers := before + [answer];
          assert answers[..|before|] == before;
        case KeysChanged(loaded) =>
          ReloadKeys(loaded, failures);
        case StopReady | Other =>
      }
    }

    /** Every reset was answered, and none was refused before the stop signal was seen. */
    ghost predicate Told(answers: seq<Error>, events: seq<Event>)
      reads this
    {
      && |answers| == CountResets(events)
      && (!stopped ==> forall k :: 0 <= k < |answers| ==> answers[k] == NoError)
    }

    /** Each service has been started once for every reset and every reload since. */
    ghost predicate InStep(broadcasterStarts: nat, confirmerStarts: nat, events: seq<Event>)
      reads this, broadcaster, confirmer
    {
      && broadcaster.starts == broadcasterStarts + CountResets(events) + CountReloads(events)
      && confirmer.starts == confirmerStarts + CountResets(events) + CountReloads(events)
    }
  }
}

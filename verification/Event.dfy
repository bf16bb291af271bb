/** The resettable event: its locked blocks and its class. */
module Event {
  import opened Common

  datatype EventState = EventState(signaled: bool, waiters: seq<Handle>)

  function OnWaitSuspend(e: EventState, h: Handle): (EventState, bool) {
    if e.signaled then (e, false) else (e.(waiters := e.waiters + [h]), true)
  }

  /** Set takes all waiters; the handles are resumed after unlocking. */
  function OnSet(e: EventState): (EventState, seq<Handle>) {
    if e.signaled then (e, []) else (EventState(true, []), e.waiters)
  }

  function OnReset(e: EventState): EventState {
    e.(signaled := false)
  }

  class AsyncEvent {
    var signaled: bool
    var waiters: seq<Handle>

    ghost function State(): EventState
      reads this
    {
      EventState(signaled, waiters)
    }

    constructor ()
      ensures State() == EventState(false, [])
    {
      signaled, waiters := false, [];
    }

    method AwaitReady() returns (ready: bool)
      ensures ready == State().signaled
    {
      ready := signaled;
    }

    method AwaitSuspend(h: Handle) returns (suspended: bool)
      modifies this
      ensures (State(), suspended) == OnWaitSuspend(old(State()), h)
    {
      if signaled { return false; }
      waiters := waiters + [h];
      return true;
    }

    method Set() returns (toWake: seq<Handle>)
      modifies this
      ensures (State(), toWake) == OnSet(old(State()))
    {
      if signaled { return []; }
      signaled := true;
      toWake := waiters;
      waiters := [];
    }

    method Reset()
      modifies this
      ensures State() == OnReset(old(State()))
    {
      signaled := false;
    }
  }
}

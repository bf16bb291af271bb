/** Cancellation: callbacks and their handles in two parallel vectors, and a Cancel in two steps, a
    flag exchange and then a locked drain, racing with registrations and unregistrations. */
module Cancellation {
  import opened Common
  import opened Runs

  /** The fields under the lock. */
  datatype Core<+C> = Core(callbacks: seq<C>, handles: seq<nat>, next: nat)

  function OnPush<C>(c: Core<C>, callback: C): (Core<C>, nat) {
    (Core(c.callbacks + [callback], c.handles + [c.next], c.next + 1), c.next)
  }

  function OnDrain<C>(c: Core<C>): (Core<C>, seq<C>) {
    (c.(callbacks := [], handles := []), c.callbacks)
  }

  function Without<T>(s: seq<T>, i: nat): seq<T>
    requires i < |s|
  {
    s[..i] + s[i + 1..]
  }

  /** Removes the callback registered under h, if it is still there. */
  function OnUnregister<C>(c: Core<C>, h: nat): Core<C>
    requires |c.callbacks| == |c.handles|
  {
    if h == 0 || h !in c.handles then c
    else
      var i := IndexOf(c.handles, h);
      c.(callbacks := Without(c.callbacks, i), handles := Without(c.handles, i))
  }

  lemma {:induction false} FirstIndex(s: seq<nat>, h: nat, i: nat)
    requires i < |s| && s[i] == h && h !in s[..i]
    ensures IndexOf(s, h) == i
  {
    if i > 0 {
      assert s[..i][0] == s[0];
      assert s[1..][..i - 1] == s[..i][1..];
      FirstIndex(s[1..], h, i - 1);
    }
  }

  class CancellationState<C> {
    var cancelled: bool
    var callbacks: seq<C>
    var callbackHandles: seq<nat>
    var nextHandle: nat

    ghost function State(): Core<C>
      reads this
    {
      Core(callbacks, callbackHandles, nextHandle)
    }

    constructor ()
      ensures State() == Core([], [], 1) && !cancelled
    {
      cancelled, callbacks, callbackHandles, nextHandle := false, [], [], 1;
    }

    /** What a Cancel that nothing interrupts does before it calls the callbacks. */
    method Cancel() returns (toCall: seq<C>)
      modifies this
      ensures cancelled
      ensures (State(), toCall) == if old(cancelled) then (old(State()), []) else OnDrain(old(State()))
    {
      if cancelled { return []; }
      cancelled := true;
      toCall := callbacks;
      callbacks := [];
      callbackHandles := [];
    }

    /** The handle, or 0 when the caller has to run the callback itself. */
    method RegisterCallback(callback: C) returns (handle: nat)
      modifies this
      ensures cancelled == old(cancelled)
      ensures (State(), handle) == if cancelled then (old(State()), 0) else OnPush(old(State()), callback)
    {
      if cancelled { return 0; }
      handle := nextHandle;
      nextHandle := nextHandle + 1;
      callbacks := callbacks + [callback];
      callbackHandles := callbackHandles + [handle];
    }

    method UnregisterCallback(handle: nat)
      requires |callbacks| == |callbackHandles|
      modifies this
      ensures cancelled == old(cancelled) && State() == OnUnregister(old(State()), handle)
    {
      if handle == 0 { return; }
      for i := 0 to |callbackHandles|
        invariant State() == old(State()) && cancelled == old(cancelled)
        invariant handle !in callbackHandles[..i]
      {
        if callbackHandles[i] == handle {
          FirstIndex(callbackHandles, handle, i);
          callbacks := callbacks[..i] + callbacks[i + 1..];
          callbackHandles := callbackHandles[..i] + callbackHandles[i + 1..];
          return;
        }
      }
      assert callbackHandles[..|callbackHandles|] == callbackHandles;
    }
  }

  // ---------------------------------------------------------------------------
  // The machine. A callback is named by its registration. The flag is read under the lock but set
  // outside it, so a registration takes the lock, reads the flag, and then pushes and unlocks.
  // ---------------------------------------------------------------------------

  type Id = nat

  datatype Registration = Locked | Pushing | SelfCalling | Registered(handle: nat)

  /** The one Cancel that found the flag clear: not come yet; about to drain; calling; returned. */
  datatype Drain = NoCancel | Draining | Calling(rest: seq<Id>) | Finished

  datatype Sys = Sys(
    cancelled: bool, lock: Option<Id>, core: Core<Id>, regs: map<Id, Registration>, drain: Drain,
    runs: seq<Id>, called: seq<Id>, removed: set<Id>)

  datatype Event =
    | RegisterLock(c: Id) | RegisterLoad(c: Id) | RegisterPush(c: Id) | RegisterCall(c: Id)
    | Unregister(handle: nat)
    | CancelExchange | CancelDrain | CancelCall

  const INIT := Sys(false, None, Core([], [], 1), map[], NoCancel, [], [], {})

  function Step(s: Sys, e: Event): Sys {
    match e
    case RegisterLock(c) =>
      if s.lock == None && c !in s.regs then s.(lock := Some(c), regs := s.regs[c := Locked]) else s
    case RegisterLoad(c) =>
      if c in s.regs && s.regs[c].Locked? then
        if s.cancelled then s.(lock := None, regs := s.regs[c := SelfCalling])
        else s.(regs := s.regs[c := Pushing])
      else s
    case RegisterPush(c) =>
      if c in s.regs && s.regs[c].Pushing? then
        var (core, handle) := OnPush(s.core, c);
        s.(lock := None, core := core, regs := s.regs[c := Registered(handle)])
      else s
    case RegisterCall(c) =>
      if c in s.regs && s.regs[c].SelfCalling? then s.(regs := s.regs[c := Registered(0)], runs := s.runs + [c]) else s
    case Unregister(h) =>
      if s.lock == None && |s.core.callbacks| == |s.core.handles| then
        var core := OnUnregister(s.core, h);
        s.(core := core, removed := s.removed + (Elements(s.core.callbacks) - Elements(core.callbacks)))
      else s
    case CancelExchange =>
      // a Cancel that finds the flag set returns at once
      if s.cancelled then s else s.(cancelled := true, drain := Draining)
    case CancelDrain =>
      if s.drain.Draining? && s.lock == None then
        var (core, cs) := OnDrain(s.core);
        s.(core := core, drain := Calling(cs))
      else s
    case CancelCall =>
      if s.drain.Calling? then
        if s.drain.rest == [] then s.(drain := Finished)
        else
          var c := s.drain.rest[0];
          s.(runs := s.runs + [c], called := s.called + [c], drain := Calling(s.drain.rest[1..]))
      else s
  }

  function Rest(d: Drain): seq<Id> {
    if d.Calling? then d.rest else []
  }

  ghost predicate Increasing(hs: seq<nat>) {
    forall i, j :: 0 <= i < j < |hs| ==> hs[i] < hs[j]
  }

  /** Handles and callbacks correspond position by position, and handles are new each time. */
  ghost predicate VectorsInv(s: Sys) {
    && |s.core.callbacks| == |s.core.handles| && s.core.next > 0
    && Increasing(s.core.handles)
    && (forall h :: h in s.core.handles ==> 0 < h < s.core.next)
    && (forall i :: 0 <= i < |s.core.callbacks| ==> NamedAt(s, i))
    && (forall c :: c in s.regs && s.regs[c].Registered? ==> s.regs[c].handle < s.core.next)
  }

  ghost predicate NamedAt(s: Sys, i: nat)
    requires i < |s.core.callbacks| == |s.core.handles|
  {
    var c := s.core.callbacks[i];
    c in s.regs && s.regs[c] == Registered(s.core.handles[i])
  }

  /** The lock is held by the registration at work under it; after the drain nothing is pushed. */
  ghost predicate LockInv(s: Sys) {
    && (forall c :: c in s.regs && (s.regs[c].Locked? || s.regs[c].Pushing?) ==> s.lock == Some(c))
    && (s.cancelled <==> !s.drain.NoCancel?)
    && (s.drain.Calling? || s.drain.Finished? ==>
          s.core.callbacks == [] && forall c :: c in s.regs ==> !s.regs[c].Pushing?)
  }

  /** A callback whose registration has been decided is in exactly one place. */
  ghost predicate PlacedOnce(s: Sys, c: Id) {
    multiset(s.core.callbacks)[c] + multiset(Rest(s.drain))[c] + multiset(s.runs)[c]
    + (if c in s.removed then 1 else 0)
    + (if c in s.regs && s.regs[c].SelfCalling? then 1 else 0)
    == (if c in s.regs && (s.regs[c].SelfCalling? || s.regs[c].Registered?) then 1 else 0)
  }

  ghost predicate Inv(s: Sys) {
    VectorsInv(s) && LockInv(s) && forall c :: PlacedOnce(s, c)
  }

  lemma UnregisterRemovesOne(core: Core<Id>, h: nat, c: Id)
    requires |core.callbacks| == |core.handles| && multiset(core.callbacks)[c] <= 1
    ensures var t := OnUnregister(core, h);
            multiset(t.callbacks)[c] + (if c in Elements(core.callbacks) - Elements(t.callbacks) then 1 else 0)
            == multiset(core.callbacks)[c]
  {
    if h != 0 && h in core.handles {
      var i := IndexOf(core.handles, h);
      var cs := core.callbacks;
      assert cs == cs[..i] + [cs[i]] + cs[i + 1..];
      assert multiset(cs) == multiset(Without(cs, i)) + multiset{cs[i]};
    }
  }

  lemma RegistrationKeepsPlace(s: Sys, e: Event, c: Id)
    requires PlacedOnce(s, c) && (e.RegisterLock? || e.RegisterLoad? || e.RegisterPush? || e.RegisterCall?)
    ensures PlacedOnce(Step(s, e), c)
  {
  }

  lemma UnregisterKeepsPlace(s: Sys, h: nat, c: Id)
    requires PlacedOnce(s, c)
    ensures PlacedOnce(Step(s, Unregister(h)), c)
  {
    if s.lock == None && |s.core.callbacks| == |s.core.handles| {
      UnregisterRemovesOne(s.core, h, c);
    }
  }

  lemma CancelKeepsPlace(s: Sys, e: Event, c: Id)
    requires PlacedOnce(s, c) && (s.cancelled <==> !s.drain.NoCancel?)
    requires e.CancelExchange? || e.CancelDrain? || e.CancelCall?
    ensures PlacedOnce(Step(s, e), c)
  {
    if e.CancelCall? && s.drain.Calling? && s.drain.rest != [] {
      assert s.drain.rest == [s.drain.rest[0]] + s.drain.rest[1..];
    }
  }

  lemma WithoutKeepsOrder(hs: seq<nat>, i: nat)
    requires Increasing(hs) && i < |hs|
    ensures Increasing(Without(hs, i))
    ensures forall h :: h in Without(hs, i) ==> h in hs
  {
    var ws := Without(hs, i);
    assert forall j :: 0 <= j < |ws| ==> ws[j] == hs[if j < i then j else j + 1];
  }

  lemma UnregisterKeepsVectors(s: Sys, h: nat)
    requires VectorsInv(s) && LockInv(s)
    ensures VectorsInv(Step(s, Unregister(h))) && LockInv(Step(s, Unregister(h)))
  {
    var t := Step(s, Unregister(h));
    var n := if h != 0 && h in s.core.handles && s.lock == None then IndexOf(s.core.handles, h) else |s.core.handles|;
    if n < |s.core.handles| {
      WithoutKeepsOrder(s.core.handles, n);
    }
    forall j | 0 <= j < |t.core.callbacks| ensures NamedAt(t, j) {
      assert NamedAt(s, if j < n then j else j + 1);
    }
  }

  lemma PushKeepsVectors(s: Sys, c: Id)
    requires VectorsInv(s) && LockInv(s)
    ensures VectorsInv(Step(s, RegisterPush(c))) && LockInv(Step(s, RegisterPush(c)))
  {
    var t := Step(s, RegisterPush(c));
    if t != s {
      assert forall i :: 0 <= i < |s.core.handles| ==> s.core.handles[i] in s.core.handles;
      forall i | 0 <= i < |t.core.callbacks| ensures NamedAt(t, i) {
        if i < |s.core.callbacks| {
          assert NamedAt(s, i);
        }
      }
    }
  }

  lemma StepKeepsVectors(s: Sys, e: Event)
    requires VectorsInv(s) && LockInv(s) && !e.Unregister? && !e.RegisterPush?
    ensures VectorsInv(Step(s, e)) && LockInv(Step(s, e))
  {
    var t := Step(s, e);
    forall i | 0 <= i < |t.core.callbacks| ensures NamedAt(t, i) {
      assert NamedAt(s, i);
    }
  }

  lemma StepKeeps(s: Sys, e: Event)
    requires Inv(s)
    ensures Inv(Step(s, e))
  {
    if e.Unregister? {
      UnregisterKeepsVectors(s, e.handle);
    } else if e.RegisterPush? {
      PushKeepsVectors(s, e.c);
    } else {
      StepKeepsVectors(s, e);
    }
    forall c ensures PlacedOnce(Step(s, e), c) {
      match e
      case Unregister(h) => UnregisterKeepsPlace(s, h, c);
      case RegisterLock(_) => RegistrationKeepsPlace(s, e, c);
      case RegisterLoad(_) => RegistrationKeepsPlace(s, e, c);
      case RegisterPush(_) => RegistrationKeepsPlace(s, e, c);
      case RegisterCall(_) => RegistrationKeepsPlace(s, e, c);
      case _ => CancelKeepsPlace(s, e, c);
    }
  }

  // ---------------------------------------------------------------------------
  // Main results
  // ---------------------------------------------------------------------------

  ghost function After(es: seq<Event>): Sys {
    Run(Step, INIT, es)
  }

  lemma Reachable(es: seq<Event>)
    ensures Inv(After(es))
  {
    forall s: Sys, e: Event | Inv(s) ensures Inv(Step(s, e)) {
      StepKeeps(s, e);
    }
    Invariant(Step, s => Inv(s), INIT, es);
  }

  /** Exactly once: in every interleaving no callback runs twice, none that was unregistered in time
      runs at all, and when the Cancel that set the flag has returned, every callback whose
      registration has returned has run, unless it was unregistered before the drain. */
  lemma RunsExactlyOnce(es: seq<Event>, c: Id)
    ensures var s := After(es);
            && multiset(s.runs)[c] <= 1
            && (c in s.removed ==> c !in s.runs)
            && (c in s.runs ==> c in s.regs && s.regs[c].Registered?)
            && (s.drain.Finished? && c in s.regs && s.regs[c].Registered? ==>
                  multiset(s.runs)[c] == (if c in s.removed then 0 else 1))
  {
    Reachable(es);
    assert PlacedOnce(After(es), c);
  }

  // ---------------------------------------------------------------------------
  // The order of the calls
  // ---------------------------------------------------------------------------

  /** The callbacks cs were registered in this order. */
  ghost predicate InOrder(regs: map<Id, Registration>, cs: seq<Id>) {
    && (forall i :: 0 <= i < |cs| ==> cs[i] in regs && regs[cs[i]].Registered?)
    && (forall i, j :: 0 <= i < j < |cs| ==> regs[cs[i]].handle < regs[cs[j]].handle)
  }

  ghost predicate CallsInv(s: Sys) {
    && (s.drain.NoCancel? || s.drain.Draining? ==> s.called == [])
    && InOrder(s.regs, s.called + Rest(s.drain))
  }

  lemma PendingInOrder(s: Sys)
    requires VectorsInv(s)
    ensures InOrder(s.regs, s.core.callbacks)
  {
    var cs, hs := s.core.callbacks, s.core.handles;
    forall i | 0 <= i < |cs| ensures cs[i] in s.regs && s.regs[cs[i]] == Registered(hs[i]) {
      assert NamedAt(s, i);
    }
  }

  lemma StillInOrder(regs: map<Id, Registration>, regs': map<Id, Registration>, cs: seq<Id>)
    requires InOrder(regs, cs)
    requires forall c :: c in regs && regs[c].Registered? ==> c in regs' && regs'[c] == regs[c]
    ensures InOrder(regs', cs)
  {
  }

  lemma CancelKeepsCalls(s: Sys, e: Event)
    requires VectorsInv(s) && LockInv(s) && CallsInv(s) && (e.CancelExchange? || e.CancelDrain? || e.CancelCall?)
    ensures CallsInv(Step(s, e))
  {
    var t := Step(s, e);
    if e.CancelDrain? && s.drain.Draining? && s.lock == None {
      PendingInOrder(s);
      assert t.called + Rest(t.drain) == s.core.callbacks;
    } else {
      if e.CancelCall? && Rest(s.drain) != [] {
        assert Rest(s.drain) == [Rest(s.drain)[0]] + Rest(s.drain)[1..];
      }
      assert t.called + Rest(t.drain) == s.called + Rest(s.drain);
    }
  }

  lemma StepKeepsCalls(s: Sys, e: Event)
    requires VectorsInv(s) && LockInv(s) && CallsInv(s)
    ensures CallsInv(Step(s, e))
  {
    if e.CancelExchange? || e.CancelDrain? || e.CancelCall? {
      CancelKeepsCalls(s, e);
    } else {
      StillInOrder(s.regs, Step(s, e).regs, s.called + Rest(s.drain));
    }
  }

  ghost predicate CallsAndInv(s: Sys) {
    Inv(s) && CallsInv(s)
  }

  /** The Cancel that drains calls the callbacks in the order in which they were registered. */
  lemma CalledInOrder(es: seq<Event>)
    ensures var s := After(es); InOrder(s.regs, s.called + Rest(s.drain))
  {
    forall s: Sys, e: Event | CallsAndInv(s) ensures CallsAndInv(Step(s, e)) {
      StepKeeps(s, e);
      StepKeepsCalls(s, e);
    }
    Invariant(Step, s => CallsAndInv(s), INIT, es);
  }

  /** The vectors stay aligned, with distinct increasing handles, none of them 0. */
  lemma VectorsAligned(es: seq<Event>)
    ensures VectorsInv(After(es))
  {
    Reachable(es);
  }

  /** Whenever it is called, unregistering takes out the callback that is pending under the handle and
      nothing else, and leaves the others in order under their handles; if none is pending under it, it
      changes nothing at all. */
  lemma UnregisterTakesJustThat(es: seq<Event>, h: nat, i: nat)
    requires After(es).lock == None
    ensures var s := After(es);
            var t := Step(s, Unregister(h));
            && |s.core.callbacks| == |s.core.handles|
            && (h !in s.core.handles ==> t == s)
            && (i < |s.core.handles| && s.core.handles[i] == h ==>
                  && t.core.callbacks == s.core.callbacks[..i] + s.core.callbacks[i + 1..]
                  && t.core.handles == s.core.handles[..i] + s.core.handles[i + 1..]
                  && t.core.next == s.core.next && t.regs == s.regs && t.runs == s.runs && t.drain == s.drain
                  && t.removed == s.removed + {s.core.callbacks[i]})
  {
    Reachable(es);
    var s := After(es);
    if h !in s.core.handles {
      assert s.removed + {} == s.removed;
    } else if i < |s.core.handles| && s.core.handles[i] == h {
      assert IndexOf(s.core.handles, h) == i;
      assert h > 0;
      assert PlacedOnce(s, s.core.callbacks[i]);
      TakenOut(s.core.callbacks, i);
    }
  }

  /** Unregistering takes out the callback registered under that handle while it is pending, and
      once the drain has begun it takes out nothing. */
  lemma UnregisterWhilePending(es: seq<Event>, c: Id)
    requires c in After(es).regs && After(es).regs[c].Registered? && After(es).lock == None
    ensures var s := After(es);
            var t := Step(s, Unregister(s.regs[c].handle));
            && (c in s.core.callbacks ==> t.removed == s.removed + {c} && c !in t.core.callbacks)
            && (s.drain.Calling? || s.drain.Finished? ==> t.core == s.core && t.removed == s.removed)
  {
    Reachable(es);
    PendingUnregister(After(es), c);
  }

  lemma PendingUnregister(s: Sys, c: Id)
    requires VectorsInv(s) && LockInv(s) && PlacedOnce(s, c) && c in s.regs && s.regs[c].Registered? && s.lock == None
    ensures var t := Step(s, Unregister(s.regs[c].handle));
            && (c in s.core.callbacks ==> t.removed == s.removed + {c} && c !in t.core.callbacks)
            && (s.drain.Calling? || s.drain.Finished? ==> t.core == s.core && t.removed == s.removed)
  {
    if c in s.core.callbacks {
      var k :| 0 <= k < |s.core.callbacks| && s.core.callbacks[k] == c;
      assert NamedAt(s, k);
      assert IndexOf(s.core.handles, s.core.handles[k]) == k;
      TakenOut(s.core.callbacks, k);
      assert s.core.handles[k] in s.core.handles;
      assert multiset(s.core.callbacks)[c] <= 1;
    }
  }

  lemma TakenOut(cs: seq<Id>, k: nat)
    requires k < |cs| && multiset(cs)[cs[k]] <= 1
    ensures cs[k] !in Without(cs, k) && Elements(cs) - Elements(Without(cs, k)) == {cs[k]}
  {
    assert cs == cs[..k] + [cs[k]] + cs[k + 1..];
    assert multiset(cs) == multiset(Without(cs, k)) + multiset{cs[k]};
    forall x | x in cs && x != cs[k] ensures x in Without(cs, k) {
      assert x in multiset(Without(cs, k));
    }
  }

  predicate ToRun(s: Sys, c: Id) {
    c in s.regs && s.regs[c].Registered? && c !in s.removed
  }

  /** A callback that is still in the vector, or with the Cancel that drained it, has not run. */
  lemma NotRunYet(s: Sys, c: Id)
    requires Inv(s) && (c in s.core.callbacks || c in Rest(s.drain))
    ensures ToRun(s, c) && c !in s.runs
  {
    assert PlacedOnce(s, c);
    assert multiset(s.core.callbacks)[c] + multiset(Rest(s.drain))[c] >= 1;
    assert c in s.runs ==> multiset(s.runs)[c] >= 1;
  }

  /** A Cancel that finds the flag set returns at once, and changes nothing. Whenever that is, it finds
      that every callback it answers for has run if and only if the Cancel that set the flag has
      drained the vector and called all that was in it. */
  lemma LosingCancelIsCompleteIff(es: seq<Event>)
    requires After(es).cancelled
    ensures var s := After(es);
            && Step(s, CancelExchange) == s
            && ((forall c :: ToRun(s, c) ==> c in s.runs) <==> s.core.callbacks == [] && Rest(s.drain) == [])
  {
    Reachable(es);
    var s := After(es);
    if s.core.callbacks != [] {
      NotRunYet(s, s.core.callbacks[0]);
    } else if Rest(s.drain) != [] {
      NotRunYet(s, Rest(s.drain)[0]);
    } else {
      forall c | ToRun(s, c) ensures c in s.runs {
        assert PlacedOnce(s, c);
      }
    }
  }

  /** So it may return before any of them has run. */
  lemma LosingCancelReturnsEarly()
    ensures var s := After([RegisterLock(7), RegisterLoad(7), RegisterPush(7), CancelExchange]);
            s.cancelled && s.core.callbacks == [7] && s.runs == [] && Step(s, CancelExchange) == s
  {
    var es := [RegisterLock(7), RegisterLoad(7), RegisterPush(7), CancelExchange];
    assert es[..3] == [es[0], es[1], es[2]] && es[..3][..2] == [es[0], es[1]];
    Two(Step, INIT, es[0], es[1]);
    var s3 := After(es[..3]);
    assert s3 == Step(After(es[..3][..2]), RegisterPush(7));
  }
}

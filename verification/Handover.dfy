/** The mutex and the counting semaphore: their locked blocks, their classes, and every interleaving
    of operations on them. Ownership passes straight to the first waiter. */
module Handover {
  import opened Common
  import opened Runs
  import opened LockPhases

  datatype Semaphore = Semaphore(count: nat, waiters: seq<Handle>)

  datatype Mutex = Mutex(locked: bool, waiters: seq<Handle>)

  function OnAcquireReady(c: Semaphore): (Semaphore, bool) {
    if c.count > 0 then (c.(count := c.count - 1), true) else (c, false)
  }

  function OnAcquireSuspend(c: Semaphore, h: Handle): (Semaphore, bool) {
    var (c', granted) := OnAcquireReady(c);
    if granted then (c', false) else (c.(waiters := c.waiters + [h]), true)
  }

  function OnRelease(c: Semaphore): (Semaphore, Option<Handle>) {
    if c.waiters != [] then (c.(waiters := c.waiters[1..]), Some(c.waiters[0]))
    else (c.(count := c.count + 1), None)
  }

  function OnLockReady(c: Mutex): (Mutex, bool) {
    if !c.locked then (c.(locked := true), true) else (c, false)
  }

  function OnLockSuspend(c: Mutex, h: Handle): (Mutex, bool) {
    var (c', granted) := OnLockReady(c);
    if granted then (c', false) else (c.(waiters := c.waiters + [h]), true)
  }

  function OnUnlock(c: Mutex): (Mutex, Option<Handle>) {
    if c.waiters != [] then (c.(waiters := c.waiters[1..]), Some(c.waiters[0]))
    else (c.(locked := false), None)
  }

  class AsyncSemaphore {
    var count: nat
    var waiters: seq<Handle>

    ghost function State(): Semaphore
      reads this
    {
      Semaphore(count, waiters)
    }

    constructor (initialCount: nat)
      ensures State() == Semaphore(initialCount, [])
    {
      count, waiters := initialCount, [];
    }

    method AwaitReady() returns (ready: bool)
      modifies this
      ensures (State(), ready) == OnAcquireReady(old(State()))
    {
      if count > 0 {
        count := count - 1;
        return true;
      }
      return false;
    }

    method AwaitSuspend(h: Handle) returns (suspended: bool)
      modifies this
      ensures (State(), suspended) == OnAcquireSuspend(old(State()), h)
    {
      if count > 0 {
        count := count - 1;
        return false;
      }
      waiters := waiters + [h];
      return true;
    }

    method Release() returns (toWake: Option<Handle>)
      modifies this
      ensures (State(), toWake) == OnRelease(old(State()))
    {
      toWake := None;
      if waiters != [] {
        toWake := Some(waiters[0]);
        waiters := waiters[1..];
      } else {
        count := count + 1;
      }
    }
  }

  class AsyncMutex {
    var locked: bool
    var waiters: seq<Handle>

    ghost function State(): Mutex
      reads this
    {
      Mutex(locked, waiters)
    }

    constructor ()
      ensures State() == Mutex(false, [])
    {
      locked, waiters := false, [];
    }

    method AwaitReady() returns (ready: bool)
      modifies this
      ensures (State(), ready) == OnLockReady(old(State()))
    {
      if !locked {
        locked := true;
        return true;
      }
      return false;
    }

    method AwaitSuspend(h: Handle) returns (suspended: bool)
      modifies this
      ensures (State(), suspended) == OnLockSuspend(old(State()), h)
    {
      if !locked {
        locked := true;
        return false;
      }
      waiters := waiters + [h];
      return true;
    }

    /** Does what a lock's first try does, and gives up instead of suspending. */
    method TryLock() returns (acquired: bool)
      modifies this
      ensures (State(), acquired) == OnLockReady(old(State()))
    {
      if !locked {
        locked := true;
        return true;
      }
      return false;
    }

    method Unlock() returns (toWake: Option<Handle>)
      modifies this
      ensures (State(), toWake) == OnUnlock(old(State()))
    {
      toWake := None;
      if waiters != [] {
        toWake := Some(waiters[0]);
        waiters := waiters[1..];
      } else {
        locked := false;
      }
    }
  }

  // ---------------------------------------------------------------------------
  // The machines. The guard of an operation that holds releases, and for a semaphore anybody may;
  // a TryLock that failed is an operation that stays at Retrying.
  // ---------------------------------------------------------------------------

  /** The primitive, the operations, and what no code reads: handles in the order they were queued,
      handles in the order they were taken off the queue, grants made without waiting, and direct
      calls of Release. */
  datatype Sys<+C> = Sys(
    core: C, ops: map<Handle, Phase>, queued: seq<Handle>, served: seq<Handle>, direct: nat, extra: nat)

  /** The steps of an operation. */
  datatype Event =
    | New(h: Handle) | AwaitReady(h: Handle) | AwaitSuspend(h: Handle) | Resume(h: Handle) | Release(h: Handle)

  /** A semaphore's Release is public: it may be called by somebody who owns nothing. */
  datatype Call = Op(e: Event) | ReleaseCall

  predicate At<C>(s: Sys<C>, h: Handle, p: Phase) {
    h in s.ops && s.ops[h] == p
  }

  function Tried<C>(s: Sys<C>, h: Handle, c: C, granted: bool): Sys<C> {
    if granted then s.(core := c, ops := s.ops[h := Granted], direct := s.direct + 1)
    else s.(core := c, ops := s.ops[h := Retrying])
  }

  function Suspended<C>(s: Sys<C>, h: Handle, c: C, suspended: bool): Sys<C> {
    if suspended then s.(core := c, ops := s.ops[h := Parked], queued := s.queued + [h])
    else s.(core := c, ops := s.ops[h := Granted], direct := s.direct + 1)
  }

  function ReleasedTo<C>(s: Sys<C>, h: Handle, c: C, next: Option<Handle>): Sys<C> {
    match next
    case None => s.(core := c, ops := s.ops[h := Released])
    case Some(w) => s.(core := c, ops := s.ops[h := Released][w := Granted], served := s.served + [w])
  }

  function SemaphoreStep(s: Sys<Semaphore>, c: Call): Sys<Semaphore> {
    match c
    case Op(e) => OperationStep(s, e)
    case ReleaseCall =>
      var (c, next) := OnRelease(s.core);
      match next
      case None => s.(core := c, extra := s.extra + 1)
      case Some(w) => s.(core := c, ops := s.ops[w := Granted], served := s.served + [w], extra := s.extra + 1)
  }

  function OperationStep(s: Sys<Semaphore>, e: Event): Sys<Semaphore> {
    match e
    case New(h) => if h in s.ops then s else s.(ops := s.ops[h := Calling])
    case AwaitReady(h) =>
      if At(s, h, Calling) then var (c, yes) := OnAcquireReady(s.core); Tried(s, h, c, yes) else s
    case AwaitSuspend(h) =>
      if At(s, h, Retrying) then var (c, yes) := OnAcquireSuspend(s.core, h); Suspended(s, h, c, yes) else s
    case Resume(h) => if At(s, h, Granted) then s.(ops := s.ops[h := Holding]) else s
    case Release(h) =>
      if At(s, h, Holding) then var (c, next) := OnRelease(s.core); ReleasedTo(s, h, c, next) else s
  }

  function MutexStep(s: Sys<Mutex>, e: Event): Sys<Mutex> {
    match e
    case New(h) => if h in s.ops then s else s.(ops := s.ops[h := Calling])
    case AwaitReady(h) =>
      if At(s, h, Calling) then var (c, yes) := OnLockReady(s.core); Tried(s, h, c, yes) else s
    case AwaitSuspend(h) =>
      if At(s, h, Retrying) then var (c, yes) := OnLockSuspend(s.core, h); Suspended(s, h, c, yes) else s
    case Resume(h) => if At(s, h, Granted) then s.(ops := s.ops[h := Holding]) else s
    case Release(h) =>
      if At(s, h, Holding) then var (c, next) := OnUnlock(s.core); ReleasedTo(s, h, c, next) else s
  }

  ghost function Owners(ops: map<Handle, Phase>): set<Handle> {
    set h | h in ops && (ops[h].Granted? || ops[h].Holding?)
  }

  ghost predicate PermitsInv(n: nat, s: Sys<Semaphore>) {
    && s.core.count + |Owners(s.ops)| == n + s.extra
    && (s.core.waiters != [] ==> s.core.count == 0)
  }

  ghost predicate QueueInv(s: Sys<Semaphore>) {
    && NoDup(s.queued) && s.queued == s.served + s.core.waiters
    && (forall h :: h in s.core.waiters <==> At(s, h, Parked))
    && (forall h :: h in s.queued ==> h in s.ops && !s.ops[h].Calling? && !s.ops[h].Retrying?)
  }

  ghost predicate Inv(n: nat, s: Sys<Semaphore>) {
    PermitsInv(n, s) && QueueInv(s)
  }

  lemma OwnersAfter(ops: map<Handle, Phase>, h: Handle, p: Phase)
    ensures Owners(ops[h := p]) == if p.Granted? || p.Holding? then Owners(ops) + {h} else Owners(ops) - {h}
  {
  }

  lemma OperationKeepsPermits(n: nat, s: Sys<Semaphore>, e: Event)
    requires PermitsInv(n, s) && (forall h :: h in s.core.waiters ==> At(s, h, Parked))
    ensures PermitsInv(n, OperationStep(s, e))
  {
    var t := OperationStep(s, e);
    var h := e.h;
    assert h in Owners(s.ops) <==> At(s, h, Granted) || At(s, h, Holding);
    if e.Release? && At(s, h, Holding) && s.core.waiters != [] {
      var w := s.core.waiters[0];
      OwnersAfter(s.ops, h, Released);
      OwnersAfter(s.ops[h := Released], w, Granted);
      assert w in s.core.waiters && w !in Owners(s.ops);
    } else if t != s {
      assert h in Owners(s.ops) ==> Owners(s.ops) + {h} == Owners(s.ops);
      assert h !in Owners(s.ops) ==> Owners(s.ops) - {h} == Owners(s.ops);
      OwnersAfter(s.ops, h, t.ops[h]);
    }
  }

  lemma StepKeepsPermits(n: nat, s: Sys<Semaphore>, c: Call)
    requires PermitsInv(n, s) && (forall h :: h in s.core.waiters ==> At(s, h, Parked))
    ensures PermitsInv(n, SemaphoreStep(s, c))
  {
    match c
    case Op(e) => OperationKeepsPermits(n, s, e);
    case ReleaseCall =>
      if s.core.waiters != [] {
        var w := s.core.waiters[0];
        assert w in s.core.waiters && w !in Owners(s.ops);
        OwnersAfter(s.ops, w, Granted);
      }
  }

  lemma StepKeepsQueue(s: Sys<Semaphore>, c: Call)
    requires QueueInv(s)
    ensures QueueInv(SemaphoreStep(s, c))
  {
    if c.ReleaseCall? || c.e.Release? {
      ReleaseKeepsQueue(s, c);
    } else if c.e.AwaitSuspend? && At(s, c.e.h, Retrying) {
      assert c.e.h !in s.queued;
    }
  }

  lemma ReleaseKeepsQueue(s: Sys<Semaphore>, c: Call)
    requires QueueInv(s) && (c.ReleaseCall? || c.e.Release?)
    ensures QueueInv(SemaphoreStep(s, c))
  {
    if s.core.waiters != [] {
      assert forall x :: x in s.core.waiters ==> x in s.queued;
      QueueTail(s.served, s.core.waiters);
    }
  }

  lemma QueueTail(served: seq<Handle>, waiters: seq<Handle>)
    requires NoDup(served + waiters) && waiters != []
    ensures served + waiters == (served + [waiters[0]]) + waiters[1..]
    ensures forall x :: x in waiters[1..] <==> x in waiters && x != waiters[0]
  {
    assert (served + waiters)[|served|..] == waiters;
  }

  ghost function AfterSemaphore(n: nat, cs: seq<Call>): Sys<Semaphore> {
    Run(SemaphoreStep, Sys(Semaphore(n, []), map[], [], [], 0, 0), cs)
  }

  ghost function AfterMutex(es: seq<Event>): Sys<Mutex> {
    Run(MutexStep, Sys(Mutex(false, []), map[], [], [], 0, 0), es)
  }

  /** Permits are conserved but for those that direct calls of Release add, waiters imply that none is
      free, and the waiters were and will be served in the order they began to wait. */
  lemma PermitsConserved(n: nat, cs: seq<Call>)
    ensures var s := AfterSemaphore(n, cs);
            && s.core.count + |Owners(s.ops)| == n + s.extra
            && (s.core.waiters != [] ==> s.core.count == 0)
            && NoDup(s.queued) && s.queued == s.served + s.core.waiters
            && Inv(n, s)
  {
    forall s: Sys<Semaphore>, c: Call | Inv(n, s) ensures Inv(n, SemaphoreStep(s, c)) {
      StepKeepsPermits(n, s, c);
      StepKeepsQueue(s, c);
    }
    var init := Sys(Semaphore(n, []), map[], [], [], 0, 0);
    assert Owners(init.ops) == {};
    Invariant(SemaphoreStep, (s: Sys<Semaphore>) => Inv(n, s), init, cs);
  }

  lemma {:induction false} ExtraCounts(n: nat, cs: seq<Call>)
    ensures AfterSemaphore(n, cs).extra == 0 <==> forall c :: c in cs ==> c.Op?
  {
    if cs != [] {
      var before := cs[..|cs| - 1];
      ExtraCounts(n, before);
      assert cs == before + [cs[|cs| - 1]];
    }
  }

  /** So free permits and owners stay at the initial count if and only if nobody called Release
      directly. */
  lemma ConservedIffOnlyGuardsRelease(n: nat, cs: seq<Call>)
    ensures var s := AfterSemaphore(n, cs);
            s.core.count + |Owners(s.ops)| == n <==> forall c :: c in cs ==> c.Op?
  {
    PermitsConserved(n, cs);
    ExtraCounts(n, cs);
  }

  /** A permit too many: the guard that an acquisition gave is discarded, and then Release is called. */
  lemma DirectReleaseAddsAPermit(n: nat)
    requires n > 0
    ensures var cs := [Op(New(7)), Op(AwaitReady(7)), Op(Resume(7)), Op(Release(7)), ReleaseCall];
            AfterSemaphore(n, cs).core == Semaphore(n + 1, []) && Owners(AfterSemaphore(n, cs).ops) == {}
  {
    var init := Sys(Semaphore(n, []), map[], [], [], 0, 0);
    Five(SemaphoreStep, init, Op(New(7)), Op(AwaitReady(7)), Op(Resume(7)), Op(Release(7)), ReleaseCall);
    ReleasedByItsGuard(n);
  }

  lemma ReleasedByItsGuard(n: nat)
    requires n > 0
    ensures var init := Sys(Semaphore(n, []), map[], [], [], 0, 0);
            var s := OperationStep(OperationStep(init, New(7)), AwaitReady(7));
            var t := OperationStep(OperationStep(s, Resume(7)), Release(7));
            t.core == Semaphore(n, []) && t.ops == map[7 := Released]
  {
    var init := Sys(Semaphore(n, []), map[], [], [], 0, 0);
    var s := OperationStep(OperationStep(init, New(7)), AwaitReady(7));
    assert s.core == Semaphore(n - 1, []) && s.ops == map[7 := Granted];
  }

  /** Nobody enters past a waiter: while there is one, no step grants without waiting, and a release,
      by its owner or direct, grants exactly the one that has waited longest. */
  lemma NoBarging(n: nat, cs: seq<Call>, c: Call)
    requires AfterSemaphore(n, cs).core.waiters != []
    ensures var s := AfterSemaphore(n, cs);
            var t := SemaphoreStep(s, c);
            var releases := c.ReleaseCall? || (c.e.Release? && At(s, c.e.h, Holding));
            && t.direct == s.direct && t.core.count == 0
            && (if releases then t.served == s.served + [s.core.waiters[0]] && At(t, s.core.waiters[0], Granted)
                else t.served == s.served)
  {
    PermitsConserved(n, cs);
  }

  /** Each try of an acquisition is granted exactly when owners have left a permit; the second queues it
      otherwise. */
  lemma GrantedIffPermitLeft(n: nat, cs: seq<Call>, h: Handle)
    requires At(AfterSemaphore(n, cs), h, Calling) || At(AfterSemaphore(n, cs), h, Retrying)
    ensures var s := AfterSemaphore(n, cs);
            var first := At(s, h, Calling);
            var t := SemaphoreStep(s, Op(if first then AwaitReady(h) else AwaitSuspend(h)));
            if |Owners(s.ops)| < n + s.extra then At(t, h, Granted) && t.core.waiters == s.core.waiters
            else if first then At(t, h, Retrying) && t.core.waiters == s.core.waiters
            else At(t, h, Parked) && t.core.waiters == s.core.waiters + [h]
  {
    PermitsConserved(n, cs);
  }

  /** A mutex state as a semaphore with one permit. */
  function AsSemaphore(s: Sys<Mutex>): Sys<Semaphore> {
    Sys(Semaphore(if s.core.locked then 0 else 1, s.core.waiters), s.ops, s.queued, s.served, s.direct, s.extra)
  }

  /** The same steps on a semaphore, with no direct release, as a mutex has none. */
  ghost function Ops(es: seq<Event>): seq<Call> {
    seq(|es|, i requires 0 <= i < |es| => Op(es[i]))
  }

  /** Step by step, a mutex and a semaphore of one permit do the same to the same operations. */
  lemma {:induction false} MutexIsBinarySemaphore(es: seq<Event>)
    ensures AsSemaphore(AfterMutex(es)) == AfterSemaphore(1, Ops(es))
  {
    if es != [] {
      var before, e := es[..|es| - 1], es[|es| - 1];
      MutexIsBinarySemaphore(before);
      PermitsConserved(1, Ops(before));
      ExtraCounts(1, Ops(before));
      assert Ops(es)[..|es| - 1] == Ops(before) && Ops(es)[|es| - 1] == Op(e);
      var s := AfterMutex(before);
      if e.Release? && At(s, e.h, Holding) {
        assert e.h in Owners(s.ops);
      }
    }
  }

  /** Hence a mutex has at most one owner, from the grant to the release. */
  lemma MutexExcludes(es: seq<Event>, g: Handle, h: Handle)
    requires g in Owners(AfterMutex(es).ops) && h in Owners(AfterMutex(es).ops)
    ensures g == h && AfterMutex(es).core.locked
  {
    MutexIsBinarySemaphore(es);
    PermitsConserved(1, Ops(es));
    ExtraCounts(1, Ops(es));
    var owners := Owners(AfterMutex(es).ops);
    assert |owners - {g}| == |owners| - 1;
    assert h !in owners - {g};
  }
}

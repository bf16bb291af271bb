/** Guards: movable objects that give a permit, or a lock, back when they are destroyed or assigned to.
    However guards are moved, every grant is released once, so that the results about the primitive
    under releases of its owners hold of programs that only have guards. */
module Guards {
  import opened Common
  import opened Runs
  import opened LockPhases
  import opened Handover

  class Guard {
    var sem: AsyncSemaphore?

    constructor (s: AsyncSemaphore)
      ensures sem == s
    {
      sem := s;
    }

    constructor MoveFrom(other: Guard)
      modifies other
      ensures sem == old(other.sem) && other.sem == null
    {
      sem := other.sem;
      new;
      other.sem := null;
    }

    method Assign(other: Guard) returns (toWake: Option<Handle>)
      modifies this, other, sem
      ensures this == other ==> sem == old(sem) && toWake == None
      ensures this == other && sem != null ==> sem.State() == old(sem.State())
      ensures this != other ==> sem == old(other.sem) && other.sem == null
      ensures this != other && old(sem) != null ==> (old(sem).State(), toWake) == OnRelease(old(sem.State()))
      ensures this != other && old(sem) == null ==> toWake == None
    {
      toWake := None;
      if this != other {
        if sem != null {
          toWake := sem.Release();
        }
        sem := other.sem;
        other.sem := null;
      }
    }

    method Destruct() returns (toWake: Option<Handle>)
      modifies sem
      ensures if sem == null then toWake == None else (sem.State(), toWake) == OnRelease(old(sem.State()))
    {
      toWake := None;
      if sem != null {
        toWake := sem.Release();
      }
    }
  }

  class ScopedLock {
    var mutex: AsyncMutex?

    constructor (m: AsyncMutex)
      ensures mutex == m
    {
      mutex := m;
    }

    constructor MoveFrom(other: ScopedLock)
      modifies other
      ensures mutex == old(other.mutex) && other.mutex == null
    {
      mutex := other.mutex;
      new;
      other.mutex := null;
    }

    method Assign(other: ScopedLock) returns (toWake: Option<Handle>)
      modifies this, other, mutex
      ensures this == other ==> mutex == old(mutex) && toWake == None
      ensures this == other && mutex != null ==> mutex.State() == old(mutex.State())
      ensures this != other ==> mutex == old(other.mutex) && other.mutex == null
      ensures this != other && old(mutex) != null ==> (old(mutex).State(), toWake) == OnUnlock(old(mutex.State()))
      ensures this != other && old(mutex) == null ==> toWake == None
    {
      toWake := None;
      if this != other {
        if mutex != null {
          toWake := mutex.Unlock();
        }
        mutex := other.mutex;
        other.mutex := null;
      }
    }

    method Destruct() returns (toWake: Option<Handle>)
      modifies mutex
      ensures if mutex == null then toWake == None else (mutex.State(), toWake) == OnUnlock(old(mutex.State()))
    {
      toWake := None;
      if mutex != null {
        toWake := mutex.Unlock();
      }
    }
  }

  // ---------------------------------------------------------------------------
  // The machine: one semaphore, and any number of guards
  // ---------------------------------------------------------------------------

  type Name = nat

  /** The guards by name; one that was moved from is empty, another stands for the grant of one
      operation, which no code reads. */
  datatype Program = Program(sem: Sys<Semaphore>, guards: map<Name, Option<Handle>>)

  /** Up is a step of an operation up to its grant; Receive gives the operation its guard. */
  datatype Event =
    | Up(e: Handover.Event) | Receive(h: Handle, g: Name) | MoveTo(g: Name, from: Name)
    | Assign(g: Name, from: Name) | Destruct(g: Name) | DirectRelease

  function Drop(s: Program, grant: Option<Handle>): Program {
    match grant
    case None => s
    case Some(h) => s.(sem := SemaphoreStep(s.sem, Op(Release(h))))
  }

  function Step(s: Program, e: Event): Program {
    match e
    case Up(op) => if op.Resume? || op.Release? then s else s.(sem := SemaphoreStep(s.sem, Op(op)))
    case Receive(h, g) =>
      if g in s.guards || !At(s.sem, h, Granted) then s
      else Program(SemaphoreStep(s.sem, Op(Resume(h))), s.guards[g := Some(h)])
    case MoveTo(g, from) =>
      if g in s.guards || from !in s.guards then s
      else s.(guards := s.guards[from := None][g := s.guards[from]])
    case Assign(g, from) =>
      if g !in s.guards || from !in s.guards || g == from then s
      else Drop(s.(guards := s.guards[from := None][g := s.guards[from]]), s.guards[g])
    case Destruct(g) =>
      if g !in s.guards then s else Drop(s.(guards := s.guards - {g}), s.guards[g])
    case DirectRelease => s.(sem := SemaphoreStep(s.sem, ReleaseCall))
  }

  ghost function After(n: nat, es: seq<Event>): Program {
    Run(Step, Program(AfterSemaphore(n, []), map[]), es)
  }

  /** Guards stand for different grants, and just for those that were received and not given back. */
  ghost predicate GrantOk(s: Program, h: Handle) {
    At(s.sem, h, Holding) <==> exists g :: g in s.guards && s.guards[g] == Some(h)
  }

  ghost predicate OneEach(guards: map<Name, Option<Handle>>) {
    forall f, g :: f in guards && g in guards && f != g && guards[f].Some? ==> guards[f] != guards[g]
  }

  ghost predicate Inv(n: nat, s: Program) {
    Handover.Inv(n, s.sem) && OneEach(s.guards) && forall h :: GrantOk(s, h)
  }

  /** A release takes just its own operation out of those that hold. */
  lemma ReleaseHolding(n: nat, s: Sys<Semaphore>, h: Handle)
    requires Handover.Inv(n, s) && At(s, h, Holding)
    ensures var t := SemaphoreStep(s, Op(Release(h)));
            Handover.Inv(n, t) && forall k :: At(t, k, Holding) <==> At(s, k, Holding) && k != h
  {
    StepKeepsPermits(n, s, Op(Release(h)));
    StepKeepsQueue(s, Op(Release(h)));
    assert s.core.waiters != [] ==> s.core.waiters[0] in s.core.waiters;
  }

  lemma HeldBy(s: Program, g: Name)
    requires g in s.guards && s.guards[g].Some?
    ensures exists f :: f in s.guards && s.guards[f] == s.guards[g]
  {
  }

  /** Giving back a grant that no guard stands for any more. */
  lemma DropKeeps(n: nat, s: Program, grant: Option<Handle>)
    requires Handover.Inv(n, s.sem) && OneEach(s.guards)
    requires forall h: Handle :: grant != Some(h) ==> GrantOk(s, h)
    requires forall g :: g in s.guards && grant.Some? ==> s.guards[g] != grant
    requires grant.Some? ==> At(s.sem, grant.value, Holding)
    ensures Inv(n, Drop(s, grant))
  {
    if grant.Some? {
      ReleaseHolding(n, s.sem, grant.value);
      var t := Drop(s, grant);
      forall h ensures GrantOk(t, h) {
        if h != grant.value {
          assert GrantOk(s, h);
        }
      }
    }
  }

  /** Moving one guard into another name, and what the guards then stand for. */
  lemma MovedGrants(guards: map<Name, Option<Handle>>, g: Name, from: Name, h: Handle)
    requires OneEach(guards) && from in guards && g != from
    ensures var moved := guards[from := None][g := guards[from]];
            && OneEach(moved)
            && ((exists f :: f in moved && moved[f] == Some(h)) <==>
                (exists f :: f in guards && guards[f] == Some(h)) && !(g in guards && guards[g] == Some(h)))
  {
    var moved := guards[from := None][g := guards[from]];
    if f :| f in guards && guards[f] == Some(h) {
      if !(g in guards && guards[g] == Some(h)) {
        assert moved[if f == from then g else f] == Some(h);
      }
    }
    if f :| f in moved && moved[f] == Some(h) {
      assert guards[if f == g then from else f] == Some(h);
    }
  }

  lemma MoveKeeps(n: nat, s: Program, g: Name, from: Name)
    requires Inv(n, s) && from in s.guards && g != from
    ensures var moved := s.(guards := s.guards[from := None][g := s.guards[from]]);
            Inv(n, Drop(moved, if g in s.guards then s.guards[g] else None))
  {
    var moved := s.(guards := s.guards[from := None][g := s.guards[from]]);
    var grant := if g in s.guards then s.guards[g] else None;
    MovedGrants(s.guards, g, from, 0);
    forall h: Handle ensures GrantOk(s, h) && (grant != Some(h) ==> GrantOk(moved, h)) {
      MovedGrants(s.guards, g, from, h);
      assert GrantOk(s, h);
    }
    DropKeeps(n, moved, grant);
  }

  lemma DestructKeeps(n: nat, s: Program, g: Name)
    requires Inv(n, s) && g in s.guards
    ensures Inv(n, Step(s, Destruct(g)))
  {
    var t := s.(guards := s.guards - {g});
    var grant := s.guards[g];
    forall h: Handle ensures GrantOk(s, h) && (grant != Some(h) ==> GrantOk(t, h)) {
      assert GrantOk(s, h);
      if f :| f in s.guards && s.guards[f] == Some(h) && grant != Some(h) {
        assert f in t.guards && t.guards[f] == Some(h);
      }
    }
    DropKeeps(n, t, grant);
  }

  lemma OpKeeps(n: nat, s: Program, op: Handover.Event)
    requires Inv(n, s)
    ensures Inv(n, Step(s, Up(op)))
  {
    if !op.Resume? && !op.Release? {
      StepKeepsPermits(n, s.sem, Op(op));
      StepKeepsQueue(s.sem, Op(op));
      forall h ensures GrantOk(Step(s, Up(op)), h) {
        assert GrantOk(s, h);
      }
    }
  }

  lemma DirectKeeps(n: nat, s: Program)
    requires Inv(n, s)
    ensures Inv(n, Step(s, DirectRelease))
  {
    var t := Step(s, DirectRelease);
    StepKeepsPermits(n, s.sem, ReleaseCall);
    StepKeepsQueue(s.sem, ReleaseCall);
    assert s.sem.core.waiters != [] ==> s.sem.core.waiters[0] in s.sem.core.waiters;
    forall h ensures GrantOk(t, h) {
      assert GrantOk(s, h);
    }
  }

  lemma ReceiveKeeps(n: nat, s: Program, h: Handle, g: Name)
    requires Inv(n, s)
    ensures Inv(n, Step(s, Receive(h, g)))
  {
    if g !in s.guards && At(s.sem, h, Granted) {
      var t := Step(s, Receive(h, g));
      StepKeepsPermits(n, s.sem, Op(Resume(h)));
      StepKeepsQueue(s.sem, Op(Resume(h)));
      assert GrantOk(s, h);
      assert forall f :: f in s.guards ==> s.guards[f] != Some(h);
      forall k: Handle ensures GrantOk(t, k) && GrantOk(s, k) {
        assert GrantOk(s, k);
        if f :| f in s.guards && s.guards[f] == Some(k) {
          assert t.guards[f] == Some(k);
        }
        assert t.guards[g] == Some(h);
      }
    }
  }

  lemma StepKeeps(n: nat, s: Program, e: Event)
    requires Inv(n, s)
    ensures Inv(n, Step(s, e))
  {
    match e
    case Up(op) => OpKeeps(n, s, op);
    case DirectRelease => DirectKeeps(n, s);
    case Receive(h, g) => ReceiveKeeps(n, s, h, g);
    case MoveTo(g, from) => if g !in s.guards && from in s.guards { MoveKeeps(n, s, g, from); }
    case Assign(g, from) => if g in s.guards && from in s.guards && g != from { MoveKeeps(n, s, g, from); }
    case Destruct(g) => if g in s.guards { DestructKeeps(n, s, g); }
  }

  lemma Reachable(n: nat, es: seq<Event>)
    ensures Inv(n, After(n, es))
  {
    PermitsConserved(n, []);
    var init := Program(AfterSemaphore(n, []), map[]);
    forall s: Program, e: Event | Inv(n, s) ensures Inv(n, Step(s, e)) {
      StepKeeps(n, s, e);
    }
    Invariant(Step, (s: Program) => Inv(n, s), init, es);
  }

  // ---------------------------------------------------------------------------
  // Main results
  // ---------------------------------------------------------------------------

  /** What programs do with guards is what owners may do with the primitive: each run is a run of
      Handover, whose results therefore hold of it. */
  lemma {:induction false} GuardsAreOwners(n: nat, es: seq<Event>) returns (ops: seq<Call>)
    ensures After(n, es).sem == AfterSemaphore(n, ops)
  {
    if es == [] {
      ops := [];
    } else {
      ops := GuardsAreOwners(n, es[..|es| - 1]);
      var s, e := After(n, es[..|es| - 1]), es[|es| - 1];
      if Step(s, e).sem != s.sem {
        var op := if e.Up? then Op(e.e)
                  else if e.Receive? then Op(Resume(e.h))
                  else if e.DirectRelease? then ReleaseCall
                  else Op(Release(s.guards[e.g].value));
        assert (ops + [op])[..|ops|] == ops;
        ops := ops + [op];
      }
    }
  }

  ghost function Live(guards: map<Name, Option<Handle>>): set<Name> {
    set g | g in guards && guards[g].Some?
  }

  ghost function In(s: Sys<Semaphore>, p: Phase): set<Handle> {
    set h | h in s.ops && s.ops[h] == p
  }

  /** Live guards and holding operations are in one-to-one correspondence. */
  lemma LiveAreHolding(s: Program)
    requires OneEach(s.guards) && forall h :: GrantOk(s, h)
    ensures |Live(s.guards)| == |In(s.sem, Holding)|
  {
    var f := map g | g in Live(s.guards) :: s.guards[g].value;
    forall h | h in In(s.sem, Holding) ensures exists g :: g in f && f[g] == h {
      assert GrantOk(s, h);
      var g :| g in s.guards && s.guards[g] == Some(h);
      assert g in f;
    }
    forall g | g in f ensures f[g] in In(s.sem, Holding) {
      HeldBy(s, g);
      assert GrantOk(s, f[g]);
    }
    ImageSize(f, Live(s.guards), In(s.sem, Holding));
  }

  /** Permits that are free, granted but not received yet, or behind a guard make up the initial
      count, however guards were moved. */
  lemma PermitsInGuards(n: nat, es: seq<Event>)
    ensures var s := After(n, es);
            s.sem.core.count + |In(s.sem, Granted)| + |Live(s.guards)| == n + s.sem.extra
  {
    Reachable(n, es);
    var s := After(n, es);
    LiveAreHolding(s);
    assert Owners(s.sem.ops) == In(s.sem, Granted) + In(s.sem, Holding);
  }

  /** A release of h's grant: h has given it back, and the permit is free again or the longest waiting
      operation has it; everybody else that holds one goes on holding it. */
  ghost predicate GivesBack(s: Sys<Semaphore>, t: Sys<Semaphore>, h: Handle) {
    && At(s, h, Holding) && At(t, h, Released)
    && (forall k :: At(t, k, Holding) <==> At(s, k, Holding) && k != h)
    && if s.core.waiters == [] then t.core == s.core.(count := s.core.count + 1)
       else t.core == s.core.(waiters := s.core.waiters[1..]) && At(t, s.core.waiters[0], Granted)
  }

  lemma ReleaseGivesBack(n: nat, s: Program, h: Handle)
    requires Inv(n, s) && At(s.sem, h, Holding)
    ensures GivesBack(s.sem, SemaphoreStep(s.sem, Op(Release(h))), h)
  {
    ReleaseHolding(n, s.sem, h);
    assert s.sem.core.waiters != [] ==> s.sem.core.waiters[0] in s.sem.core.waiters;
  }

  /** The end of a guard is one release: of its own grant, which no other guard stands for. */
  lemma GuardEndsReleaseOnce(n: nat, es: seq<Event>, g: Name)
    requires g in After(n, es).guards && After(n, es).guards[g].Some?
    ensures var s := After(n, es);
            var h := s.guards[g].value;
            var t := Step(s, Destruct(g));
            GivesBack(s.sem, t.sem, h) && forall f :: f in t.guards ==> t.guards[f] != Some(h)
  {
    Reachable(n, es);
    var s := After(n, es);
    HeldBy(s, g);
    assert GrantOk(s, s.guards[g].value);
    ReleaseGivesBack(n, s, s.guards[g].value);
  }

  /** Assigning to a guard gives its own grant back there and then, and just that one; it takes over the
      other guard's grant, which stays held, and leaves the other one empty. */
  lemma AssignReleasesOnce(n: nat, es: seq<Event>, g: Name, from: Name)
    requires g in After(n, es).guards && from in After(n, es).guards && g != from
    ensures var s := After(n, es);
            var t := After(n, es + [Assign(g, from)]);
            && t.guards == s.guards[g := s.guards[from]][from := None]
            && (if s.guards[g].Some? then GivesBack(s.sem, t.sem, s.guards[g].value) else t.sem == s.sem)
            && (s.guards[from].Some? ==> At(t.sem, s.guards[from].value, Holding))
            && forall f :: f in t.guards && s.guards[g].Some? ==> t.guards[f] != s.guards[g]
  {
    Reachable(n, es);
    var s := After(n, es);
    assert (es + [Assign(g, from)])[..|es|] == es;
    if s.guards[g].Some? {
      HeldBy(s, g);
      assert GrantOk(s, s.guards[g].value);
      ReleaseGivesBack(n, s, s.guards[g].value);
    }
    if s.guards[from].Some? {
      HeldBy(s, from);
      assert GrantOk(s, s.guards[from].value);
    }
  }

  /** Moving a guard hands its grant on and releases nothing. */
  lemma MoveReleasesNothing(n: nat, es: seq<Event>, g: Name, from: Name)
    requires g !in After(n, es).guards && from in After(n, es).guards
    ensures var s := After(n, es);
            var t := After(n, es + [MoveTo(g, from)]);
            t.sem == s.sem && t.guards == s.guards[g := s.guards[from]][from := None]
  {
    assert (es + [MoveTo(g, from)])[..|es|] == es;
  }
}

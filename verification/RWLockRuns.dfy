/** Every interleaving of any number of readers and writers on one read-write lock. */
module RWLockRuns {
  import opened Common
  import opened Runs
  import opened LockPhases
  import opened RWLock

  datatype Kind = Reader | Writer

  datatype Op = Op(kind: Kind, phase: Phase)

  /** Those that began to wait, and those an unlock handed back, in these orders. */
  datatype Line = Line(queued: seq<Handle>, served: seq<Handle>)

  /** The lock, the operations, and what no code reads: hand-overs to a waiting writer, batches of
      waiting readers let in, entries that did not wait, and the lines of readers and of writers. */
  datatype Sys = Sys(core: Core, ops: map<Handle, Op>, handovers: nat, batches: nat, direct: nat,
                     readers: Line, writers: Line)

  datatype Event =
    | New(h: Handle, kind: Kind) | AwaitReady(h: Handle) | AwaitSuspend(h: Handle)
    | Resume(h: Handle) | Unlock(h: Handle)

  const INIT := Sys(FREE, map[], 0, 0, 0, Line([], []), Line([], []))

  predicate At(s: Sys, h: Handle, p: Phase) {
    h in s.ops && s.ops[h].phase == p
  }

  function SetPhase(s: Sys, h: Handle, p: Phase): Sys
    requires h in s.ops
  {
    s.(ops := s.ops[h := s.ops[h].(phase := p)])
  }

  function Wake(s: Sys, woken: seq<Handle>): Sys {
    s.(ops := map h | h in s.ops :: if h in woken then s.ops[h].(phase := Granted) else s.ops[h])
  }

  function Step(s: Sys, e: Event): Sys {
    match e
    case New(h, kind) => if h in s.ops then s else s.(ops := s.ops[h := Op(kind, Calling)])
    case AwaitReady(h) => if At(s, h, Calling) then Try(s, h, false) else s
    case AwaitSuspend(h) => if At(s, h, Retrying) then Try(s, h, true) else s
    case Resume(h) => if At(s, h, Granted) then SetPhase(s, h, Holding) else s
    case Unlock(h) => if At(s, h, Holding) then Release(s, h) else s
  }

  function Try(s: Sys, h: Handle, suspend: bool): Sys
    requires h in s.ops
  {
    var (c, yes) := match s.ops[h].kind
      case Reader => if suspend then OnReadSuspend(s.core, h) else OnReadReady(s.core)
      case Writer => if suspend then OnWriteSuspend(s.core, h) else OnWriteReady(s.core);
    if yes == suspend then
      if suspend then Queue(SetPhase(s, h, Parked), h).(core := c) else SetPhase(s, h, Retrying).(core := c)
    else SetPhase(s, h, Granted).(core := c, direct := s.direct + 1)
  }

  function Queue(s: Sys, h: Handle): Sys
    requires h in s.ops
  {
    match s.ops[h].kind
    case Reader => s.(readers := s.readers.(queued := s.readers.queued + [h]))
    case Writer => s.(writers := s.writers.(queued := s.writers.queued + [h]))
  }

  function Serve(line: Line, woken: seq<Handle>): Line {
    line.(served := line.served + woken)
  }

  function Release(s: Sys, h: Handle): Sys
    requires h in s.ops
  {
    match s.ops[h].kind
    case Reader =>
      if s.core.readerCount == 0 then s
      else
        var (c, woken) := OnReadUnlock(s.core);
        Wake(SetPhase(s, h, Released), woken).(
          core := c, handovers := s.handovers + |woken|, writers := Serve(s.writers, woken))
    case Writer =>
      var (c, woken) := OnWriteUnlock(s.core);
      if s.core.readers != [] then
        Wake(SetPhase(s, h, Released), woken).(core := c, batches := s.batches + 1, readers := Serve(s.readers, woken))
      else
        Wake(SetPhase(s, h, Released), woken).(
          core := c, handovers := s.handovers + |woken|, writers := Serve(s.writers, woken))
  }

  // ---------------------------------------------------------------------------
  // The joint invariant
  // ---------------------------------------------------------------------------

  predicate Owns(op: Op, kind: Kind) {
    op.kind == kind && (op.phase.Granted? || op.phase.Holding?)
  }

  ghost function Owners(ops: map<Handle, Op>, kind: Kind): set<Handle> {
    set h | h in ops && Owns(ops[h], kind)
  }

  ghost predicate CoreInv(c: Core) {
    && (c.writeLocked ==> c.readerCount == 0)
    && (c.writers != [] ==> c.writeLocked || c.readerCount > 0)
    && (c.readers != [] ==> c.writeLocked || (c.readerCount > 0 && c.writers != []))
  }

  ghost predicate ListsInv(s: Sys) {
    && NoDup(s.core.readers) && NoDup(s.core.writers)
    && (forall h :: h in s.core.readers <==> At(s, h, Parked) && s.ops[h].kind.Reader?)
    && (forall h :: h in s.core.writers <==> At(s, h, Parked) && s.ops[h].kind.Writer?)
  }

  ghost predicate OwnersInv(s: Sys) {
    && |Owners(s.ops, Reader)| == s.core.readerCount
    && |Owners(s.ops, Writer)| == (if s.core.writeLocked then 1 else 0)
  }

  ghost predicate Inv(s: Sys) {
    CoreInv(s.core) && ListsInv(s) && OwnersInv(s)
  }

  lemma TryKeepsCore(s: Sys, h: Handle, suspend: bool)
    requires CoreInv(s.core) && At(s, h, if suspend then Retrying else Calling)
    ensures CoreInv(Try(s, h, suspend).core)
  {
  }

  lemma TryKeepsLists(s: Sys, h: Handle, suspend: bool)
    requires ListsInv(s) && At(s, h, if suspend then Retrying else Calling)
    ensures ListsInv(Try(s, h, suspend))
  {
    assert h !in s.core.readers && h !in s.core.writers;
  }

  lemma TryOwners(s: Sys, h: Handle, suspend: bool, kind: Kind)
    requires At(s, h, if suspend then Retrying else Calling)
    ensures h !in Owners(s.ops, kind)
    ensures var t := Try(s, h, suspend);
            Owners(t.ops, kind) ==
            Owners(s.ops, kind) + (if kind == s.ops[h].kind && t.direct > s.direct then {h} else {})
  {
    var p := Try(s, h, suspend).ops[h].phase;
    assert Try(s, h, suspend).ops == SetPhase(s, h, p).ops;
  }

  lemma TryKeepsOwners(s: Sys, h: Handle, suspend: bool)
    requires CoreInv(s.core) && OwnersInv(s) && At(s, h, if suspend then Retrying else Calling)
    ensures OwnersInv(Try(s, h, suspend))
  {
    TryOwners(s, h, suspend, Reader);
    TryOwners(s, h, suspend, Writer);
  }

  /** Who an unlock by h wakes, and their kind. */
  ghost function Woken(s: Sys, h: Handle): (seq<Handle>, Kind)
    requires h in s.ops
  {
    match s.ops[h].kind
    case Reader => (if s.core.readerCount == 0 then [] else OnReadUnlock(s.core).1, Writer)
    case Writer => (OnWriteUnlock(s.core).1, if s.core.readers != [] then Reader else Writer)
  }

  lemma ReleaseKeepsLists(s: Sys, h: Handle)
    requires Inv(s) && At(s, h, Holding)
    ensures var t := Release(s, h); CoreInv(t.core) && ListsInv(t)
  {
    assert h in Owners(s.ops, s.ops[h].kind);
  }

  lemma ReleaseOwners(s: Sys, h: Handle, kind: Kind)
    requires ListsInv(s) && At(s, h, Holding) && (s.ops[h].kind.Reader? ==> s.core.readerCount > 0)
    ensures var (woken, wk) := Woken(s, h);
            var added := if kind == wk then Elements(woken) else {};
            && added !! Owners(s.ops, kind)
            && Owners(Release(s, h).ops, kind) == Owners(s.ops, kind) - {h} + added
  {
    var (woken, wk) := Woken(s, h);
    var mid := SetPhase(s, h, Released);
    assert h !in woken;
    assert Release(s, h).ops == Wake(mid, woken).ops;
  }

  lemma ReleaseKeepsOwners(s: Sys, h: Handle)
    requires CoreInv(s.core) && OwnersInv(s) && ListsInv(s) && At(s, h, Holding)
    ensures OwnersInv(Release(s, h))
  {
    var k := s.ops[h].kind;
    var (woken, _) := Woken(s, h);
    assert h in Owners(s.ops, k) && h !in Owners(s.ops, if k.Reader? then Writer else Reader);
    NoDupSize(woken);
    ReleaseOwners(s, h, Reader);
    ReleaseOwners(s, h, Writer);
  }

  lemma StepKeeps(s: Sys, e: Event)
    requires Inv(s)
    ensures Inv(Step(s, e))
  {
    match e
    case New(h, kind) =>
      assert forall k :: Owners(Step(s, e).ops, k) == Owners(s.ops, k);
    case AwaitReady(h) =>
      if At(s, h, Calling) { TryKeepsCore(s, h, false); TryKeepsLists(s, h, false); TryKeepsOwners(s, h, false); }
    case AwaitSuspend(h) =>
      if At(s, h, Retrying) { TryKeepsCore(s, h, true); TryKeepsLists(s, h, true); TryKeepsOwners(s, h, true); }
    case Resume(h) =>
      assert forall k :: Owners(Step(s, e).ops, k) == Owners(s.ops, k);
    case Unlock(h) =>
      if At(s, h, Holding) { ReleaseKeepsLists(s, h); ReleaseKeepsOwners(s, h); }
  }

  ghost function After(es: seq<Event>): Sys {
    Run(Step, INIT, es)
  }

  lemma Reachable(es: seq<Event>)
    ensures Inv(After(es))
  {
    assert Owners(INIT.ops, Reader) == {} && Owners(INIT.ops, Writer) == {};
    KeptByRuns(INIT, es);
  }

  lemma KeptByRuns(s: Sys, es: seq<Event>)
    requires Inv(s)
    ensures Inv(Run(Step, s, es))
  {
    forall t: Sys, e: Event | Inv(t) ensures Inv(Step(t, e)) {
      StepKeeps(t, e);
    }
    Invariant(Step, s => Inv(s), s, es);
  }

  // ---------------------------------------------------------------------------
  // Main results
  // ---------------------------------------------------------------------------

  predicate OwnsLock(s: Sys, h: Handle) {
    h in s.ops && (Owns(s.ops[h], Reader) || Owns(s.ops[h], Writer))
  }

  /** Exclusion, from being granted the lock until releasing it: two owners are two readers. The
      counter is exact, a free lock has nobody waiting, and nobody waits while they could enter. */
  lemma ExclusionAndNoStranding(es: seq<Event>, g: Handle, h: Handle)
    ensures var s := After(es);
            && (g != h && OwnsLock(s, g) && OwnsLock(s, h) ==> s.ops[g].kind.Reader? && s.ops[h].kind.Reader?)
            && |Owners(s.ops, Reader)| == s.core.readerCount
            && |Owners(s.ops, Writer)| == (if s.core.writeLocked then 1 else 0)
            && (At(s, h, Parked) ==> s.core.writeLocked || s.core.readerCount > 0)
            && (At(s, h, Parked) && s.ops[h].kind.Reader? ==> s.core.writeLocked || s.core.writers != [])
  {
    Reachable(es);
    var s := After(es);
    var readers, writers := Owners(s.ops, Reader), Owners(s.ops, Writer);
    assert readers == {} || writers == {};
    if g in writers && h in writers {
      Single(writers, g, h);
    }
    assert forall x :: OwnsLock(s, x) ==> x in readers || x in writers;
  }

  lemma Single(a: set<Handle>, x: Handle, y: Handle)
    requires |a| <= 1 && x in a && y in a
    ensures x == y
  {
    assert |a - {x}| == 0;
    assert y !in a - {x};
  }

  /** Each try of an operation is granted exactly when the lock is free for it: a reader when no writer
      owns it or waits, a writer when nobody owns it. */
  lemma EntersIffFree(es: seq<Event>, h: Handle)
    requires At(After(es), h, Calling) || At(After(es), h, Retrying)
    ensures var s := After(es);
            var t := Step(s, if At(s, h, Calling) then AwaitReady(h) else AwaitSuspend(h));
            At(t, h, Granted) <==>
            && Owners(s.ops, Writer) == {}
            && (s.ops[h].kind.Reader? ==> forall g :: At(s, g, Parked) ==> s.ops[g].kind.Reader?)
            && (s.ops[h].kind.Writer? ==> Owners(s.ops, Reader) == {})
  {
    Reachable(es);
    var s := After(es);
    assert s.core.writers != [] ==> s.core.writers[0] in s.core.writers;
    assert |Owners(s.ops, Writer)| == 0 <==> Owners(s.ops, Writer) == {};
    assert |Owners(s.ops, Reader)| == 0 <==> Owners(s.ops, Reader) == {};
  }

  /** A line has handed back its first ones, and the others wait. */
  ghost predicate LinesInv(s: Sys) {
    && s.readers.queued == s.readers.served + s.core.readers
    && s.writers.queued == s.writers.served + s.core.writers
  }

  lemma TryKeepsLines(s: Sys, h: Handle, suspend: bool)
    requires LinesInv(s) && At(s, h, if suspend then Retrying else Calling)
    ensures LinesInv(Try(s, h, suspend))
  {
    var t := Try(s, h, suspend);
    if t.readers != s.readers {
      assert s.readers.served + (s.core.readers + [h]) == s.readers.queued + [h];
    } else if t.writers != s.writers {
      assert s.writers.served + (s.core.writers + [h]) == s.writers.queued + [h];
    }
  }

  lemma ServedFromFront(line: Line, waiting: seq<Handle>, n: nat)
    requires line.queued == line.served + waiting && n <= |waiting|
    ensures line.queued == Serve(line, waiting[..n]).served + waiting[n..]
  {
  }

  lemma ReleaseKeepsLines(s: Sys, h: Handle)
    requires LinesInv(s) && At(s, h, Holding)
    ensures LinesInv(Release(s, h))
  {
    var t := Release(s, h);
    var n, m := |s.core.readers| - |t.core.readers|, |s.core.writers| - |t.core.writers|;
    ServedFromFront(s.readers, s.core.readers, n);
    ServedFromFront(s.writers, s.core.writers, m);
    assert t.core.readers == s.core.readers[n..] && t.core.writers == s.core.writers[m..];
    assert t.readers == Serve(s.readers, s.core.readers[..n]) && t.writers == Serve(s.writers, s.core.writers[..m]);
  }

  /** Only what waited or waits is in a line, once. */
  ghost predicate MembersOk(s: Sys, queued: seq<Handle>) {
    NoDup(queued) && forall h :: h in queued ==> h in s.ops && Order(s.ops[h].phase) >= 2
  }

  ghost predicate MembersInv(s: Sys) {
    MembersOk(s, s.readers.queued) && MembersOk(s, s.writers.queued)
  }

  lemma MembersStay(s: Sys, e: Event, queued: seq<Handle>)
    requires ListsInv(s) && MembersOk(s, queued)
    ensures MembersOk(Step(s, e), queued)
  {
    forall h | h in queued ensures h in Step(s, e).ops && Order(Step(s, e).ops[h].phase) >= 2 {
      PhasesAdvance(s, e, h);
    }
  }

  lemma MemberAdded(s: Sys, e: Event, queued: seq<Handle>, h: Handle)
    requires ListsInv(s) && MembersOk(s, queued) && At(s, h, Retrying) && At(Step(s, e), h, Parked)
    ensures MembersOk(Step(s, e), queued + [h])
  {
    MembersStay(s, e, queued);
    assert h !in queued;
  }

  lemma QueuedStep(s: Sys, e: Event)
    ensures var t := Step(s, e);
            if e.AwaitSuspend? && At(s, e.h, Retrying) && At(t, e.h, Parked) then
              if s.ops[e.h].kind.Reader? then
                t.readers.queued == s.readers.queued + [e.h] && t.writers.queued == s.writers.queued
              else t.writers.queued == s.writers.queued + [e.h] && t.readers.queued == s.readers.queued
            else t.readers.queued == s.readers.queued && t.writers.queued == s.writers.queued
  {
  }

  lemma StepKeepsLines(s: Sys, e: Event)
    requires Inv(s) && LinesInv(s) && MembersInv(s)
    ensures LinesInv(Step(s, e)) && MembersInv(Step(s, e))
  {
    match e {
      case AwaitReady(h) => if At(s, h, Calling) { TryKeepsLines(s, h, false); }
      case AwaitSuspend(h) => if At(s, h, Retrying) { TryKeepsLines(s, h, true); }
      case Unlock(h) => if At(s, h, Holding) { ReleaseKeepsLines(s, h); }
      case _ =>
    }
    QueuedStep(s, e);
    MembersStay(s, e, s.readers.queued);
    MembersStay(s, e, s.writers.queued);
    if e.AwaitSuspend? && At(s, e.h, Retrying) && At(Step(s, e), e.h, Parked) {
      MemberAdded(s, e, if s.ops[e.h].kind.Reader? then s.readers.queued else s.writers.queued, e.h);
    }
  }

  lemma {:induction false} LinesKept(es: seq<Event>)
    ensures LinesInv(After(es)) && MembersInv(After(es))
  {
    if es != [] {
      LinesKept(es[..|es| - 1]);
      Reachable(es[..|es| - 1]);
      StepKeepsLines(After(es[..|es| - 1]), es[|es| - 1]);
    }
  }

  /** Unlocks hand back readers, and writers, in the order in which they began to wait, each once; and
      those not handed back yet are the ones that wait. */
  lemma ServedOnceInOrder(es: seq<Event>, h: Handle)
    ensures var s := After(es);
            && s.readers.queued == s.readers.served + s.core.readers && NoDup(s.readers.queued)
            && s.writers.queued == s.writers.served + s.core.writers && NoDup(s.writers.queued)
            && (At(s, h, Parked) <==> h in s.core.readers || h in s.core.writers)
  {
    Reachable(es);
    LinesKept(es);
  }

  /** When a writer lets a batch of readers in, overwriting the reader counter loses nothing. */
  lemma BatchIsExact(es: seq<Event>, h: Handle)
    requires At(After(es), h, Holding) && After(es).ops[h].kind.Writer? && After(es).core.readers != []
    ensures var s := After(es);
            s.core.readerCount == 0 && Owners(s.ops, Reader) == {} &&
            Owners(Step(s, Unlock(h)).ops, Reader) == Elements(s.core.readers) &&
            |Elements(s.core.readers)| == |s.core.readers|
  {
    Reachable(es);
    var s := After(es);
    assert h in Owners(s.ops, Writer);
    ReleaseOwners(s, h, Reader);
    NoDupSize(s.core.readers);
    assert Owners(s.ops, Reader) == {};
  }

  // ---------------------------------------------------------------------------
  // Bounded bypass
  // ---------------------------------------------------------------------------

  /** How far a waiting operation is from the lock: phases that can still come before its own. */
  ghost function Rank(s: Sys, h: Handle): nat
    requires ListsInv(s) && At(s, h, Parked)
  {
    match s.ops[h].kind
    case Reader => if s.core.writeLocked then 0 else 1
    case Writer => 2 * IndexOf(s.core.writers, h) + (if s.core.writeLocked then 1 else 0)
  }

  /** Writers queued before h. */
  ghost function Ahead(s: Sys, h: Handle): nat
    requires ListsInv(s) && At(s, h, Parked)
  {
    match s.ops[h].kind
    case Reader => 0
    case Writer => IndexOf(s.core.writers, h)
  }

  /** What may have passed a waiting h between s and t. */
  ghost predicate Passed(s: Sys, t: Sys, h: Handle)
    requires ListsInv(s) && At(s, h, Parked) && ListsInv(t) && At(t, h, Parked)
  {
    && s.ops[h].kind == t.ops[h].kind
    && t.direct == s.direct
    && (t.handovers - s.handovers) + (t.batches - s.batches) <= Rank(s, h) - Rank(t, h)
    && (s.ops[h].kind.Reader? ==> t.batches == s.batches)
    && (s.ops[h].kind.Writer? ==> t.handovers - s.handovers == Ahead(s, h) - Ahead(t, h))
    && (t.batches - s.batches) <= (Rank(s, h) - Ahead(s, h)) - (Rank(t, h) - Ahead(t, h))
    && s.handovers <= t.handovers && s.batches <= t.batches
  }

  function Order(p: Phase): nat {
    match p
    case Calling => 0 case Retrying => 1 case Parked => 2
    case Granted => 3 case Holding => 4 case Released => 5
  }

  lemma PhasesAdvance(s: Sys, e: Event, h: Handle)
    requires ListsInv(s) && h in s.ops
    ensures h in Step(s, e).ops && Order(s.ops[h].phase) <= Order(Step(s, e).ops[h].phase)
  {
  }

  lemma {:induction false} PhasesAdvanceInRuns(s: Sys, es: seq<Event>, h: Handle)
    requires Inv(s) && h in s.ops
    ensures h in Run(Step, s, es).ops && Order(s.ops[h].phase) <= Order(Run(Step, s, es).ops[h].phase)
  {
    if es != [] {
      KeptByRuns(s, es[..|es| - 1]);
      PhasesAdvanceInRuns(s, es[..|es| - 1], h);
      PhasesAdvance(Run(Step, s, es[..|es| - 1]), es[|es| - 1], h);
    }
  }

  lemma ReleasePasses(s: Sys, u: Handle, h: Handle)
    requires Inv(s) && At(s, h, Parked) && At(s, u, Holding) && ListsInv(Release(s, u)) && At(Release(s, u), h, Parked)
    ensures Passed(s, Release(s, u), h)
  {
    assert h in (if s.ops[h].kind.Reader? then s.core.readers else s.core.writers);
    assert u in Owners(s.ops, s.ops[u].kind);
  }

  lemma TryPasses(s: Sys, g: Handle, suspend: bool, h: Handle)
    requires CoreInv(s.core) && ListsInv(s) && At(s, h, Parked) && At(s, g, if suspend then Retrying else Calling)
    requires ListsInv(Try(s, g, suspend)) && At(Try(s, g, suspend), h, Parked)
    ensures Passed(s, Try(s, g, suspend), h)
  {
    assert h in (if s.ops[h].kind.Reader? then s.core.readers else s.core.writers);
  }

  lemma StepPasses(s: Sys, e: Event, h: Handle)
    requires Inv(s) && At(s, h, Parked) && Inv(Step(s, e)) && At(Step(s, e), h, Parked)
    ensures Passed(s, Step(s, e), h)
  {
    match e
    case AwaitReady(g) => if At(s, g, Calling) { TryPasses(s, g, false, h); }
    case AwaitSuspend(g) => if At(s, g, Retrying) { TryPasses(s, g, true, h); }
    case Unlock(u) => if At(s, u, Holding) { ReleasePasses(s, u, h); }
    case _ =>
  }

  lemma {:induction false} RunPasses(s: Sys, es: seq<Event>, h: Handle)
    requires Inv(s) && At(s, h, Parked) && At(Run(Step, s, es), h, Parked)
    ensures Inv(Run(Step, s, es)) && Passed(s, Run(Step, s, es), h)
  {
    KeptByRuns(s, es);
    if es != [] {
      var t := Run(Step, s, es[..|es| - 1]);
      KeptByRuns(s, es[..|es| - 1]);
      PhasesAdvanceInRuns(s, es[..|es| - 1], h);
      PhasesAdvance(t, es[|es| - 1], h);
      RunPasses(s, es[..|es| - 1], h);
      StepPasses(t, es[|es| - 1], h);
    }
  }

  /** Bounded bypass: from a reachable state on, and for as long as h waits, nobody enters without
      waiting. A reader sees at most one writer enter and no batch of readers; a writer with k
      writers before it sees at most k writers and k + 1 batches, and only k batches if the lock
      was not write-locked when h began to wait. */
  lemma BoundedBypass(es: seq<Event>, fs: seq<Event>, h: Handle)
    requires At(After(es), h, Parked) && At(After(es + fs), h, Parked)
    ensures Inv(After(es))
    ensures var s := After(es);
            var t := After(es + fs);
            var k := Ahead(s, h);
            && t.direct == s.direct
            && (s.ops[h].kind.Reader? ==> t.handovers - s.handovers <= 1 && t.batches == s.batches)
            && (s.ops[h].kind.Writer? ==> t.handovers - s.handovers <= k &&
                                          t.batches - s.batches <= k + (if s.core.writeLocked then 1 else 0))
  {
    Reachable(es);
    Split(Step, INIT, es, fs);
    RunPasses(After(es), fs, h);
  }

  /** While h waits, each release brings it closer, and nothing moves it back. */
  lemma ReleasesHelp(s: Sys, e: Event, h: Handle)
    requires Inv(s) && At(s, h, Parked) && Inv(Step(s, e)) && At(Step(s, e), h, Parked)
    ensures var t := Step(s, e);
            && (Rank(t, h) < Rank(s, h) || (Rank(t, h) == Rank(s, h) && t.core.readerCount <= s.core.readerCount))
            && (e.Unlock? && At(s, e.h, Holding) ==> Rank(t, h) < Rank(s, h) || t.core.readerCount < s.core.readerCount)
  {
    StepPasses(s, e, h);
    if e.Unlock? && At(s, e.h, Holding) {
      assert e.h in Owners(s.ops, s.ops[e.h].kind);
    }
  }

  /** Some owner can go on and release, which serves h or brings it closer. */
  lemma SomeOwnerHelps(s: Sys, h: Handle) returns (u: Handle)
    requires Inv(s) && At(s, h, Parked)
    ensures var t := Step(Step(s, Resume(u)), Unlock(u));
            && Inv(t)
            && (At(t, h, Granted) ||
                (At(t, h, Parked) && (Rank(t, h) < Rank(s, h) ||
                                      (Rank(t, h) == Rank(s, h) && t.core.readerCount < s.core.readerCount))))
  {
    assert h in (if s.ops[h].kind.Reader? then s.core.readers else s.core.writers);
    u :| u in Owners(s.ops, if s.core.writeLocked then Writer else Reader);
    var t := Step(s, Resume(u));
    StepKeeps(s, Resume(u));
    ReleasesHelp(s, Resume(u), h);
    assert At(t, u, Holding) && t.core == s.core;
    StepKeeps(t, Unlock(u));
    PhasesAdvance(t, Unlock(u), h);
    if At(Step(t, Unlock(u)), h, Parked) {
      ReleasesHelp(t, Unlock(u), h);
    }
  }

  /** Nobody is stranded: from any reachable state, letting owners go on and release grants h. */
  lemma {:induction false} WaitersCanBeServed(s: Sys, h: Handle) returns (es: seq<Event>)
    requires Inv(s) && At(s, h, Parked)
    ensures At(Run(Step, s, es), h, Granted)
    ensures forall e :: e in es ==> e.Resume? || e.Unlock?
    decreases Rank(s, h), s.core.readerCount
  {
    var u := SomeOwnerHelps(s, h);
    Two(Step, s, Resume(u), Unlock(u));
    es := [Resume(u), Unlock(u)];
    if !At(Run(Step, s, es), h, Granted) {
      var rest := WaitersCanBeServed(Run(Step, s, es), h);
      Split(Step, s, es, rest);
      es := es + rest;
    }
  }
}

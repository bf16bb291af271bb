/** Fork and join: a latch counts N children and the parent itself; the last to arrive lets the
    parent go on. */
module WhenAll {
  import opened Common
  import opened Runs

  /** The latch; awaiting is the handle of the suspended parent. */
  datatype Latch = Latch(count: nat, awaiting: Option<Handle>)

  function NewLatch(n: nat): Latch {
    Latch(n + 1, None)
  }

  function OnStore(l: Latch, h: Handle): Latch {
    l.(awaiting := Some(h))
  }

  /** fetch_sub: whoever sees a count of one before it is the last to arrive. */
  function OnFetchSub(l: Latch): (Latch, nat)
    requires l.count > 0
  {
    (l.(count := l.count - 1), l.count)
  }

  class WhenAllLatch {
    var count: nat
    var awaiting: Option<Handle>

    ghost function State(): Latch
      reads this
    {
      Latch(count, awaiting)
    }

    constructor (n: nat)
      ensures State() == NewLatch(n)
    {
      count, awaiting := n + 1, None;
    }

    /** Store the handle, then drop the parent's own count. */
    method TryAwait(h: Handle) returns (suspend: bool)
      requires count > 0
      modifies this
      ensures var (l, before) := OnFetchSub(OnStore(old(State()), h)); State() == l && suspend == (before > 1)
    {
      awaiting := Some(h);
      var before := count;
      count := count - 1;
      suspend := before > 1;
    }

    /** Drop one count; the one that reaches zero resumes the parent. */
    method Notify() returns (toResume: Option<Handle>)
      requires count > 0
      modifies this
      ensures var (l, before) := OnFetchSub(old(State()));
              State() == l && toResume == (if before == 1 then l.awaiting else None)
    {
      var before := count;
      count := count - 1;
      toResume := if before == 1 then awaiting else None;
    }
  }

  // ---------------------------------------------------------------------------
  // The machine: one step is one atomic operation
  // ---------------------------------------------------------------------------

  /** A child: not started; running; its value stored but the latch not told; the one that brought
      the count to zero and has yet to read the parent's handle; and past its last latch access. */
  datatype Child<+V> = NotStarted | Working | Returned(value: V) | Last(value: V) | Done(value: V)

  /** The parent inside await_suspend, with the number of children it has started; then with its
      handle stored; then suspended; or past the await. */
  datatype Parent = Starting(started: nat) | Stored | Suspended | Continued

  const PARENT: Handle := 0

  /** fault is set by a count below zero, by resuming a missing handle or a parent that is not
      suspended, and by touching the latch once the parent may have destroyed it. */
  datatype Sys<+V> = Sys(latch: Latch, parent: Parent, children: seq<Child<V>>, continuations: nat, fault: bool)

  datatype Event<+V> =
    | StartNext | StoreHandle | ParentArrives
    | Return(i: nat, value: V) | ChildArrives(i: nat) | ResumeParent(i: nat)

  /** With no children await_ready is true and the parent does not suspend. */
  function Init<V>(n: nat): Sys<V> {
    if n == 0 then Sys(NewLatch(0), Continued, [], 1, false)
    else Sys(NewLatch(n), Starting(0), seq(n, i => NotStarted), 0, false)
  }

  /** fetch_sub on the count, giving the count before. */
  function FetchSub<V>(s: Sys<V>): (Sys<V>, nat) {
    if s.latch.count == 0 || s.parent.Continued? then (s.(fault := true), 0)
    else var (l, before) := OnFetchSub(s.latch); (s.(latch := l), before)
  }

  function Step<V>(s: Sys<V>, e: Event<V>): Sys<V> {
    match e
    case StartNext =>
      if s.parent.Starting? && s.parent.started < |s.children| then
        s.(parent := Starting(s.parent.started + 1), children := s.children[s.parent.started := Working])
      else s
    case StoreHandle =>
      if s.parent == Starting(|s.children|) then s.(parent := Stored, latch := OnStore(s.latch, PARENT)) else s
    case ParentArrives =>
      if s.parent.Stored? then
        var (t, before) := FetchSub(s);
        if before > 1 then t.(parent := Suspended) else t.(parent := Continued, continuations := t.continuations + 1)
      else s
    case Return(i, v) =>
      if i < |s.children| && s.children[i].Working? then s.(children := s.children[i := Returned(v)]) else s
    case ChildArrives(i) =>
      if i < |s.children| && s.children[i].Returned? then
        var (t, before) := FetchSub(s);
        var v := s.children[i].value;
        t.(children := s.children[i := if before == 1 then Last(v) else Done(v)])
      else s
    case ResumeParent(i) =>
      if i < |s.children| && s.children[i].Last? then
        var t := s.(children := s.children[i := Done(s.children[i].value)], continuations := s.continuations + 1);
        if s.latch.awaiting == Some(PARENT) && s.parent.Suspended? then t.(parent := Continued) else t.(fault := true)
      else s
  }

  // ---------------------------------------------------------------------------
  // The invariant
  // ---------------------------------------------------------------------------

  predicate BeforeArrival<V>(c: Child<V>) {
    c.NotStarted? || c.Working? || c.Returned?
  }

  /** Children that have not told the latch yet. */
  ghost function Pending<V>(cs: seq<Child<V>>): nat {
    Total(cs, (c: Child<V>) => if BeforeArrival(c) then 1 else 0)
  }

  lemma PendingUpdate<V>(cs: seq<Child<V>>, i: nat, c: Child<V>)
    requires i < |cs|
    ensures Pending(cs[i := c]) ==
            Pending(cs) - (if BeforeArrival(cs[i]) then 1 else 0) + (if BeforeArrival(c) then 1 else 0)
  {
    TotalUpdate(cs, (c: Child<V>) => if BeforeArrival(c) then 1 else 0, i, c);
  }

  lemma {:induction false} PendingBounds<V>(cs: seq<Child<V>>)
    ensures Pending(cs) <= |cs|
    ensures Pending(cs) == 0 <==> forall i :: 0 <= i < |cs| ==> !BeforeArrival(cs[i])
    ensures (forall i :: 0 <= i < |cs| ==> BeforeArrival(cs[i])) ==> Pending(cs) == |cs|
  {
    if cs != [] {
      var n := |cs| - 1;
      PendingBounds(cs[..n]);
      assert forall i :: 0 <= i < n ==> cs[..n][i] == cs[i];
    }
  }

  /** How many children were started. */
  function Started<V>(s: Sys<V>): nat {
    if s.parent.Starting? then s.parent.started else |s.children|
  }

  ghost predicate StartsInv<V>(s: Sys<V>) {
    && Started(s) <= |s.children|
    && (forall i :: 0 <= i < |s.children| ==> (s.children[i].NotStarted? <==> i >= Started(s)))
  }

  ghost predicate CountInv<V>(s: Sys<V>) {
    && s.latch.count == Pending(s.children) + (if s.parent.Starting? || s.parent.Stored? then 1 else 0)
    && s.latch.awaiting == (if s.parent.Starting? then None else Some(PARENT))
    && (s.parent.Continued? ==> s.latch.count == 0)
  }

  /** Exactly one child is about to resume the parent when the parent is suspended and the count is
      zero, and none is at any other time. */
  ghost predicate LastInv<V>(s: Sys<V>) {
    && (forall i :: 0 <= i < |s.children| && s.children[i].Last? ==> s.parent.Suspended? && s.latch.count == 0)
    && (forall i, j :: 0 <= i < j < |s.children| ==> !(s.children[i].Last? && s.children[j].Last?))
    && (s.parent.Suspended? ==> s.latch.count > 0 || exists i :: 0 <= i < |s.children| && s.children[i].Last?)
  }

  ghost predicate Inv<V>(s: Sys<V>) {
    && !s.fault
    && s.continuations == (if s.parent.Continued? then 1 else 0)
    && (s == Init(0) || (s.children != [] && StartsInv(s) && CountInv(s) && LastInv(s)))
  }

  lemma InitInv<V>(n: nat)
    ensures Inv(Init<V>(n))
  {
    PendingBounds(Init<V>(n).children);
  }

  lemma ParentKeeps<V>(s: Sys<V>, e: Event<V>)
    requires Inv(s) && (e.StartNext? || e.StoreHandle? || e.ParentArrives?)
    ensures Inv(Step(s, e))
  {
    PendingBounds(s.children);
    if e.StartNext? && s.parent.Starting? && s.parent.started < |s.children| {
      PendingUpdate(s.children, s.parent.started, Working);
    }
  }

  lemma ReturnKeeps<V>(s: Sys<V>, i: nat, v: V)
    requires Inv(s)
    ensures Inv(Step(s, Return(i, v)))
  {
    if i < |s.children| && s.children[i].Working? {
      PendingUpdate(s.children, i, Returned(v));
      assert forall j :: 0 <= j < |s.children| && s.children[j].Last? ==> Step(s, Return(i, v)).children[j].Last?;
    }
  }

  lemma ArrivalKeeps<V>(s: Sys<V>, i: nat)
    requires Inv(s)
    ensures Inv(Step(s, ChildArrives(i)))
  {
    if i < |s.children| && s.children[i].Returned? {
      var t := Step(s, ChildArrives(i));
      PendingBounds(s.children);
      PendingUpdate(s.children, i, t.children[i]);
      assert t.children == s.children[i := t.children[i]];
      if t.children[i].Last? {
        assert t.parent.Suspended? && t.latch.count == 0;
      }
    }
  }

  lemma ResumptionKeeps<V>(s: Sys<V>, i: nat)
    requires Inv(s)
    ensures Inv(Step(s, ResumeParent(i)))
  {
    if i < |s.children| && s.children[i].Last? {
      var t := Step(s, ResumeParent(i));
      PendingUpdate(s.children, i, t.children[i]);
      PendingBounds(t.children);
    }
  }

  lemma StepKeeps<V>(s: Sys<V>, e: Event<V>)
    requires Inv(s)
    ensures Inv(Step(s, e)) && |Step(s, e).children| == |s.children|
  {
    match e
    case StartNext => ParentKeeps(s, e);
    case StoreHandle => ParentKeeps(s, e);
    case ParentArrives => ParentKeeps(s, e);
    case Return(i, v) => ReturnKeeps(s, i, v);
    case ChildArrives(i) => ArrivalKeeps(s, i);
    case ResumeParent(i) => ResumptionKeeps(s, i);
  }

  // ---------------------------------------------------------------------------
  // Main results
  // ---------------------------------------------------------------------------

  ghost function After<V>(n: nat, es: seq<Event<V>>): Sys<V> {
    Run(Step<V>, Init(n), es)
  }

  ghost predicate InvAt<V>(n: nat, s: Sys<V>) {
    Inv(s) && |s.children| == n
  }

  lemma Reachable<V(!new)>(n: nat, es: seq<Event<V>>)
    ensures InvAt(n, After(n, es))
  {
    InitInv<V>(n);
    forall s: Sys<V>, e: Event<V> | InvAt(n, s) ensures InvAt(n, Step(s, e)) {
      StepKeeps(s, e);
    }
    Invariant(Step<V>, (s: Sys<V>) => InvAt(n, s), Init(n), es);
  }

  /** For every number of children and every interleaving: the parent continues at most once, only
      after every child has stored its value and made its last access to the latch; no count
      wraps, no handle is used before it is stored, and no child touches a latch that may be gone. */
  lemma JoinsAll<V(!new)>(n: nat, es: seq<Event<V>>)
    ensures var s := After(n, es);
            && !s.fault && s.continuations <= 1 && |s.children| == n
            && (s.parent.Continued? <==> s.continuations == 1)
            && (s.parent.Continued? ==> forall i :: 0 <= i < n ==> s.children[i].Done?)
  {
    Reachable(n, es);
    PendingBounds(After(n, es).children);
  }

  /** And it does continue: a suspended parent still has a child at work, or one about to resume it. */
  lemma ParentNotForgotten<V(!new)>(n: nat, es: seq<Event<V>>)
    requires After(n, es).parent.Suspended?
    ensures exists i :: 0 <= i < |After(n, es).children| && !After(n, es).children[i].Done?
  {
    Reachable(n, es);
    PendingBounds(After(n, es).children);
  }

  // ---------------------------------------------------------------------------
  // The parent does continue
  // ---------------------------------------------------------------------------

  /** The steps that are the latch's, and not a task's own. */
  predicate Protocol<V>(e: Event<V>) {
    e.StoreHandle? || e.ParentArrives? || e.ChildArrives? || e.ResumeParent?
  }

  ghost predicate AllReturned<V>(s: Sys<V>) {
    forall i :: 0 <= i < |s.children| ==> !s.children[i].NotStarted? && !s.children[i].Working?
  }

  /** Steps that are still to be taken for a child, and for the parent. */
  function ChildToGo<V>(c: Child<V>): nat {
    match c case NotStarted => 4 case Working => 3 case Returned(_) => 2 case Last(_) => 1 case Done(_) => 0
  }

  function ParentToGo(p: Parent): nat {
    match p case Starting(_) => 3 case Stored => 2 case Suspended => 1 case Continued => 0
  }

  ghost function ToGo<V>(s: Sys<V>): nat {
    Total(s.children, ChildToGo<V>) + ParentToGo(s.parent)
  }

  lemma ChildStepHelps<V>(s: Sys<V>, i: nat)
    requires Inv(s) && AllReturned(s) && s.parent.Suspended? && i < |s.children| && !s.children[i].Done?
    ensures var e := if s.children[i].Last? then ResumeParent(i) else ChildArrives(i);
            AllReturned(Step(s, e)) && ToGo(Step(s, e)) < ToGo(s)
  {
    var e := if s.children[i].Last? then ResumeParent(i) else ChildArrives(i);
    TotalUpdate(s.children, ChildToGo<V>, i, Step(s, e).children[i]);
  }

  /** Once all tasks have returned, some step of the latch is left until the parent continues. */
  lemma SomeStepHelps<V>(s: Sys<V>) returns (e: Event<V>)
    requires Inv(s) && AllReturned(s) && !s.parent.Continued?
    ensures Protocol(e) && Inv(Step(s, e)) && AllReturned(Step(s, e)) && ToGo(Step(s, e)) < ToGo(s)
  {
    PendingBounds(s.children);
    if s.parent.Starting? {
      e := StoreHandle;
    } else if s.parent.Stored? {
      e := ParentArrives;
    } else {
      var i :| 0 <= i < |s.children| && !s.children[i].Done?;
      e := if s.children[i].Last? then ResumeParent(i) else ChildArrives(i);
      ChildStepHelps(s, i);
    }
    StepKeeps(s, e);
  }

  /** From any reachable state in which all tasks have returned, steps of the latch alone lead to
      where the parent has continued, exactly once. */
  lemma {:induction false} ParentContinues<V>(s: Sys<V>) returns (es: seq<Event<V>>)
    requires Inv(s) && AllReturned(s)
    ensures var t := Run(Step<V>, s, es); t.parent.Continued? && t.continuations == 1 && !t.fault
    ensures forall e :: e in es ==> Protocol(e)
    decreases ToGo(s)
  {
    if s.parent.Continued? {
      es := [];
    } else {
      var e := SomeStepHelps(s);
      var rest := ParentContinues(Step(s, e));
      StepThenRun(Step<V>, s, e, rest);
      es := [e] + rest;
    }
  }

  /** A value once returned stays. */
  lemma ValuesStay<V>(s: Sys<V>, e: Event<V>, i: nat)
    requires Inv(s) && i < |s.children| && (s.children[i].Returned? || s.children[i].Last? || s.children[i].Done?)
    ensures var c := Step(s, e).children[i];
            (c.Returned? || c.Last? || c.Done?) && c.value == s.children[i].value
  {
  }

  /** await_resume: the values in the order the tasks were given, whatever the order of completion. */
  method AwaitResume<V>(children: seq<Child<V>>) returns (results: seq<V>)
    requires forall i :: 0 <= i < |children| ==> children[i].Done?
    ensures |results| == |children| && forall i :: 0 <= i < |children| ==> results[i] == children[i].value
  {
    results := [];
    for k := 0 to |children|
      invariant |results| == k && forall i :: 0 <= i < k ==> results[i] == children[i].value
    {
      results := results + [children[k].value];
    }
  }
}

/** A group of tasks on one thread: a count of outstanding tasks and an event that is set when there
    is none. User code may start tasks and wait from inside tasks and from inside resumed waiters. */
module TaskGroup {
  import opened Common
  import opened Runs
  import opened Signals = Event

  datatype Group = Group(size: nat, event: EventState)

  /** Start, up to where the code of the new task begins. */
  function OnStart(g: Group): Group {
    Group(g.size + 1, OnReset(g.event))
  }

  /** The completion callback, and the waiters it will resume. */
  function OnComplete(g: Group): (Group, seq<Handle>)
    requires g.size > 0
  {
    if g.size == 1 then var (ev, woken) := OnSet(g.event); (Group(0, ev), woken)
    else (Group(g.size - 1, g.event), [])
  }

  class TaskGroup {
    var size: nat
    const event: AsyncEvent

    ghost function State(): Group
      reads this, event
    {
      Group(size, event.State())
    }

    constructor ()
      ensures State() == Group(0, EventState(true, [])) && fresh(event)
    {
      size := 0;
      event := new AsyncEvent();
      new;
      var none := event.Set();
    }

    method Start()
      modifies this, event
      ensures State() == OnStart(old(State()))
    {
      event.Reset();
      size := size + 1;
    }

    method Completed() returns (toWake: seq<Handle>)
      requires size > 0
      modifies this, event
      ensures (State(), toWake) == OnComplete(old(State()))
    {
      toWake := [];
      var before := size;
      size := size - 1;
      if before == 1 {
        toWake := event.Set();
      }
    }
  }

  // ---------------------------------------------------------------------------
  // The machine: one step is what runs between two pieces of user code
  // ---------------------------------------------------------------------------

  datatype Wait = Calling | Retrying | Parked | Woken | Ready | Passed

  /** The group, its tasks and its waiters; and what no code reads: the waiters that were suspended,
      and those handed back to be resumed, in these orders. */
  datatype Sys = Sys(group: Group, running: set<Handle>, finished: set<Handle>, waits: map<Handle, Wait>,
                     suspended: seq<Handle>, woken: seq<Handle>)

  datatype Event =
    | StartTask(t: Handle) | CompleteTask(t: Handle)
    | NewWait(w: Handle) | AwaitReady(w: Handle) | AwaitSuspend(w: Handle) | Resume(w: Handle)

  const INIT := Sys(Group(0, EventState(true, [])), {}, {}, map[], [], [])

  predicate At(s: Sys, w: Handle, p: Wait) {
    w in s.waits && s.waits[w] == p
  }

  function Step(s: Sys, e: Event): Sys {
    match e
    case StartTask(t) =>
      if t in s.running || t in s.finished then s
      else s.(group := OnStart(s.group), running := s.running + {t})
    case CompleteTask(t) =>
      if t in s.running && s.group.size > 0 then
        var (g, woken) := OnComplete(s.group);
        s.(group := g, running := s.running - {t}, finished := s.finished + {t},
           waits := map w | w in s.waits :: if w in woken then Woken else s.waits[w], woken := s.woken + woken)
      else s
    case NewWait(w) => if w in s.waits then s else s.(waits := s.waits[w := Calling])
    case AwaitReady(w) =>
      if At(s, w, Calling) then s.(waits := s.waits[w := if s.group.event.signaled then Ready else Retrying]) else s
    case AwaitSuspend(w) =>
      if At(s, w, Retrying) then
        var (ev, suspended) := OnWaitSuspend(s.group.event, w);
        s.(group := s.group.(event := ev), waits := s.waits[w := if suspended then Parked else Ready],
           suspended := if suspended then s.suspended + [w] else s.suspended)
      else s
    case Resume(w) => if At(s, w, Woken) || At(s, w, Ready) then s.(waits := s.waits[w := Passed]) else s
  }

  ghost predicate Inv(s: Sys) {
    && s.group.size == |s.running|
    && (s.group.event.signaled <==> s.group.size == 0)
    && (s.group.event.signaled ==> s.group.event.waiters == [])
    && NoDup(s.group.event.waiters)
    && (forall w :: w in s.group.event.waiters <==> At(s, w, Parked))
  }

  /** Waiters are handed back in the order in which they were suspended, each once. */
  ghost predicate LineInv(s: Sys) {
    && s.suspended == s.woken + s.group.event.waiters
    && NoDup(s.suspended)
    && forall w :: w in s.suspended ==> At(s, w, Parked) || At(s, w, Woken) || At(s, w, Passed)
  }

  lemma TasksKeep(s: Sys, e: Event)
    requires Inv(s) && (e.StartTask? || e.CompleteTask?)
    ensures Inv(Step(s, e))
  {
  }

  lemma StepKeeps(s: Sys, e: Event)
    requires Inv(s)
    ensures Inv(Step(s, e))
  {
    if e.StartTask? || e.CompleteTask? {
      TasksKeep(s, e);
    } else if e.AwaitSuspend? && At(s, e.w, Retrying) {
      assert e.w !in s.group.event.waiters;
    }
  }

  lemma StepKeepsLine(s: Sys, e: Event)
    requires LineInv(s)
    ensures LineInv(Step(s, e))
  {
    var t := Step(s, e);
    if e.AwaitSuspend? && At(s, e.w, Retrying) {
      assert e.w !in s.suspended;
      assert s.woken + (s.group.event.waiters + [e.w]) == s.suspended + [e.w];
    } else if e.CompleteTask? && t.woken != s.woken {
      assert t.suspended == s.suspended && t.woken + [] == s.woken + s.group.event.waiters;
    }
  }

  predicate Proceeds(s: Sys, w: Handle) {
    At(s, w, Woken) || At(s, w, Ready) || At(s, w, Passed)
  }

  lemma LetGoWhenEmpty(s: Sys, e: Event, w: Handle)
    requires Inv(s) && !Proceeds(s, w) && Proceeds(Step(s, e), w)
    ensures Step(s, e).running == {}
  {
    StepKeeps(s, e);
  }

  ghost function After(es: seq<Event>): Sys {
    Run(Step, INIT, es)
  }

  lemma Reachable(es: seq<Event>)
    ensures Inv(After(es))
  {
    forall s: Sys, e: Event | Inv(s) ensures Inv(Step(s, e)) {
      StepKeeps(s, e);
    }
    Invariant(Step, s => Inv(s), INIT, es);
  }

  lemma {:induction false} ReachableLine(es: seq<Event>)
    ensures LineInv(After(es))
  {
    if es != [] {
      ReachableLine(es[..|es| - 1]);
      StepKeepsLine(After(es[..|es| - 1]), es[|es| - 1]);
    }
  }

  /** Whenever user code runs, in every order of nested starts, completions and wake-ups and over any
      number of rounds: the count is that of the outstanding tasks, the event is set exactly when
      there is none, and then nobody is left waiting. */
  lemma EventMeansEmpty(es: seq<Event>, w: Handle)
    ensures var s := After(es);
            && s.group.size == |s.running|
            && (s.group.event.signaled <==> s.running == {})
            && (s.running == {} ==> !At(s, w, Parked))
  {
    Reachable(es);
  }

  /** A waiter proceeds only after an instant, since it began to wait, with no outstanding task. */
  lemma {:induction false} WaitersSawEmpty(es: seq<Event>, w: Handle) returns (i: nat)
    requires Proceeds(After(es), w)
    ensures i <= |es| && w in After(es[..i]).waits && After(es[..i]).running == {}
  {
    var n := |es| - 1;
    if Proceeds(After(es[..n]), w) {
      i := WaitersSawEmpty(es[..n], w);
      assert es[..n][..i] == es[..i];
    } else {
      Reachable(es[..n]);
      LetGoWhenEmpty(After(es[..n]), es[n], w);
      i := |es|;
      assert es[..i] == es;
    }
  }

  /** Each suspended waiter is handed back to be resumed once, in the order of the suspensions, and those
      not handed back are the ones that still wait. */
  lemma WokenOnceInOrder(es: seq<Event>, w: Handle)
    ensures var s := After(es);
            && s.suspended == s.woken + s.group.event.waiters && NoDup(s.suspended)
            && (At(s, w, Parked) <==> w in s.group.event.waiters)
            && (At(s, w, Woken) ==> w in s.woken)
            && (w in s.woken ==> At(s, w, Woken) || At(s, w, Passed))
  {
    Reachable(es);
    ReachableLine(es);
    WokenAreIn(es, w);
    if w in After(es).woken {
      Apart(After(es).woken, After(es).group.event.waiters, w);
    }
  }

  lemma Apart(a: seq<Handle>, b: seq<Handle>, w: Handle)
    requires NoDup(a + b) && w in a
    ensures w in a + b && w !in b
  {
    var i :| 0 <= i < |a| && a[i] == w;
    assert (a + b)[i] == w && forall j :: 0 <= j < |b| ==> (a + b)[|a| + j] == b[j];
  }

  lemma {:induction false} WokenAreIn(es: seq<Event>, w: Handle)
    ensures At(After(es), w, Woken) ==> w in After(es).woken
  {
    if es != [] {
      WokenAreIn(es[..|es| - 1], w);
    }
  }
}

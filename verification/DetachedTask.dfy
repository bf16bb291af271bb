/** Detached tasks: a frame that destroys itself when it ends, and the movable objects that destroy it
    only if it was never started. */
module DetachedTask {
  import opened Common
  import opened Runs

  /** A task object; started says that its frame is not the object's to destroy. */
  datatype Object = Object(handle: Option<Handle>, started: bool)

  /** The frame that the destructor destroys, if any. */
  function OnDestruct(o: Object): Option<Handle> {
    if o.started then None else o.handle
  }

  /** The new object and the one moved from. The flag is not moved. */
  function OnMove(other: Object): (Object, Object) {
    (Object(other.handle, false), other.(handle := None))
  }

  /** The object assigned to, the one moved from, and the frame destroyed, if any. */
  function OnAssign(o: Object, other: Object): (Object, Object, Option<Handle>) {
    (other, other.(handle := None), OnDestruct(o))
  }

  /** The object, and the frame to resume, if any. */
  function OnStart(o: Object): (Object, Option<Handle>) {
    (Object(o.handle, o.started || o.handle.Some?), o.handle)
  }

  class DetachedTask {
    var handle: Option<Handle>
    var started: bool

    ghost function State(): Object
      reads this
    {
      Object(handle, started)
    }

    constructor (h: Handle)
      ensures State() == Object(Some(h), false)
    {
      handle, started := Some(h), false;
    }

    constructor MoveFrom(other: DetachedTask)
      modifies other
      ensures (State(), other.State()) == OnMove(old(other.State()))
    {
      handle, started := other.handle, false;
      new;
      other.handle := None;
    }

    method Assign(other: DetachedTask) returns (gone: Option<Handle>)
      modifies this, other
      ensures this == other ==> State() == old(State()) && gone == None
      ensures this != other ==> (State(), other.State(), gone) == OnAssign(old(State()), old(other.State()))
    {
      gone := None;
      if this != other {
        if handle.Some? && !started {
          gone := handle;
        }
        handle := other.handle;
        other.handle := None;
        started := other.started;
      }
    }

    method Destruct() returns (gone: Option<Handle>)
      ensures gone == OnDestruct(State())
    {
      gone := None;
      if handle.Some? && !started {
        gone := handle;
      }
    }

    method Start() returns (toResume: Option<Handle>)
      modifies this
      ensures (State(), toResume) == OnStart(old(State()))
    {
      toResume := None;
      if handle.Some? {
        started := true;
        toResume := handle;
      }
    }
  }

  // ---------------------------------------------------------------------------
  // The machine: any number of objects and frames
  // ---------------------------------------------------------------------------

  /** Ending: past its code, with the callback called and the frame not destroyed yet. */
  datatype Stage = Unstarted | Running | Ending | Destroyed

  datatype Frame = Frame(stage: Stage, callback: bool)

  type Name = nat

  /** The task objects by name, the frames, and what no code reads: the frames that began, whose
      callbacks were called, and that were destroyed. fault is set by destroying a frame that is not
      waiting to be started, other than at its own end, by resuming one that is not, or by setting
      the callback of one that is calling it or is destroyed; nothing is followed after that. */
  datatype Sys = Sys(objects: map<Name, Object>, frames: map<Handle, Frame>,
                     begun: seq<Handle>, called: seq<Handle>, destroyed: seq<Handle>, fault: bool)

  /** ResumeHandle is GetHandle().resume(); End and Destroy are the two halves of final_suspend. */
  datatype Event =
    | Make(o: Name, f: Handle) | MoveTo(o: Name, from: Name) | Assign(o: Name, from: Name)
    | SetCallback(o: Name) | Start(o: Name) | ResumeHandle(o: Name) | Destruct(o: Name)
    | End(f: Handle) | Destroy(f: Handle)

  const INIT := Sys(map[], map[], [], [], [], false)

  predicate At(s: Sys, f: Handle, stage: Stage) {
    f in s.frames && s.frames[f].stage == stage
  }

  function Discard(s: Sys, gone: Option<Handle>): Sys {
    match gone
    case None => s
    case Some(f) =>
      if At(s, f, Unstarted) then
        s.(frames := s.frames[f := s.frames[f].(stage := Destroyed)], destroyed := s.destroyed + [f])
      else s.(fault := true)
  }

  function Resume(s: Sys, f: Handle): Sys {
    if At(s, f, Unstarted) then s.(frames := s.frames[f := s.frames[f].(stage := Running)], begun := s.begun + [f])
    else s.(fault := true)
  }

  function Step(s: Sys, e: Event): Sys {
    if s.fault then s
    else match e
      case Make(o, f) =>
        if o in s.objects || f in s.frames then s
        else s.(objects := s.objects[o := Object(Some(f), false)], frames := s.frames[f := Frame(Unstarted, false)])
      case MoveTo(o, from) =>
        if o in s.objects || from !in s.objects then s
        else var (new', other) := OnMove(s.objects[from]); s.(objects := s.objects[from := other][o := new'])
      case Assign(o, from) =>
        if o !in s.objects || from !in s.objects || o == from then s
        else
          var (new', other, gone) := OnAssign(s.objects[o], s.objects[from]);
          Discard(s.(objects := s.objects[from := other][o := new']), gone)
      case SetCallback(o) =>
        if o !in s.objects || s.objects[o].handle.None? then s
        else
          var f := s.objects[o].handle.value;
          if !At(s, f, Unstarted) && !At(s, f, Running) then s.(fault := true)
          else s.(frames := s.frames[f := s.frames[f].(callback := true)])
      case Start(o) =>
        if o !in s.objects then s
        else
          var (new', f) := OnStart(s.objects[o]);
          if f.None? then s else Resume(s.(objects := s.objects[o := new']), f.value)
      case ResumeHandle(o) =>
        if o !in s.objects then s
        else if s.objects[o].handle.None? then s.(fault := true)
        else Resume(s, s.objects[o].handle.value)
      case Destruct(o) =>
        if o !in s.objects then s else Discard(s.(objects := s.objects - {o}), OnDestruct(s.objects[o]))
      case End(f) =>
        if At(s, f, Running) then
          s.(frames := s.frames[f := s.frames[f].(stage := Ending)],
             called := if s.frames[f].callback then s.called + [f] else s.called)
        else s
      case Destroy(f) =>
        if At(s, f, Ending) then
          s.(frames := s.frames[f := s.frames[f].(stage := Destroyed)], destroyed := s.destroyed + [f])
        else s
  }

  // ---------------------------------------------------------------------------
  // The discipline that the destructor relies on
  // ---------------------------------------------------------------------------

  /** What a caller can see to before e: a started object is not moved into a new one nor started
      again, a callback is not set once the frame is at its end, and no frame is resumed by its handle. */
  predicate Careful(s: Sys, e: Event) {
    match e
    case MoveTo(o, from) =>
      o !in s.objects && from in s.objects && s.objects[from].handle.Some? ==> !s.objects[from].started
    case Start(o) => o in s.objects && s.objects[o].handle.Some? ==> !s.objects[o].started
    case SetCallback(o) => o in s.objects && s.objects[o].handle.Some? ==>
      !At(s, s.objects[o].handle.value, Ending) && !At(s, s.objects[o].handle.value, Destroyed)
    case ResumeHandle(o) => o !in s.objects
    case _ => true
  }

  /** The object's flag says whether its frame was started. */
  ghost predicate ObjectOk(s: Sys, o: Name) {
    o in s.objects && s.objects[o].handle.Some? ==>
      var f := s.objects[o].handle.value;
      f in s.frames && (s.objects[o].started <==> !s.frames[f].stage.Unstarted?)
  }

  ghost predicate Held(s: Sys, f: Handle) {
    exists o :: o in s.objects && s.objects[o].handle == Some(f)
  }

  ghost predicate FrameOk(s: Sys, f: Handle) {
    && (f in s.destroyed <==> At(s, f, Destroyed))
    && (f in s.begun ==> f in s.frames && !s.frames[f].stage.Unstarted?)
    && (At(s, f, Running) || At(s, f, Ending) ==> f in s.begun)
    && (At(s, f, Unstarted) ==> Held(s, f))
    && (f in s.called <==> f in s.begun && !At(s, f, Running) && s.frames[f].callback)
  }

  ghost predicate Inv(s: Sys) {
    && !s.fault
    && (forall o :: ObjectOk(s, o))
    && OneHolder(s.objects)
    && (forall f :: FrameOk(s, f))
    && NoDup(s.begun) && NoDup(s.called) && NoDup(s.destroyed)
  }

  lemma HeldBy(s: Sys, o: Name)
    requires o in s.objects && s.objects[o].handle.Some?
    ensures Held(s, s.objects[o].handle.value)
  {
  }

  /** A frame that waits to be started stays held. */
  lemma StillHeld(s: Sys, e: Event, f: Handle)
    requires Inv(s) && Held(s, f) && At(Step(s, e), f, Unstarted)
    ensures Held(Step(s, e), f) || Step(s, e).fault
  {
    var o :| o in s.objects && s.objects[o].handle == Some(f);
    var t := Step(s, e);
    assert ObjectOk(s, o);
    match e
    case MoveTo(n, from) => HeldBy(t, if from == o && n !in s.objects then n else o);
    case Assign(n, from) =>
      if !t.fault && !(n == o && from in s.objects && from != n) {
        HeldBy(t, if from == o && n in s.objects then n else o);
      }
    case Destruct(n) => if n != o { HeldBy(t, o); }
    case _ => HeldBy(t, o);
  }

  lemma ObjectsKept(s: Sys, e: Event)
    requires Inv(s) && Careful(s, e)
    ensures !Step(s, e).fault
    ensures forall o :: ObjectOk(Step(s, e), o)
  {
    var t := Step(s, e);
    forall o ensures ObjectOk(t, o) {
      assert ObjectOk(s, o);
      if e.MoveTo? || e.Assign? {
        assert ObjectOk(s, e.from);
      }
    }
    if !e.End? && !e.Destroy? {
      assert ObjectOk(s, e.o);
    }
  }

  lemma FramesKept(s: Sys, e: Event, f: Handle)
    requires Inv(s) && Careful(s, e)
    ensures FrameOk(Step(s, e), f)
  {
    if e.End? || e.Destroy? {
      FramesKeptAtEnd(s, e, f);
    } else {
      FramesKeptByObjects(s, e, f);
    }
  }

  lemma FramesKeptAtEnd(s: Sys, e: Event, f: Handle)
    requires Inv(s) && (e.End? || e.Destroy?)
    ensures FrameOk(Step(s, e), f)
  {
    assert FrameOk(s, f);
    if At(Step(s, e), f, Unstarted) {
      StillHeld(s, e, f);
    }
  }

  lemma FramesKeptByObjects(s: Sys, e: Event, f: Handle)
    requires Inv(s) && Careful(s, e) && !e.End? && !e.Destroy?
    ensures FrameOk(Step(s, e), f)
  {
    var t := Step(s, e);
    assert FrameOk(s, f) && ObjectOk(s, e.o);
    ObjectsKept(s, e);
    if At(t, f, Unstarted) {
      if f in s.frames {
        StillHeld(s, e, f);
      } else {
        HeldBy(t, e.o);
      }
    }
  }

  ghost predicate OneHolder(objects: map<Name, Object>) {
    forall o, p :: o in objects && p in objects && o != p && objects[o].handle.Some? ==>
                     objects[o].handle != objects[p].handle
  }

  lemma MovedHolder(objects: map<Name, Object>, o: Name, from: Name, new': Object)
    requires OneHolder(objects) && from in objects && o != from && new'.handle == objects[from].handle
    ensures OneHolder(objects[from := objects[from].(handle := None)][o := new'])
  {
  }

  lemma HandlesKept(s: Sys, e: Event)
    requires !s.fault && OneHolder(s.objects) && forall o :: ObjectOk(s, o)
    ensures OneHolder(Step(s, e).objects)
  {
    match e
    case Make(_, _) => assert forall o :: o in s.objects ==> ObjectOk(s, o);
    case MoveTo(o, from) =>
      if o !in s.objects && from in s.objects {
        MovedHolder(s.objects, o, from, OnMove(s.objects[from]).0);
      }
    case Assign(o, from) => if o != from && from in s.objects { MovedHolder(s.objects, o, from, s.objects[from]); }
    case _ =>
  }

  lemma StepKeeps(s: Sys, e: Event)
    requires Inv(s) && Careful(s, e)
    ensures Inv(Step(s, e))
  {
    ObjectsKept(s, e);
    forall f { FramesKept(s, e, f); }
    var g := if e.End? || e.Destroy? then e.f
             else if e.o in s.objects && s.objects[e.o].handle.Some? then s.objects[e.o].handle.value
             else 0;
    assert FrameOk(s, g);
    HandlesKept(s, e);
  }

  /** Every object may be destroyed now. */
  ghost predicate Destructible(s: Sys) {
    forall x :: !Step(s, Destruct(x)).fault
  }

  /** The condition is exact: a careless event faults, or leaves an object whose destructor does. */
  lemma CarefulIff(s: Sys, e: Event)
    requires Inv(s)
    ensures Careful(s, e) <==> Destructible(Step(s, e))
  {
    if Careful(s, e) {
      StepKeeps(s, e);
      forall x ensures !Step(Step(s, e), Destruct(x)).fault {
        StepKeeps(Step(s, e), Destruct(x));
      }
    } else {
      var t := Step(s, e);
      assert ObjectOk(s, e.o);
      if e.MoveTo? {
        assert ObjectOk(s, e.from);
      }
      assert Step(t, Destruct(e.o)).fault;
    }
  }

  // ---------------------------------------------------------------------------
  // Main results
  // ---------------------------------------------------------------------------

  ghost function After(es: seq<Event>): Sys {
    Run(Step, INIT, es)
  }

  ghost predicate CarefulRun(es: seq<Event>) {
    es != [] ==> CarefulRun(es[..|es| - 1]) && Careful(After(es[..|es| - 1]), es[|es| - 1])
  }

  lemma {:induction false} Reachable(es: seq<Event>)
    requires CarefulRun(es)
    ensures Inv(After(es))
  {
    if es != [] {
      Reachable(es[..|es| - 1]);
      StepKeeps(After(es[..|es| - 1]), es[|es| - 1]);
    }
  }

  lemma {:induction false} CarefulIsSafe(es: seq<Event>, i: nat)
    requires CarefulRun(es) && i <= |es|
    ensures Destructible(After(es[..i]))
  {
    if i < |es| {
      CarefulIsSafe(es[..|es| - 1], i);
      assert es[..|es| - 1][..i] == es[..i];
    } else {
      assert es[..i] == es;
      Reachable(es);
      forall x ensures !Step(After(es), Destruct(x)).fault {
        StepKeeps(After(es), Destruct(x));
      }
    }
  }

  lemma {:induction false} SafeIsCareful(es: seq<Event>)
    requires forall i: nat :: i <= |es| ==> Destructible(After(es[..i]))
    ensures CarefulRun(es)
  {
    if es != [] {
      var n := |es| - 1;
      forall i: nat | i <= n ensures Destructible(After(es[..n][..i])) {
        assert es[..n][..i] == es[..i];
      }
      SafeIsCareful(es[..n]);
      Reachable(es[..n]);
      assert es[..|es|] == es;
      CarefulIff(After(es[..n]), es[n]);
    }
  }

  /** Exactly when callers are careful, every object may be destroyed at every moment of a run. */
  lemma SafeIffCareful(es: seq<Event>)
    ensures CarefulRun(es) <==> forall i: nat :: i <= |es| ==> Destructible(After(es[..i]))
  {
    if CarefulRun(es) {
      forall i: nat | i <= |es| ensures Destructible(After(es[..i])) {
        CarefulIsSafe(es, i);
      }
    } else if forall i: nat :: i <= |es| ==> Destructible(After(es[..i])) {
      SafeIsCareful(es);
    }
  }

  /** In careful runs each frame begins at most once, is destroyed at most once, and calls its
      callback once if it has one by its end; and a frame that is not destroyed is running, or is
      held by exactly one object, which will destroy it. */
  lemma DestroyedExactlyOnce(es: seq<Event>, f: Handle)
    requires CarefulRun(es)
    ensures var s := After(es);
            && NoDup(s.begun) && NoDup(s.called) && NoDup(s.destroyed)
            && (f in s.called ==> f in s.begun)
            && (f in s.begun && f in s.destroyed ==> f in s.frames && (f in s.called <==> s.frames[f].callback))
            && (f in s.frames && s.objects == map[] ==> f in s.destroyed || f in s.begun)
            && (At(s, f, Unstarted) ==>
                  exists o :: Step(s, Destruct(o)).destroyed == s.destroyed + [f] &&
                              forall p :: p in s.objects && s.objects[p].handle == Some(f) ==> p == o)
  {
    Reachable(es);
    var s := After(es);
    assert FrameOk(s, f);
    if At(s, f, Unstarted) {
      var o :| o in s.objects && s.objects[o].handle == Some(f);
      assert ObjectOk(s, o);
      assert Step(s, Destruct(o)).destroyed == s.destroyed + [f];
    }
  }

  /** In careful runs, starting an object that is not started begins the frame it holds, and nothing
      else happens to any object or frame. */
  lemma StartBegins(es: seq<Event>, o: Name)
    requires CarefulRun(es) && o in After(es).objects
    requires After(es).objects[o].handle.Some? && !After(es).objects[o].started
    ensures var s := After(es);
            var t := After(es + [Start(o)]);
            var f := s.objects[o].handle.value;
            && CarefulRun(es + [Start(o)])
            && f in s.frames && t.frames == s.frames[f := Frame(Running, s.frames[f].callback)]
            && t.begun == s.begun + [f] && t.objects == s.objects[o := Object(Some(f), true)]
            && t.called == s.called && t.destroyed == s.destroyed
  {
    Reachable(es);
    assert ObjectOk(After(es), o);
    assert (es + [Start(o)])[..|es|] == es;
  }

  /** The frame that goes with an object: the one it holds, not started. */
  ghost predicate TakenDown(s: Sys, t: Sys, own: Object) {
    && t.begun == s.begun && t.called == s.called
    && match own
       case Object(Some(f), false) =>
         f in s.frames && t.frames == s.frames[f := Frame(Destroyed, s.frames[f].callback)] &&
         t.destroyed == s.destroyed + [f]
       case _ => t.frames == s.frames && t.destroyed == s.destroyed
  }

  lemma DestructTakesDown(s: Sys, o: Name)
    requires !s.fault && ObjectOk(s, o) && o in s.objects
    ensures var t := Step(s, Destruct(o)); t.objects == s.objects - {o} && TakenDown(s, t, s.objects[o])
  {
  }

  lemma AssignTakesOver(s: Sys, o: Name, from: Name)
    requires !s.fault && ObjectOk(s, o) && o in s.objects && from in s.objects && o != from
    ensures var t := Step(s, Assign(o, from));
            && t.objects == s.objects[o := s.objects[from]][from := Object(None, s.objects[from].started)]
            && TakenDown(s, t, s.objects[o])
  {
  }

  /** In careful runs, destroying an object takes an unstarted frame of its own down and leaves a started
      one alone; and so does assigning to it, which gives it the frame and the flag of the other object
      and leaves that one without a frame. */
  lemma EndsOfObjects(es: seq<Event>, o: Name, from: Name)
    requires CarefulRun(es) && o in After(es).objects && from in After(es).objects && o != from
    ensures var s := After(es);
            var gone := After(es + [Destruct(o)]);
            var t := After(es + [Assign(o, from)]);
            && gone.objects == s.objects - {o} && TakenDown(s, gone, s.objects[o])
            && t.objects == s.objects[o := s.objects[from]][from := Object(None, s.objects[from].started)]
            && TakenDown(s, t, s.objects[o])
  {
    Reachable(es);
    DestructTakesDown(After(es), o);
    AssignTakesOver(After(es), o, from);
    assert (es + [Destruct(o)])[..|es|] == es && (es + [Assign(o, from)])[..|es|] == es;
  }

  /** A move takes the frame along and nothing else changes. The new object is not started, whatever
      the other one was. */
  lemma MoveTakesTheFrame(es: seq<Event>, o: Name, from: Name)
    requires CarefulRun(es) && o !in After(es).objects && from in After(es).objects
    ensures var s := After(es);
            var old' := s.objects[from];
            After(es + [MoveTo(o, from)]) ==
            s.(objects := s.objects[o := Object(old'.handle, false)][from := Object(None, old'.started)])
  {
    Reachable(es);
    assert (es + [MoveTo(o, from)])[..|es|] == es;
  }

  lemma CallbackStays(s: Sys, e: Event, f: Handle)
    requires f in s.frames && s.frames[f].callback
    ensures f in Step(s, e).frames && Step(s, e).frames[f].callback
  {
  }

  lemma {:induction false} CallbackStaysInRuns(s: Sys, es: seq<Event>, f: Handle)
    requires f in s.frames && s.frames[f].callback
    ensures f in Run(Step, s, es).frames && Run(Step, s, es).frames[f].callback
  {
    if es != [] {
      CallbackStaysInRuns(s, es[..|es| - 1], f);
      CallbackStays(Run(Step, s, es[..|es| - 1]), es[|es| - 1], f);
    }
  }

  lemma {:induction false} CarefulBefore(es: seq<Event>, fs: seq<Event>)
    requires CarefulRun(es + fs)
    ensures CarefulRun(es)
    decreases |fs|
  {
    if fs == [] {
      assert es + fs == es;
    } else {
      assert (es + fs)[..|es + fs| - 1] == es + fs[..|fs| - 1];
      CarefulBefore(es, fs[..|fs| - 1]);
    }
  }

  /** A callback set on an object's frame is called, once, when the frame's code has ended, whatever
      happens to the object in between. */
  lemma CallbackIsCalled(es: seq<Event>, o: Name, fs: seq<Event>)
    requires CarefulRun(es + [SetCallback(o)] + fs)
    requires o in After(es).objects && After(es).objects[o].handle.Some?
    ensures var f := After(es).objects[o].handle.value;
            var t := After(es + [SetCallback(o)] + fs);
            f in t.called <==> f in t.begun && !At(t, f, Running)
    ensures NoDup(After(es + [SetCallback(o)] + fs).called)
  {
    var s := After(es);
    var f := s.objects[o].handle.value;
    CarefulBefore(es + [SetCallback(o)], fs);
    assert (es + [SetCallback(o)])[..|es|] == es;
    Reachable(es);
    assert ObjectOk(s, o) && FrameOk(s, f);
    var withIt := After(es + [SetCallback(o)]);
    assert withIt.frames[f].callback;
    CallbackStaysInRuns(withIt, fs, f);
    Split(Step, INIT, es + [SetCallback(o)], fs);
    Reachable(es + [SetCallback(o)] + fs);
    assert FrameOk(After(es + [SetCallback(o)] + fs), f);
  }

  /** So a task started through its handle is destroyed a second time by its object. */
  lemma HandleStartDestroysTwice()
    ensures After([Make(1, 7), ResumeHandle(1), End(7), Destroy(7), Destruct(1)]).fault
  {
    var made := Step(INIT, Make(1, 7));
    assert made == INIT.(objects := map[1 := Object(Some(7), false)], frames := map[7 := Frame(Unstarted, false)]);
    var s := Step(made, ResumeHandle(1));
    assert s.objects == made.objects && s.frames == map[7 := Frame(Running, false)] && !s.fault;
    EndAndDestruct(s, 1, 7);
    Five(Step, INIT, Make(1, 7), ResumeHandle(1), End(7), Destroy(7), Destruct(1));
  }

  lemma EndAndDestruct(s: Sys, o: Name, f: Handle)
    requires !s.fault && At(s, f, Running) && o in s.objects && s.objects[o] == Object(Some(f), false)
    ensures Step(Step(Step(s, End(f)), Destroy(f)), Destruct(o)).fault
  {
    var t := Step(s, End(f));
    assert At(t, f, Ending) && t.objects == s.objects;
    assert At(Step(t, Destroy(f)), f, Destroyed);
  }
}

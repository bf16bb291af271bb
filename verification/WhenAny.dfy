/** The first-completion race: children compete by compare-and-swap, the winner writes the result and
    sets an event, a detached controller joins all children, and the caller awaits the event. The
    machine runs the fork/join and event machines inside its own. */
module WhenAny {
  import opened Common
  import opened Runs
  import Fork = WhenAll
  import Signal = Event

  /** The shared state: whether somebody has won, and the winner's index and value. */
  datatype Shared<+V> = Shared(first: bool, result: Option<(nat, V)>)

  /** compare_exchange_strong from false to true. */
  function OnClaim<V>(x: Shared<V>): (Shared<V>, bool) {
    (x.(first := true), !x.first)
  }

  function OnEmplace<V>(x: Shared<V>, index: nat, value: V): Shared<V> {
    x.(result := Some((index, value)))
  }

  class SharedState<V> {
    var firstCompleted: bool
    var result: Option<(nat, V)>

    ghost function State(): Shared<V>
      reads this
    {
      Shared(firstCompleted, result)
    }

    constructor ()
      ensures State() == Shared(false, None)
    {
      firstCompleted, result := false, None;
    }

    method Claim() returns (won: bool)
      modifies this
      ensures (State(), won) == OnClaim(old(State()))
    {
      won := !firstCompleted;
      firstCompleted := true;
    }

    method Emplace(index: nat, value: V)
      modifies this
      ensures State() == OnEmplace(old(State()), index, value)
    {
      result := Some((index, value));
    }
  }

  /** A child between being started and returning: in its user task; with that one's value; having
      won; having written the result; or done racing. */
  datatype Racer<+V> = Idle | Working | Got(value: V) | Won(value: V) | Wrote(value: V) | Over

  /** The caller: before and in controller.Start(); before each half of the wait; suspended on the
      event; woken; past the wait without suspending; or returned. */
  datatype Caller<+V> =
    | Invalid | Launching | Checking | Retrying | Parked | Woken | Ready | Returned(index: nat, value: V)

  const CALLER: Handle := 1

  /** The join of the children, the racers, the shared state, and the caller; controllerDone and
      destroyed follow the controller's frame; winner, values, writes and resumptions are history;
      fault is set by reading a missing result or destroying the frame twice. */
  datatype Sys<+V> = Sys(
    fork: Fork.Sys<()>, racers: seq<Racer<V>>, shared: Shared<V>, event: Signal.EventState,
    started: bool, controllerDone: bool, destroyed: nat, caller: Caller<V>,
    winner: Option<nat>, values: seq<Option<V>>, writes: nat, resumptions: nat, fault: bool)

  datatype Event<+V> =
    | StartController
    | StartChild | StoreHandle | ControllerArrives
    | UserDone(i: nat, value: V) | Swap(i: nat) | Write(i: nat) | Set(i: nat)
    | Return(i: nat) | Arrive(i: nat) | ResumeController(i: nat)
    | EndController
    | StartReturns | CheckEvent | ParkCaller | ResumeCaller

  function Init<V>(n: nat): Sys<V> {
    Sys(Fork.Init<()>(n), seq(n, i => Idle), Shared(false, None), Signal.EventState(false, []),
        false, false, 0, if n == 0 then Invalid else Launching, None, seq(n, i => None), 0, 0, false)
  }

  function Joined<V>(s: Sys<V>, e: Fork.Event<()>): Sys<V> {
    s.(fork := Fork.Step(s.fork, e))
  }

  predicate Racing<V>(s: Sys<V>, i: nat) {
    i < |s.racers| && i < |s.fork.children| && i < |s.values| && s.fork.children[i].Working?
  }

  function Step<V>(s: Sys<V>, e: Event<V>): Sys<V> {
    match e
    case StartController => if s.caller.Launching? then s.(started := true) else s
    case StartChild =>
      if s.started && s.fork.parent.Starting? && s.fork.parent.started < |s.racers| then
        Joined(s, Fork.StartNext).(racers := s.racers[s.fork.parent.started := Working])
      else s
    case StoreHandle => if s.started then Joined(s, Fork.StoreHandle) else s
    case ControllerArrives => if s.started then Joined(s, Fork.ParentArrives) else s
    case UserDone(i, v) =>
      if Racing(s, i) && s.racers[i].Working? then
        s.(racers := s.racers[i := Got(v)], values := s.values[i := Some(v)])
      else s
    case Swap(i) =>
      if Racing(s, i) && s.racers[i].Got? then
        var (shared, won) := OnClaim(s.shared);
        if won then s.(shared := shared, racers := s.racers[i := Won(s.racers[i].value)], winner := Some(i))
        else s.(shared := shared, racers := s.racers[i := Over])
      else s
    case Write(i) =>
      if Racing(s, i) && s.racers[i].Won? then
        s.(racers := s.racers[i := Wrote(s.racers[i].value)], shared := OnEmplace(s.shared, i, s.racers[i].value),
           writes := s.writes + 1)
      else s
    case Set(i) =>
      if Racing(s, i) && s.racers[i].Wrote? then
        var (ev, woken) := Signal.OnSet(s.event);
        s.(racers := s.racers[i := Over], event := ev, caller := if CALLER in woken then Woken else s.caller)
      else s
    case Return(i) => if Racing(s, i) && s.racers[i].Over? then Joined(s, Fork.Return(i, ())) else s
    case Arrive(i) => Joined(s, Fork.ChildArrives(i))
    case ResumeController(i) => Joined(s, Fork.ResumeParent(i))
    case EndController =>
      // final_suspend of the detached controller destroys its own frame
      if s.fork.parent.Continued? && s.started && !s.controllerDone then Destroy(s.(controllerDone := true)) else s
    case StartReturns =>
      // resume() comes back once the controller has suspended or is over
      if s.caller.Launching? && (s.fork.parent.Suspended? || s.fork.parent.Continued?) then s.(caller := Checking)
      else s
    case CheckEvent =>
      if s.caller.Checking? then s.(caller := if s.event.signaled then Ready else Retrying) else s
    case ParkCaller =>
      if s.caller.Retrying? then
        var (ev, suspended) := Signal.OnWaitSuspend(s.event, CALLER);
        s.(event := ev, caller := if suspended then Parked else Ready)
      else s
    case ResumeCaller =>
      if s.caller.Woken? || s.caller.Ready? then
        var t := s.(resumptions := s.resumptions + (if s.caller.Woken? then 1 else 0));
        match s.shared.result
        case None => t.(fault := true)
        case Some((i, v)) =>
          // the caller's DetachedTask object destroys the frame only if it was never started
          var u := t.(caller := Returned(i, v));
          if s.started then u else Destroy(u)
      else s
  }

  function Destroy<V>(s: Sys<V>): Sys<V> {
    if s.destroyed > 0 then s.(fault := true) else s.(destroyed := 1)
  }

  // ---------------------------------------------------------------------------
  // The invariant
  // ---------------------------------------------------------------------------

  /** What child i's race says against its place in the join. */
  ghost predicate RacerOk<V>(s: Sys<V>, i: nat)
    requires i < |s.racers| && |s.racers| == |s.fork.children| == |s.values|
  {
    var r, c := s.racers[i], s.fork.children[i];
    && (r.Idle? <==> c.NotStarted?)
    && (r.Over? || c.NotStarted? || c.Working?)
    && ((r.Got? || r.Won? || r.Wrote?) ==> s.values[i] == Some(r.value))
    && (r.Over? ==> s.values[i].Some?)
    && ((r.Won? || r.Wrote?) ==> s.winner == Some(i))
    && (r.Over? ==> s.shared.first)
  }

  ghost predicate RaceInv<V>(s: Sys<V>) {
    && |s.racers| == |s.fork.children| == |s.values|
    && (forall i :: 0 <= i < |s.racers| ==> RacerOk(s, i))
    && s.shared.first == s.winner.Some?
    && (s.winner.Some? ==>
          var w := s.winner.value;
          && w < |s.racers| && s.values[w].Some?
          && (s.racers[w].Won? || s.racers[w].Wrote? || s.racers[w].Over?)
          && s.shared.result == (if s.racers[w].Won? then None else Some((w, s.values[w].value)))
          && s.event.signaled == s.racers[w].Over?)
    && (s.winner.None? ==> s.shared.result == None && !s.event.signaled)
    && s.writes == (if s.shared.result.Some? then 1 else 0)
  }

  ghost predicate CallerInv<V>(s: Sys<V>) {
    && (s.caller.Invalid? <==> s.racers == [])
    && s.event.waiters == (if s.caller.Parked? then [CALLER] else [])
    && (s.event.signaled ==> !s.caller.Parked?)
    && (s.caller.Woken? || s.caller.Ready? || s.caller.Returned? ==> s.event.signaled)
    && (s.caller.Returned? ==> s.shared.result == Some((s.caller.index, s.caller.value)))
    && (!s.caller.Invalid? && !s.caller.Launching? ==> s.started)
    && s.resumptions <= (if s.caller.Returned? then 1 else 0)
  }

  ghost predicate ControllerInv<V>(s: Sys<V>) {
    && s.destroyed == (if s.controllerDone then 1 else 0)
    && (s.controllerDone ==> s.fork.parent.Continued?)
    && (!s.started && s.racers != [] ==> s.fork.parent == Fork.Starting(0))
  }

  ghost predicate Inv<V>(s: Sys<V>) {
    && !s.fault && Fork.Inv(s.fork) && RaceInv(s) && CallerInv(s) && ControllerInv(s)
  }

  lemma ForkStep<V>(s: Sys<V>, e: Fork.Event<()>)
    requires Inv(s) && (s.started || e.Return? || e.ChildArrives? || e.ResumeParent?) && !e.StartNext?
    requires e.Return? ==> e.i < |s.racers| && s.racers[e.i].Over?
    ensures Inv(Joined(s, e))
  {
    Fork.StepKeeps(s.fork, e);
    var t := Joined(s, e);
    forall i | 0 <= i < |s.racers| ensures RacerOk(t, i) {
      assert RacerOk(s, i);
    }
  }

  lemma StartKeeps<V>(s: Sys<V>)
    requires Inv(s)
    ensures Inv(Step(s, StartChild))
  {
    if s.started && s.fork.parent.Starting? && s.fork.parent.started < |s.racers| {
      Fork.StepKeeps(s.fork, Fork.StartNext);
      var t := Step(s, StartChild);
      assert RacerOk(s, s.fork.parent.started) && s.racers[s.fork.parent.started].Idle?;
      forall i | 0 <= i < |s.racers| ensures RacerOk(t, i) {
        assert RacerOk(s, i);
      }
    }
  }

  lemma UserDoneKeeps<V>(s: Sys<V>, i: nat, v: V)
    requires Inv(s)
    ensures Inv(Step(s, UserDone(i, v)))
  {
    var t := Step(s, UserDone(i, v));
    forall j | 0 <= j < |s.racers| ensures RacerOk(t, j) {
      assert RacerOk(s, j);
    }
  }

  lemma SwapKeeps<V>(s: Sys<V>, i: nat)
    requires Inv(s)
    ensures Inv(Step(s, Swap(i)))
  {
    var t := Step(s, Swap(i));
    assert Racing(s, i) ==> RacerOk(s, i);
    forall j | 0 <= j < |s.racers| ensures RacerOk(t, j) {
      assert RacerOk(s, j);
    }
  }

  lemma WriteKeeps<V>(s: Sys<V>, i: nat)
    requires Inv(s)
    ensures Inv(Step(s, Write(i)))
  {
    var t := Step(s, Write(i));
    assert Racing(s, i) ==> RacerOk(s, i);
    forall j | 0 <= j < |s.racers| ensures RacerOk(t, j) {
      assert RacerOk(s, j);
    }
  }

  lemma SetKeeps<V>(s: Sys<V>, i: nat)
    requires Inv(s)
    ensures Inv(Step(s, Set(i)))
  {
    var t := Step(s, Set(i));
    if Racing(s, i) && s.racers[i].Wrote? {
      assert RacerOk(s, i);
      forall j | 0 <= j < |s.racers| ensures RacerOk(t, j) {
        assert RacerOk(s, j);
      }
    }
  }

  lemma CallerKeeps<V>(s: Sys<V>, e: Event<V>)
    requires Inv(s)
    requires e.StartController? || e.EndController? || e.StartReturns? ||
             e.CheckEvent? || e.ParkCaller? || e.ResumeCaller?
    ensures Inv(Step(s, e))
  {
    var t := Step(s, e);
    forall j | 0 <= j < |s.racers| ensures RacerOk(t, j) {
      assert RacerOk(s, j);
    }
  }

  lemma JoinKeeps<V>(s: Sys<V>, e: Event<V>)
    requires Inv(s) && (e.StoreHandle? || e.ControllerArrives? || e.Return? || e.Arrive? || e.ResumeController?)
    ensures Inv(Step(s, e))
  {
    match e
    case StoreHandle => if s.started { ForkStep(s, Fork.StoreHandle); }
    case ControllerArrives => if s.started { ForkStep(s, Fork.ParentArrives); }
    case Return(i) => if Racing(s, i) && s.racers[i].Over? { ForkStep(s, Fork.Return(i, ())); }
    case Arrive(i) => ForkStep(s, Fork.ChildArrives(i));
    case ResumeController(i) => ForkStep(s, Fork.ResumeParent(i));
  }

  lemma RacersStay<V>(s: Sys<V>, e: Event<V>)
    ensures |Step(s, e).racers| == |s.racers|
  {
  }

  lemma StepKeeps<V>(s: Sys<V>, e: Event<V>)
    requires Inv(s)
    ensures Inv(Step(s, e)) && |Step(s, e).racers| == |s.racers|
  {
    RacersStay(s, e);
    match e
    case StartChild => StartKeeps(s);
    case UserDone(i, v) => UserDoneKeeps(s, i, v);
    case Swap(i) => SwapKeeps(s, i);
    case Write(i) => WriteKeeps(s, i);
    case Set(i) => SetKeeps(s, i);
    case StoreHandle => JoinKeeps(s, e);
    case ControllerArrives => JoinKeeps(s, e);
    case Return(_) => JoinKeeps(s, e);
    case Arrive(_) => JoinKeeps(s, e);
    case ResumeController(_) => JoinKeeps(s, e);
    case _ => CallerKeeps(s, e);
  }

  // ---------------------------------------------------------------------------
  // Main results
  // ---------------------------------------------------------------------------

  ghost function After<V>(n: nat, es: seq<Event<V>>): Sys<V> {
    Run(Step<V>, Init(n), es)
  }

  ghost predicate InvAt<V>(n: nat, s: Sys<V>) {
    Inv(s) && |s.racers| == n
  }

  lemma InitInv<V>(n: nat)
    ensures InvAt(n, Init<V>(n))
  {
    Fork.InitInv<()>(n);
    var s := Init<V>(n);
    assert |s.racers| == |s.fork.children| == |s.values|;
    assert forall i :: 0 <= i < |s.racers| ==> RacerOk(s, i);
  }

  lemma Reachable<V(!new)>(n: nat, es: seq<Event<V>>)
    ensures InvAt(n, After(n, es))
  {
    InitInv<V>(n);
    forall s: Sys<V>, e: Event<V> | InvAt(n, s) ensures InvAt(n, Step(s, e)) {
      StepKeeps(s, e);
    }
    Invariant(Step<V>, (s: Sys<V>) => InvAt(n, s), Init(n), es);
  }

  /** For any number of children and any interleaving: one child at most wins; the result is written
      at most once, before the event is set, with the winner's index and value; the caller returns
      just that and is resumed at most once; and the controller's frame is destroyed at most once,
      and only after every child has made its last access to the join. */
  lemma FirstCompletionWins<V(!new)>(n: nat, es: seq<Event<V>>)
    ensures var s := After(n, es);
            && !s.fault && !s.fork.fault && s.writes <= 1 && s.resumptions <= 1 && s.destroyed <= 1
            && |s.racers| == n && |s.fork.children| == n && |s.values| == n
            && (s.event.signaled ==> s.shared.result.Some?)
            && (s.shared.result.Some? ==>
                  var (i, v) := s.shared.result.value; s.winner == Some(i) && i < n && s.values[i] == Some(v))
            && (s.caller.Returned? ==> s.shared.result == Some((s.caller.index, s.caller.value)))
            && (s.destroyed == 1 ==> forall i :: 0 <= i < n ==> s.fork.children[i].Done? && s.racers[i].Over?)
  {
    Reachable(n, es);
    var s := After(n, es);
    if s.destroyed == 1 {
      Fork.PendingBounds(s.fork.children);
      forall i | 0 <= i < n ensures s.fork.children[i].Done? && s.racers[i].Over? {
        assert RacerOk(s, i);
      }
    }
  }

  /** Who has won, and what it wrote, does not change. */
  lemma OutcomeIsFinal<V>(s: Sys<V>, e: Event<V>)
    requires Inv(s)
    ensures s.winner.Some? ==> Step(s, e).winner == s.winner
    ensures s.shared.result.Some? ==> Step(s, e).shared.result == s.shared.result
    ensures s.caller.Returned? ==> Step(s, e).caller == s.caller
  {
    if (e.Write? || e.Swap?) && Racing(s, e.i) {
      assert RacerOk(s, e.i);
    }
  }

  /** The caller is not forgotten: while it is suspended, some child has not finished racing. */
  lemma CallerNotForgotten<V(!new)>(n: nat, es: seq<Event<V>>)
    requires After(n, es).caller.Parked?
    ensures exists i :: 0 <= i < |After(n, es).racers| && !After(n, es).racers[i].Over?
  {
    Reachable(n, es);
    var s := After(n, es);
    if s.winner.Some? {
      assert !s.racers[s.winner.value].Over?;
    } else {
      assert RacerOk(s, 0);
      assert !s.racers[0].Over?;
    }
  }

  /** Nor is the controller: once all children are done and it has stopped starting them, it is past
      its join, and then its frame is destroyed. */
  lemma ControllerEnds<V(!new)>(n: nat, es: seq<Event<V>>)
    requires n > 0 && var s := After(n, es); !s.fork.parent.Starting? && !s.fork.parent.Stored?
    requires forall i :: 0 <= i < |After(n, es).fork.children| ==> After(n, es).fork.children[i].Done?
    ensures After(n, es).fork.parent.Continued? && Step(After(n, es), EndController).destroyed == 1
  {
    Reachable(n, es);
    Fork.PendingBounds(After(n, es).fork.children);
  }

  // ---------------------------------------------------------------------------
  // The caller does return
  // ---------------------------------------------------------------------------

  /** The steps that are the race's and the caller's, and not a task's own. */
  predicate Protocol<V>(e: Event<V>) {
    !e.UserDone? && !e.StartController? && !e.StartChild?
  }

  ghost predicate AllAnswered<V>(s: Sys<V>) {
    s.racers != [] && forall i :: 0 <= i < |s.racers| ==> !s.racers[i].Idle? && !s.racers[i].Working?
  }

  function RacerToGo<V>(r: Racer<V>): nat {
    match r case Idle => 5 case Working => 4 case Got(_) => 3 case Won(_) => 2 case Wrote(_) => 1 case Over => 0
  }

  function CallerToGo<V>(c: Caller<V>): nat {
    match c
    case Invalid => 0 case Launching => 5 case Checking => 4 case Retrying => 3
    case Parked => 2 case Woken => 1 case Ready => 1 case Returned(_, _) => 0
  }

  ghost function ToGo<V>(s: Sys<V>): nat {
    Total(s.racers, RacerToGo<V>) + Fork.ToGo(s.fork) + CallerToGo(s.caller) + (if s.controllerDone then 0 else 1)
  }

  /** e is a step of the protocol that brings the end nearer. */
  ghost predicate Helps<V>(s: Sys<V>, e: Event<V>) {
    Protocol(e) && AllAnswered(Step(s, e)) && ToGo(Step(s, e)) < ToGo(s)
  }

  /** One racer moved on, and the caller did not fall back. */
  lemma MovedOn<V>(s: Sys<V>, t: Sys<V>, i: nat)
    requires AllAnswered(s) && i < |s.racers| == |t.racers| && t.racers == s.racers[i := t.racers[i]]
    requires RacerToGo(t.racers[i]) < RacerToGo(s.racers[i]) && CallerToGo(t.caller) <= CallerToGo(s.caller)
    requires t.fork == s.fork && t.controllerDone == s.controllerDone
    ensures AllAnswered(t) && ToGo(t) < ToGo(s)
  {
    TotalUpdate(s.racers, RacerToGo<V>, i, t.racers[i]);
  }

  lemma RacerHelps<V>(s: Sys<V>, i: nat) returns (e: Event<V>)
    requires Inv(s) && AllAnswered(s) && i < |s.racers| && !s.racers[i].Over?
    ensures Helps(s, e)
  {
    assert RacerOk(s, i) && Racing(s, i);
    if s.racers[i].Got? {
      e := Swap(i);
    } else if s.racers[i].Won? {
      e := Write(i);
    } else {
      e := Set(i);
    }
    MovedOn(s, Step(s, e), i);
  }

  lemma ReturnHelps<V>(s: Sys<V>, i: nat)
    requires Inv(s) && AllAnswered(s) && i < |s.racers| && s.racers[i].Over? && s.fork.children[i].Working?
    ensures Helps(s, Return(i))
  {
    TotalUpdate(s.fork.children, Fork.ChildToGo<()>, i, Fork.Returned(()));
  }

  lemma JoinHelps<V>(s: Sys<V>) returns (e: Event<V>)
    requires Inv(s) && AllAnswered(s) && Fork.AllReturned(s.fork) && !s.fork.parent.Continued?
    ensures Helps(s, e)
  {
    var f := Fork.SomeStepHelps(s.fork);
    e := if f.StoreHandle? then StoreHandle
         else if f.ParentArrives? then ControllerArrives
         else if f.ChildArrives? then Arrive(f.i)
         else ResumeController(f.i);
  }

  lemma CallerHelps<V>(s: Sys<V>) returns (e: Event<V>)
    requires Inv(s) && AllAnswered(s) && s.fork.parent.Continued? && !(s.caller.Returned? && s.controllerDone)
    requires forall i :: 0 <= i < |s.racers| ==> s.racers[i].Over?
    ensures Helps(s, e)
  {
    assert RacerOk(s, 0) && s.event.signaled;
    e := if !s.controllerDone then EndController
         else match s.caller
           case Launching => StartReturns
           case Checking => CheckEvent
           case Retrying => ParkCaller
           case _ => ResumeCaller;
  }

  lemma SomeStepHelps<V>(s: Sys<V>) returns (e: Event<V>)
    requires Inv(s) && AllAnswered(s) && !(s.caller.Returned? && s.controllerDone)
    ensures Helps(s, e)
  {
    if i :| 0 <= i < |s.racers| && !s.racers[i].Over? {
      e := RacerHelps(s, i);
    } else {
      if i :| 0 <= i < |s.racers| && s.fork.children[i].Working? {
        ReturnHelps(s, i);
        e := Return(i);
      } else if !s.fork.parent.Continued? {
        forall i | 0 <= i < |s.fork.children| ensures !s.fork.children[i].NotStarted? {
          assert RacerOk(s, i);
        }
        e := JoinHelps(s);
      } else {
        e := CallerHelps(s);
      }
    }
  }

  /** From any reachable state in which all tasks have given their values, the steps of the race, the
      join and the caller alone lead to where the caller has returned the winner's index and value
      and the controller's frame has been destroyed, once. */
  lemma {:induction false} CallerReturns<V>(s: Sys<V>) returns (es: seq<Event<V>>)
    requires Inv(s) && AllAnswered(s)
    ensures var t := Run(Step<V>, s, es);
            && t.caller.Returned? && t.winner == Some(t.caller.index) && t.destroyed == 1 && !t.fault
            && t.caller.index < |t.values| && t.values[t.caller.index] == Some(t.caller.value)
    ensures forall e :: e in es ==> Protocol(e)
    decreases ToGo(s)
  {
    if s.caller.Returned? && s.controllerDone {
      es := [];
    } else {
      var e := SomeStepHelps(s);
      StepKeeps(s, e);
      var rest := CallerReturns(Step(s, e));
      StepThenRun(Step<V>, s, e, rest);
      es := [e] + rest;
    }
  }

  /** With no tasks at all the caller gives an error and nothing is ever started. */
  lemma NoTasksIsInvalid<V(!new)>(es: seq<Event<V>>)
    ensures After<V>(0, es).caller.Invalid? && After<V>(0, es).destroyed == 0 && !After<V>(0, es).started
  {
    var quiet := (s: Sys<V>) => InvAt(0, s) && s.destroyed == 0 && !s.started;
    InitInv<V>(0);
    forall s: Sys<V>, e: Event<V> | quiet(s) ensures quiet(Step(s, e)) {
      StepKeeps(s, e);
    }
    Invariant(Step<V>, quiet, Init(0), es);
  }
}

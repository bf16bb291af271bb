/** A task with a timeout is a race of two: child 0 runs the user's task, child 1 sleeps. */
module Timeout {
  import opened Common
  import opened Runs
  import opened WhenAny
  import Fork = WhenAll

  /** What the two children write: the user's value, or the flag. */
  datatype Written<+V> = Written(userResult: Option<V>, timedOut: bool)

  function OnUserWrites<V>(t: Written<V>, value: V): Written<V> {
    t.(userResult := Some(value))
  }

  function OnTimerWrites<V>(t: Written<V>): Written<V> {
    t.(timedOut := true)
  }

  /** The shared state, whose two children write different fields. */
  class TimeoutState<V> {
    var firstCompleted: bool
    var userResult: Option<V>
    var timedOut: bool

    ghost function State(): Written<V>
      reads this
    {
      Written(userResult, timedOut)
    }

    constructor ()
      ensures State() == Written(None, false) && !firstCompleted
    {
      firstCompleted, userResult, timedOut := false, None, false;
    }

    /** The user's child between its task and setting the event, if no other child comes in between. */
    method UserChild(value: V) returns (won: bool)
      modifies this
      ensures won == !old(firstCompleted) && firstCompleted
      ensures State() == if won then OnUserWrites(old(State()), value) else old(State())
    {
      won := !firstCompleted;
      firstCompleted := true;
      if won {
        userResult := Some(value);
      }
    }

    method TimerChild() returns (won: bool)
      modifies this
      ensures won == !old(firstCompleted) && firstCompleted
      ensures State() == if won then OnTimerWrites(old(State())) else old(State())
    {
      won := !firstCompleted;
      firstCompleted := true;
      if won {
        timedOut := true;
      }
    }

    /** What the caller gives once it is past the event. */
    method Give() returns (answer: Answer<V>)
      ensures answer == Read(State())
    {
      if timedOut { return TimedOut; }
      match userResult
      case Some(v) => return Value(v);
      case None => return Missing;
    }
  }

  /** What the caller gives; Missing stands for reading an empty optional. */
  datatype Answer<+V> = Value(value: V) | TimedOut | Missing

  function Read<V>(t: Written<V>): Answer<V> {
    if t.timedOut then TimedOut
    else match t.userResult
      case Some(v) => Value(v)
      case None => Missing
  }

  /** In this race the user's child has a value and the sleeping one has none. */
  predicate Possible<V>(e: Event<Option<V>>) {
    e.UserDone? ==> (e.value.Some? <==> e.i == 0)
  }

  /** The race, and the two fields, which each child writes in its own way. */
  datatype Timed<+V> = Timed(race: Sys<Option<V>>, written: Written<V>)

  function TimeoutStep<V>(s: Timed<V>, e: Event<Option<V>>): Timed<V> {
    if Possible(e) then Timed(Step(s.race, e), AfterWrite(s, e)) else s
  }

  function AfterWrite<V>(s: Timed<V>, e: Event<Option<V>>): Written<V> {
    if e.Write? && Racing(s.race, e.i) && s.race.racers[e.i].Won? then
      if e.i == 0 then
        match s.race.racers[0].value
        case Some(v) => OnUserWrites(s.written, v)
        case None => s.written
      else OnTimerWrites(s.written)
    else s.written
  }

  function TimeoutInit<V>(): Timed<V> {
    Timed(Init(2), Written(None, false))
  }

  ghost function AfterTimeout<V>(es: seq<Event<Option<V>>>): Timed<V> {
    Run(TimeoutStep<V>, TimeoutInit(), es)
  }

  /** What the fields are when the race has the given result. */
  ghost function Expected<V>(result: Option<(nat, Option<V>)>): Written<V> {
    match result
    case Some((0, v)) => Written(v, false)
    case Some((_, _)) => Written(None, true)
    case None => Written(None, false)
  }

  ghost predicate ValuesInv<V>(s: Sys<Option<V>>) {
    forall i :: 0 <= i < |s.values| && s.values[i].Some? ==> (s.values[i].value.Some? <==> i == 0)
  }

  ghost predicate TimeoutInv<V>(s: Timed<V>) {
    InvAt(2, s.race) && ValuesInv(s.race) && s.written == Expected(s.race.shared.result)
  }

  lemma StepKeepsValues<V>(s: Sys<Option<V>>, e: Event<Option<V>>)
    requires InvAt(2, s) && ValuesInv(s) && Possible(e)
    ensures ValuesInv(Step(s, e))
  {
    if e.UserDone? {
      assert Step(s, e).values == s.values || (e.i < 2 && Step(s, e).values == s.values[e.i := Some(e.value)]);
    } else {
      assert Step(s, e).values == s.values;
    }
  }

  lemma StepKeepsWritten<V>(s: Timed<V>, e: Event<Option<V>>)
    requires TimeoutInv(s)
    ensures AfterWrite(s, e) == Expected(Step(s.race, e).shared.result)
  {
    if e.Write? && Racing(s.race, e.i) && s.race.racers[e.i].Won? {
      assert RacerOk(s.race, e.i);
    } else {
      assert Step(s.race, e).shared.result == s.race.shared.result;
    }
  }

  lemma TimeoutStepKeeps<V>(s: Timed<V>, e: Event<Option<V>>)
    requires TimeoutInv(s)
    ensures TimeoutInv(TimeoutStep(s, e))
  {
    if Possible(e) {
      StepKeeps(s.race, e);
      StepKeepsValues(s.race, e);
      StepKeepsWritten(s, e);
    }
  }

  lemma TimeoutReachable<V(!new)>(es: seq<Event<Option<V>>>)
    ensures TimeoutInv(AfterTimeout(es))
  {
    InitInv<Option<V>>(2);
    forall s: Timed<V>, e: Event<Option<V>> | TimeoutInv(s) ensures TimeoutInv(TimeoutStep(s, e)) {
      TimeoutStepKeeps(s, e);
    }
    Invariant(TimeoutStep<V>, (s: Timed<V>) => TimeoutInv(s), TimeoutInit(), es);
  }

  /** The two fields are never both set, and they are what the winner alone has written. */
  lemma FieldsAreTheWinners<V(!new)>(es: seq<Event<Option<V>>>)
    ensures var s := AfterTimeout(es);
            && !(s.written.userResult.Some? && s.written.timedOut)
            && (s.written.userResult.Some? ==> s.race.winner == Some(0))
            && (s.written.timedOut ==> s.race.winner == Some(1))
            && (s.race.event.signaled ==> s.written.userResult.Some? || s.written.timedOut)
  {
    TimeoutReachable(es);
  }

  /** Once the caller has returned, it gave the user's value exactly when the user's child won, and a
      timeout exactly when the sleeping child did; it never reads an empty optional. */
  lemma AnswerIsTheWinners<V(!new)>(es: seq<Event<Option<V>>>)
    requires AfterTimeout(es).race.caller.Returned?
    ensures WinnersAnswer(AfterTimeout(es))
  {
    TimeoutReachable(es);
  }

  ghost predicate WinnersAnswer<V>(s: Timed<V>) {
    && s.race.winner in {Some(0), Some(1)} && |s.race.values| == 2 && s.race.writes == 1
    && (s.race.winner == Some(0) <==> Read(s.written).Value?)
    && (s.race.winner == Some(1) <==> Read(s.written).TimedOut?)
    && (s.race.winner == Some(0) ==> s.race.values[0] == Some(Some(Read(s.written).value)))
  }

  // ---------------------------------------------------------------------------
  // Without an executor, where a sleep does not suspend
  // ---------------------------------------------------------------------------

  /** The race, and whether the user's child has ever suspended before its task finished. */
  datatype Alone<+V> = Alone(timed: Timed<V>, suspended: bool)

  datatype AloneEvent<+V> = Suspend | Race(e: Event<Option<V>>)

  /** Steps that continue the user's child. */
  predicate UsersStep<V>(e: Event<V>) {
    match e
    case UserDone(i, _) => i == 0
    case Swap(i) => i == 0
    case Write(i) => i == 0
    case Set(i) => i == 0
    case Return(i) => i == 0
    case Arrive(i) => i == 0
    case _ => false
  }

  predicate ChildDone<V>(s: Sys<V>, i: nat) {
    i < |s.fork.children| && s.fork.children[i].Done?
  }

  /** What the starting thread permits: it starts the sleeping child when the user's child has suspended
      or is at its end, and goes on from there when the sleeping child, which does not suspend, is at
      its end. Meanwhile only other threads can resume the user's child, if there are others. */
  predicate Permitted<V>(others: bool, a: Alone<V>, e: Event<Option<V>>) {
    && (e.StartChild? && a.timed.race.fork.parent == Fork.Starting(1) ==> a.suspended || ChildDone(a.timed.race, 0))
    && (e.StoreHandle? ==> ChildDone(a.timed.race, 1))
    && (UsersStep(e) && a.suspended && !others ==> ChildDone(a.timed.race, 1))
  }

  function AloneStep<V>(others: bool, a: Alone<V>, e: AloneEvent<V>): Alone<V> {
    match e
    case Suspend => if Racing(a.timed.race, 0) && a.timed.race.racers[0].Working? then a.(suspended := true) else a
    case Race(r) => if Permitted(others, a, r) then a.(timed := TimeoutStep(a.timed, r)) else a
  }

  function Steps<V>(others: bool): (Alone<V>, AloneEvent<V>) -> Alone<V> {
    (a: Alone<V>, e: AloneEvent<V>) => AloneStep(others, a, e)
  }

  ghost function AfterAlone<V>(others: bool, es: seq<AloneEvent<V>>): Alone<V> {
    Run(Steps(others), Alone(TimeoutInit(), false), es)
  }

  ghost predicate AloneInv<V>(others: bool, a: Alone<V>) {
    && TimeoutInv(a.timed)
    && (!a.suspended ==> a.timed.race.racers[1].Idle? || ChildDone(a.timed.race, 0))
    && (a.timed.race.winner == Some(1) ==> a.suspended)
    && (a.timed.race.winner == Some(0) ==> others || !a.suspended)
    && (a.suspended && !others && !ChildDone(a.timed.race, 1) ==> a.timed.race.racers[0].Working?)
  }

  lemma StepChildren<V>(s: Sys<V>, e: Event<V>)
    requires Inv(s)
    ensures forall i :: ChildDone(s, i) ==> ChildDone(Step(s, e), i)
  {
  }

  lemma StepRacers<V>(s: Sys<V>, e: Event<V>)
    requires Inv(s) && |s.racers| == 2
    ensures var t := Step(s, e);
            && |t.racers| == 2
            && (s.racers[1].Idle? && !t.racers[1].Idle? ==> e.StartChild? && s.fork.parent == Fork.Starting(1))
            && (s.racers[0].Working? && !t.racers[0].Working? ==> UsersStep(e))
            && (t.winner != s.winner ==>
                  e.Swap? && t.winner == Some(e.i) && Racing(s, e.i) && s.racers[e.i].Got? && !s.shared.first)
  {
  }

  lemma AloneStepKeeps<V>(others: bool, a: Alone<V>, e: AloneEvent<V>)
    requires AloneInv(others, a)
    ensures AloneInv(others, AloneStep(others, a, e))
  {
    if e.Race? && Permitted(others, a, e.e) && Possible(e.e) {
      TimeoutStepKeeps(a.timed, e.e);
      StepChildren(a.timed.race, e.e);
      StepRacers(a.timed.race, e.e);
      assert RacerOk(a.timed.race, 0) && RacerOk(a.timed.race, 1);
    }
  }

  lemma AloneReachable<V(!new)>(others: bool, es: seq<AloneEvent<V>>)
    ensures AloneInv(others, AfterAlone(others, es))
  {
    InitInv<Option<V>>(2);
    forall a: Alone<V>, e: AloneEvent<V> | AloneInv(others, a) ensures AloneInv(others, Steps(others)(a, e)) {
      AloneStepKeeps(others, a, e);
    }
    Invariant(Steps<V>(others), (a: Alone<V>) => AloneInv(others, a), Alone(TimeoutInit(), false), es);
  }

  lemma WinnerStays<V(!new)>(others: bool, a: Alone<V>, es: seq<AloneEvent<V>>)
    requires AloneInv(others, a) && a.timed.race.winner.Some?
    ensures Run(Steps(others), a, es).timed.race.winner == a.timed.race.winner
  {
    var kept := (b: Alone<V>) => AloneInv(others, b) && b.timed.race.winner == a.timed.race.winner;
    forall b: Alone<V>, e: AloneEvent<V> | kept(b) ensures kept(Steps(others)(b, e)) {
      AloneStepKeeps(others, b, e);
      if e.Race? {
        OutcomeIsFinal(b.timed.race, e.e);
      }
    }
    Invariant(Steps<V>(others), kept, a, es);
  }

  /** The sleeping child is at its compare-and-swap. */
  ghost predicate TimerAtSwap<V>(a: Alone<V>) {
    Racing(a.timed.race, 1) && |a.timed.race.racers| == 2 && a.timed.race.racers[1].Got?
  }

  /** The user's child has been continued as far as past its compare-and-swap. */
  predicate UserSwapped<V>(a: Alone<V>) {
    var racers := a.timed.race.racers;
    racers != [] && (racers[0].Won? || racers[0].Wrote? || racers[0].Over?)
  }

  lemma SwapDecides<V>(others: bool, a: Alone<V>)
    requires AloneInv(others, a) && TimerAtSwap(a)
    ensures AloneStep(others, a, Race(Swap(1))).timed.race.winner == Some(if UserSwapped(a) then 0 else 1)
    ensures !UserSwapped(a) ==> a.suspended
    ensures !others ==> (UserSwapped(a) <==> !a.suspended)
  {
    assert RacerOk(a.timed.race, 0) && RacerOk(a.timed.race, 1);
    assert a.timed.race.winner.Some? ==> a.timed.race.winner == Some(0);
  }

  /** In every run, whatever other threads do: the timer wins if and only if, when the sleeping child
      comes to its compare-and-swap, nobody has continued the user's child past its own, and then the
      user's task did suspend. */
  lemma TimerWinsIff<V(!new)>(others: bool, es: seq<AloneEvent<V>>, fs: seq<AloneEvent<V>>)
    requires TimerAtSwap(AfterAlone(others, es))
    ensures var a := AfterAlone(others, es);
            var z := AfterAlone(others, es + [Race(Swap(1))] + fs);
            && (z.timed.race.winner == Some(1) <==> a.suspended && !UserSwapped(a))
            && (z.timed.race.winner == Some(0) <==> UserSwapped(a))
  {
    AloneReachable(others, es);
    var a := AfterAlone(others, es);
    SwapDecides(others, a);
    var e: AloneEvent<V> := Race(Swap(1));
    AloneStepKeeps(others, a, e);
    assert (es + [e])[..|es|] == es;
    assert AfterAlone(others, es + [e]) == AloneStep(others, a, e);
    WinnerStays(others, AfterAlone(others, es + [e]), fs);
    Split(Steps<V>(others), Alone(TimeoutInit(), false), es + [e], fs);
  }

  /** So a user's task that finishes without suspending wins in every run; and on one thread it wins,
      and the caller gives its value, if and only if it does not suspend. */
  lemma NoExecutorUserWinsIff<V(!new)>(others: bool, es: seq<AloneEvent<V>>)
    requires AfterAlone(others, es).timed.race.winner.Some?
    ensures var a := AfterAlone(others, es);
            && (!a.suspended ==> a.timed.race.winner == Some(0))
            && (!others ==> (a.timed.race.winner == Some(0) <==> !a.suspended))
            && (a.timed.race.caller.Returned? ==> WinnersAnswer(a.timed))
  {
    AloneReachable(others, es);
  }

  /** The user's child suspends, and the sleeping one comes to its compare-and-swap. */
  ghost function Overtaking<V>(): seq<AloneEvent<V>> {
    [Race(StartController), Race(StartChild), Suspend, Race(StartChild), Race(UserDone(1, None))]
  }

  /** The timer can win without an executor: by this run, on one thread. */
  lemma TimerMayWin<V(!new)>()
    ensures AfterAlone<V>(false, Overtaking() + [Race(Swap(1))]).timed.race.winner == Some(1)
  {
    var a := AfterAlone<V>(false, Overtaking());
    AloneReachable<V>(false, Overtaking());
    Started<V>();
    assert a.suspended && TimerAtSwap(a);
    SwapDecides(false, a);
    var all := Overtaking<V>() + [Race(Swap(1))];
    assert all[..5] == Overtaking();
  }

  lemma Started<V>()
    ensures var a := AfterAlone<V>(false, Overtaking());
            a.suspended && TimerAtSwap(a)
  {
    var step := Steps<V>(false);
    var init := Alone(TimeoutInit<V>(), false);
    var a := step(step(init, Race(StartController)), Race(StartChild));
    SecondStarted(a);
    Five(step, init, Race(StartController), Race(StartChild), Suspend, Race(StartChild), Race(UserDone(1, None)));
  }

  ghost predicate JustStarted<V>(a: Alone<V>) {
    && a.timed.race.racers == [Working, Idle] && a.timed.race.fork.parent == Fork.Starting(1) && a.timed.race.started
    && Racing(a.timed.race, 0) && |a.timed.race.fork.children| == |a.timed.race.values| == 2
  }

  lemma SecondStarted<V>(a: Alone<V>)
    requires JustStarted(a)
    ensures var b := AloneStep(false, AloneStep(false, a, Suspend), Race(StartChild));
            var c := AloneStep(false, b, Race(UserDone(1, None)));
            c.suspended && TimerAtSwap(c)
  {
    var b := AloneStep(false, AloneStep(false, a, Suspend), Race(StartChild));
    assert b.timed.race.racers == [Working, Working] && b.suspended && Racing(b.timed.race, 1);
  }
}

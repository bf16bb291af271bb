/** The libuv executor's wake-up protocol: producers push under a lock and then signal a coalescing
    async handle; the loop turns the signal into an idle handler that drains the queues. */
module LibuvExecutor {
  import opened Common
  import opened Runs

  /** The three queues: coroutines to resume, callbacks to call, timers to start. */
  datatype Queues = Queues(ready: seq<Handle>, callbacks: seq<Handle>, timers: seq<Handle>) {
    function Plus(q: Queues): Queues {
      Queues(ready + q.ready, callbacks + q.callbacks, timers + q.timers)
    }

    function Size(): nat {
      |ready| + |callbacks| + |timers|
    }

    /** The part a drain takes next: all coroutines, then all callbacks, then all timers. */
    function First(): Queues
      requires Size() > 0
    {
      if ready != [] then Queues(ready[..1], [], [])
      else if callbacks != [] then Queues([], callbacks[..1], [])
      else Queues([], [], timers[..1])
    }

    function Rest(): Queues
      requires Size() > 0
    {
      if ready != [] then Queues(ready[1..], callbacks, timers)
      else if callbacks != [] then Queues(ready, callbacks[1..], timers)
      else Queues(ready, callbacks, timers[1..])
    }
  }

  const NOTHING := Queues([], [], [])

  datatype Item = Coroutine(h: Handle) | Callback(h: Handle) | Timer(h: Handle)

  function AsQueues(i: Item): Queues {
    match i
    case Coroutine(h) => Queues([h], [], [])
    case Callback(h) => Queues([], [h], [])
    case Timer(h) => Queues([], [], [h])
  }

  /** The fields that the loop and its producers share, and whether the idle handler is active. */
  datatype Fields = Fields(queued: Queues, idle: bool)

  /** The locked half of Schedule, Post and ScheduleAfter. */
  function OnPush(f: Fields, i: Item): Fields {
    f.(queued := f.queued.Plus(AsQueues(i)))
  }

  function OnSignal(f: Fields): Fields {
    f.(idle := true)
  }

  /** The swap at the start of ProcessReadyQueue. */
  function OnTake(f: Fields): (Fields, Queues) {
    (f.(queued := NOTHING), f.queued)
  }

  /** The locked check at the end of OnIdle. */
  function OnRecheck(f: Fields): Fields {
    f.(idle := f.idle && f.queued.Size() > 0)
  }

  class Executor {
    var readyQueue: seq<Handle>
    var callbackQueue: seq<Handle>
    var timerQueue: seq<Handle>
    var idleActive: bool

    ghost function State(): Fields
      reads this
    {
      Fields(Queues(readyQueue, callbackQueue, timerQueue), idleActive)
    }

    constructor ()
      ensures State() == Fields(NOTHING, false)
    {
      readyQueue, callbackQueue, timerQueue, idleActive := [], [], [], false;
    }

    /** The signal follows it. */
    method Push(i: Item)
      modifies this
      ensures State() == OnPush(old(State()), i)
    {
      match i
      case Coroutine(h) => readyQueue := readyQueue + [h];
      case Callback(h) => callbackQueue := callbackQueue + [h];
      case Timer(h) => timerQueue := timerQueue + [h];
    }

    method OnAsync()
      modifies this
      ensures State() == OnSignal(old(State()))
    {
      if !idleActive {
        idleActive := true;
      }
    }

    method TakeQueues() returns (taken: Queues)
      modifies this
      ensures (State(), taken) == OnTake(old(State()))
    {
      taken := Queues(readyQueue, callbackQueue, timerQueue);
      readyQueue, callbackQueue, timerQueue := [], [], [];
    }

    method Recheck()
      modifies this
      ensures State() == OnRecheck(old(State()))
    {
      if readyQueue == [] && callbackQueue == [] && timerQueue == [] {
        idleActive := false;
      }
    }
  }

  // ---------------------------------------------------------------------------
  // The machine: any number of producers, and the loop thread
  // ---------------------------------------------------------------------------

  /** What the loop thread is at: polling; with the async signal consumed and the callback not run;
      draining what it took; or before the final check. */
  datatype Loop = Polling | InAsync | Draining(batch: Queues) | Rechecking

  /** The executor's fields, the async handle, producers between push and signal, the loop, and two
      histories no code reads: what was pushed and what was processed. */
  datatype Sys = Sys(fields: Fields, signaled: bool, pushing: nat, loop: Loop, pushed: Queues, processed: Queues)

  /** Resumed code pushes like any other producer. */
  datatype Event = Push(i: Item) | Send | ConsumeSignal | RunAsync | RunIdle | ProcessOne | Recheck

  const INIT := Sys(Fields(NOTHING, false), false, 0, Polling, NOTHING, NOTHING)

  function Step(s: Sys, e: Event): Sys {
    match e
    case Push(i) => s.(fields := OnPush(s.fields, i), pushed := s.pushed.Plus(AsQueues(i)), pushing := s.pushing + 1)
    case Send => if s.pushing > 0 then s.(signaled := true, pushing := s.pushing - 1) else s
    case ConsumeSignal => if s.loop.Polling? && s.signaled then s.(signaled := false, loop := InAsync) else s
    case RunAsync => if s.loop.InAsync? then s.(fields := OnSignal(s.fields), loop := Polling) else s
    case RunIdle =>
      if s.loop.Polling? && s.fields.idle then
        var (f, taken) := OnTake(s.fields);
        s.(fields := f, loop := Draining(taken))
      else s
    case ProcessOne =>
      if s.loop.Draining? then
        if s.loop.batch.Size() == 0 then s.(loop := Rechecking)
        else s.(loop := Draining(s.loop.batch.Rest()), processed := s.processed.Plus(s.loop.batch.First()))
      else s
    case Recheck => if s.loop.Rechecking? then s.(fields := OnRecheck(s.fields), loop := Polling) else s
  }

  function Batch(l: Loop): Queues {
    if l.Draining? then l.batch else NOTHING
  }

  ghost predicate WakeInv(s: Sys) {
    && (s.fields.queued.Size() > 0 ==> s.fields.idle || s.signaled || s.loop.InAsync? || s.pushing > 0)
    && (s.loop.Draining? || s.loop.Rechecking? ==> s.fields.idle)
  }

  ghost predicate OrderInv(s: Sys) {
    s.processed.Plus(Batch(s.loop)).Plus(s.fields.queued) == s.pushed
  }

  ghost predicate Inv(s: Sys) {
    WakeInv(s) && OrderInv(s)
  }

  lemma PlusAssociates(a: Queues, b: Queues, c: Queues)
    ensures a.Plus(b).Plus(c) == a.Plus(b.Plus(c))
    ensures a.Plus(NOTHING) == a == NOTHING.Plus(a)
  {
  }

  lemma FirstAndRest(q: Queues)
    requires q.Size() > 0
    ensures q.First().Plus(q.Rest()) == q
  {
  }

  lemma StepKeepsOrder(s: Sys, e: Event)
    requires OrderInv(s)
    ensures OrderInv(Step(s, e))
  {
    match e
    case Push(i) => PlusAssociates(s.processed.Plus(Batch(s.loop)), s.fields.queued, AsQueues(i));
    case ProcessOne =>
      if s.loop.Draining? && s.loop.batch.Size() > 0 {
        FirstAndRest(s.loop.batch);
        PlusAssociates(s.processed, s.loop.batch.First(), s.loop.batch.Rest());
      }
    case RunIdle =>
      PlusAssociates(s.processed, NOTHING, s.fields.queued);
      PlusAssociates(s.processed.Plus(s.fields.queued), NOTHING, NOTHING);
    case _ =>
  }

  lemma StepKeeps(s: Sys, e: Event)
    requires Inv(s)
    ensures Inv(Step(s, e))
  {
    StepKeepsOrder(s, e);
  }

  ghost function After(es: seq<Event>): Sys {
    Run(Step, INIT, es)
  }

  lemma Reachable(es: seq<Event>)
    ensures Inv(After(es))
  {
    forall s: Sys, e: Event | Inv(s) ensures Inv(Step(s, e)) {
      StepKeeps(s, e);
    }
    Invariant(Step, s => Inv(s), INIT, es);
  }

  /** The coroutines, callbacks and timers that events hand in, each in their order. */
  ghost function Coroutines(es: seq<Event>): seq<Handle> {
    if es == [] then []
    else
      var e := es[|es| - 1];
      Coroutines(es[..|es| - 1]) + (if e.Push? && e.i.Coroutine? then [e.i.h] else [])
  }

  ghost function Callbacks(es: seq<Event>): seq<Handle> {
    if es == [] then []
    else
      var e := es[|es| - 1];
      Callbacks(es[..|es| - 1]) + (if e.Push? && e.i.Callback? then [e.i.h] else [])
  }

  ghost function Timers(es: seq<Event>): seq<Handle> {
    if es == [] then []
    else
      var e := es[|es| - 1];
      Timers(es[..|es| - 1]) + (if e.Push? && e.i.Timer? then [e.i.h] else [])
  }

  lemma {:induction false} PushedIsHandedIn(es: seq<Event>)
    ensures After(es).pushed == Queues(Coroutines(es), Callbacks(es), Timers(es))
  {
    if es != [] {
      PushedIsHandedIn(es[..|es| - 1]);
    }
  }

  /** No wake-up is lost: whenever there is something queued, the idle handler is active, or the
      signal is pending or being handled, or a producer has yet to signal. And the coroutines processed,
      those taken and those queued are those handed in, in order, what resumed code adds included; and
      so are callbacks and timers. */
  lemma NoLostWakeups(es: seq<Event>)
    ensures var s := After(es);
            var (p, b, q) := (s.processed, Batch(s.loop), s.fields.queued);
            && (q.Size() > 0 ==> s.fields.idle || s.signaled || s.loop.InAsync? || s.pushing > 0)
            && p.ready + b.ready + q.ready == Coroutines(es)
            && p.callbacks + b.callbacks + q.callbacks == Callbacks(es)
            && p.timers + b.timers + q.timers == Timers(es)
  {
    Reachable(es);
    PushedIsHandedIn(es);
  }

  // ---------------------------------------------------------------------------
  // The loop alone
  // ---------------------------------------------------------------------------

  /** What the loop thread does next, if it does not sleep. */
  function LoopEvent(s: Sys): Event {
    match s.loop
    case InAsync => RunAsync
    case Draining(_) => ProcessOne
    case Rechecking => Recheck
    case Polling => if s.signaled then ConsumeSignal else RunIdle
  }

  /** n steps of the loop thread, with nobody else at work. */
  ghost function Loops(s: Sys, n: nat): Sys
    decreases n
  {
    if n == 0 then s else Loops(Step(s, LoopEvent(s)), n - 1)
  }

  ghost predicate Asleep(s: Sys) {
    s.loop.Polling? && !s.signaled && !s.fields.idle
  }

  function Distance(s: Sys): nat {
    if s.fields.queued.Size() > 0 then
      match s.loop case InAsync => 4 case Draining(_) => 3 case Rechecking => 2 case Polling => 1
    else
      match s.loop
      case InAsync => 4 case Draining(_) => 2 case Rechecking => 1
      case Polling => if s.fields.idle then 3 else 0
  }

  lemma {:induction false} StaysAsleep(s: Sys, n: nat)
    requires Asleep(s)
    ensures Loops(s, n) == s
    decreases n
  {
    if n > 0 {
      StaysAsleep(s, n - 1);
    }
  }

  /** From any reachable state in which no producer is between push and signal, the loop's own steps
      process all that was ever handed in. */
  lemma AllIsProcessed(es: seq<Event>) returns (k: nat)
    requires After(es).pushing == 0
    ensures forall n :: n >= k ==>
              var t := Loops(After(es), n);
              Asleep(t) && t.processed == Queues(Coroutines(es), Callbacks(es), Timers(es))
  {
    Reachable(es);
    PushedIsHandedIn(es);
    k := LoopFinishes(After(es));
  }

  /** And nothing is stranded: once the producers have signalled, the loop thread's own steps process
      all that was pushed and then put it to sleep, from some number of steps on. */
  lemma {:induction false} LoopFinishes(s: Sys) returns (k: nat)
    requires Inv(s) && s.pushing == 0
    ensures forall n :: n >= k ==>
              Asleep(Loops(s, n)) && Loops(s, n).pushed == s.pushed && Loops(s, n).processed == s.pushed
    decreases s.signaled, s.fields.queued.Size(), Batch(s.loop).Size(), Distance(s)
  {
    if Asleep(s) {
      PlusAssociates(s.processed, NOTHING, NOTHING);
      k := 0;
      forall n: nat ensures Loops(s, n) == s {
        StaysAsleep(s, n);
      }
    } else {
      var t := Step(s, LoopEvent(s));
      StepKeeps(s, LoopEvent(s));
      k := LoopFinishes(t);
      k := k + 1;
      assert forall n :: n >= k ==> Loops(s, n) == Loops(t, n - 1);
    }
  }
}

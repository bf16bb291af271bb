/** The thread pool's accounting of work: what Run may conclude from an empty queue and a zero count. */
module ThreadPoolExecutor {
  import opened Common
  import opened Runs

  /** The fields under the lock, and the stop flag; work by handle. */
  datatype Fields = Fields(queue: seq<Handle>, active: nat, stopping: bool)

  /** Schedule and Post: a null handle or an empty callback is not queued. */
  function OnSchedule(f: Fields, work: Option<Handle>): Fields {
    match work
    case Some(h) => f.(queue := f.queue + [h])
    case None => f
  }

  /** A worker's locked block once its wait is over: the front item, counted before the lock is
      released, or None when the worker leaves its loop. */
  function OnTake(f: Fields): (Fields, Option<Handle>)
    requires f.stopping || f.queue != []
  {
    if f.queue == [] then (f, None)
    else (f.(queue := f.queue[1..], active := f.active + 1), Some(f.queue[0]))
  }

  function OnFinish(f: Fields): Fields
    requires f.active > 0
  {
    f.(active := f.active - 1)
  }

  /** What Run waits for. */
  predicate MayReturn(f: Fields) {
    f.stopping || (f.queue == [] && f.active == 0)
  }

  class Executor {
    var workQueue: seq<Handle>
    var activeTasks: nat
    var stopping: bool

    ghost function State(): Fields
      reads this
    {
      Fields(workQueue, activeTasks, stopping)
    }

    constructor ()
      ensures State() == Fields([], 0, false)
    {
      workQueue, activeTasks, stopping := [], 0, false;
    }

    method Schedule(work: Option<Handle>)
      modifies this
      ensures State() == OnSchedule(old(State()), work)
    {
      if work.Some? {
        workQueue := workQueue + [work.value];
      }
    }

    method TakeWork() returns (work: Option<Handle>)
      requires stopping || workQueue != []
      modifies this
      ensures (State(), work) == OnTake(old(State()))
    {
      work := None;
      if stopping && workQueue == [] {
        return None;
      }
      work := Some(workQueue[0]);
      workQueue := workQueue[1..];
      activeTasks := activeTasks + 1;
    }

    method FinishWork()
      requires activeTasks > 0
      modifies this
      ensures State() == OnFinish(old(State()))
    {
      activeTasks := activeTasks - 1;
    }

    method RunMayReturn() returns (yes: bool)
      ensures yes == MayReturn(State())
    {
      yes := stopping || (workQueue == [] && activeTasks == 0);
    }
  }

  // ---------------------------------------------------------------------------
  // The machine. Work is numbered in the order it is queued.
  // ---------------------------------------------------------------------------

  type Worker = nat

  /** A worker that waits, that executes an item, that has executed it and not counted down yet. */
  datatype Stage = Waiting | Executing(item: nat) | Executed(item: nat) | Quit

  /** The executor's fields and its workers; and what no code reads: how many items were queued, how
      many were taken, which worker each item in flight is with, and which are finished. */
  datatype Sys = Sys(fields: Fields, workers: map<Worker, Stage>,
                     pushed: nat, taken: nat, holder: map<nat, Worker>, finished: set<nat>)

  datatype Event =
    | Enqueue | EnqueueNothing
    | AddWorker(w: Worker) | Take(w: Worker) | Leave(w: Worker) | Execute(w: Worker) | CountDown(w: Worker)
    | Stop | Restart

  const INIT := Sys(Fields([], 0, false), map[], 0, 0, map[], {})

  predicate Busy(s: Sys, w: Worker) {
    w in s.workers && (s.workers[w].Executing? || s.workers[w].Executed?)
  }

  function Step(s: Sys, e: Event): Sys {
    match e
    case Enqueue => s.(fields := OnSchedule(s.fields, Some(s.pushed)), pushed := s.pushed + 1)
    case EnqueueNothing => s.(fields := OnSchedule(s.fields, None))
    case AddWorker(w) => if w in s.workers then s else s.(workers := s.workers[w := Waiting])
    case Take(w) =>
      if w in s.workers && s.workers[w].Waiting? && (s.fields.stopping || s.fields.queue != []) then
        match OnTake(s.fields)
        case (f, Some(item)) =>
          s.(fields := f, taken := s.taken + 1, workers := s.workers[w := Executing(item)],
             holder := s.holder[item := w])
        case (f, None) => s.(fields := f, workers := s.workers[w := Quit])
      else s
    case Leave(w) =>
      // the loop's condition finds the stop flag set, even if there is work left
      if w in s.workers && s.workers[w].Waiting? && s.fields.stopping then s.(workers := s.workers[w := Quit]) else s
    case Execute(w) =>
      if w in s.workers && s.workers[w].Executing? then s.(workers := s.workers[w := Executed(s.workers[w].item)])
      else s
    case CountDown(w) =>
      if w in s.workers && s.workers[w].Executed? && s.fields.active > 0 then
        s.(fields := OnFinish(s.fields), finished := s.finished + {s.workers[w].item},
           holder := s.holder - {s.workers[w].item}, workers := s.workers[w := Waiting])
      else s
    case Stop => s.(fields := s.fields.(stopping := true))
    case Restart => s.(fields := s.fields.(stopping := false))
  }

  ghost function BusyWorkers(s: Sys): set<Worker> {
    set w | w in s.workers && Busy(s, w)
  }

  ghost predicate QueueInv(s: Sys) {
    && |s.fields.queue| == s.pushed - s.taken
    && forall i :: 0 <= i < |s.fields.queue| ==> s.fields.queue[i] == s.taken + i
  }

  ghost predicate CountInv(s: Sys) {
    |BusyWorkers(s)| == s.fields.active
  }

  ghost predicate WorkerOk(s: Sys, w: Worker) {
    Busy(s, w) ==> s.workers[w].item in s.holder && s.holder[s.workers[w].item] == w
  }

  ghost predicate ItemOk(s: Sys, i: nat) {
    && (i in s.holder ==> Busy(s, s.holder[i]) && s.workers[s.holder[i]].item == i)
    && (i in s.holder || i in s.finished <==> i < s.taken)
    && !(i in s.holder && i in s.finished)
  }

  /** Items taken and not finished are each with one busy worker, and with no other. */
  ghost predicate HoldersInv(s: Sys) {
    (forall w :: WorkerOk(s, w)) && (forall i :: ItemOk(s, i))
  }

  ghost predicate Inv(s: Sys) {
    QueueInv(s) && CountInv(s) && HoldersInv(s)
  }

  lemma StepKeepsCount(s: Sys, e: Event)
    requires CountInv(s)
    ensures CountInv(Step(s, e))
  {
    var t := Step(s, e);
    if e.Take? || e.Leave? || e.Execute? || e.CountDown? {
      BusyAfter(s, t, e.w);
    } else {
      assert BusyWorkers(t) == BusyWorkers(s);
    }
  }

  lemma BusyAfter(s: Sys, t: Sys, w: Worker)
    requires forall v :: v != w ==> (Busy(s, v) <==> Busy(t, v))
    ensures |BusyWorkers(t)| == |BusyWorkers(s)| - (if Busy(s, w) then 1 else 0) + (if Busy(t, w) then 1 else 0)
  {
    var others := BusyWorkers(s) - {w};
    assert BusyWorkers(s) == if Busy(s, w) then others + {w} else others;
    assert BusyWorkers(t) == if Busy(t, w) then others + {w} else others;
  }

  lemma StepKeepsWorker(s: Sys, e: Event, w: Worker)
    requires QueueInv(s) && HoldersInv(s)
    ensures WorkerOk(Step(s, e), w)
  {
    assert WorkerOk(s, w);
    if e.CountDown? {
      assert WorkerOk(s, e.w);
    }
    if e.Take? && s.fields.queue != [] {
      assert s.fields.queue[0] == s.taken && ItemOk(s, s.taken);
      assert Busy(s, w) ==> ItemOk(s, s.workers[w].item);
    }
  }

  lemma StepKeepsItem(s: Sys, e: Event, i: nat)
    requires QueueInv(s) && HoldersInv(s)
    ensures ItemOk(Step(s, e), i)
  {
    assert ItemOk(s, i);
    if e.CountDown? || e.Take? || e.Leave? || e.Execute? {
      assert WorkerOk(s, e.w);
      assert Busy(s, e.w) ==> ItemOk(s, s.workers[e.w].item);
    }
    if e.Take? && s.fields.queue != [] {
      assert s.fields.queue[0] == s.taken;
    }
  }

  lemma StepKeeps(s: Sys, e: Event)
    requires Inv(s)
    ensures Inv(Step(s, e))
  {
    assert QueueInv(Step(s, e));
    StepKeepsCount(s, e);
    forall w { StepKeepsWorker(s, e, w); }
    forall i { StepKeepsItem(s, e, i); }
  }

  ghost function After(es: seq<Event>): Sys {
    Run(Step, INIT, es)
  }

  lemma Reachable(es: seq<Event>)
    ensures Inv(After(es))
  {
    InitHolders();
    KeptByRuns(INIT, es);
  }

  lemma KeptByRuns(s: Sys, es: seq<Event>)
    requires Inv(s)
    ensures Inv(Run(Step, s, es))
  {
    forall t: Sys, e: Event | Inv(t) ensures Inv(Step(t, e)) {
      StepKeeps(t, e);
    }
    Invariant(Step, t => Inv(t), s, es);
  }

  lemma InitHolders()
    ensures HoldersInv(INIT)
  {
    forall w { InitWorker(w); }
    forall i { InitItem(i); }
  }

  lemma InitWorker(w: Worker)
    ensures WorkerOk(INIT, w)
  {
  }

  lemma InitItem(i: nat)
    ensures ItemOk(INIT, i)
  {
  }

  /** The numbers add up in every reachable state: the count is the number of items taken and not
      finished, items are taken in the order queued, and each is queued, or in flight with one
      worker, or finished. */
  lemma WorkIsAccountedFor(es: seq<Event>, i: nat)
    ensures var s := After(es);
            && s.fields.active == |BusyWorkers(s)| == |s.holder|
            && (i in s.fields.queue <==> s.taken <= i < s.pushed)
            && (i in s.holder || i in s.finished <==> i < s.taken) && !(i in s.holder && i in s.finished)
            && (i in s.holder ==> Busy(s, s.holder[i]) && s.workers[s.holder[i]].item == i)
  {
    Reachable(es);
    var s := After(es);
    if s.taken <= i < s.pushed {
      assert s.fields.queue[i - s.taken] == i;
    }
    assert ItemOk(s, i);
    OneToOne(s);
  }

  /** Items in flight and busy workers are in one-to-one correspondence. */
  lemma OneToOne(s: Sys)
    requires HoldersInv(s)
    ensures |s.holder| == |BusyWorkers(s)|
  {
    var f := map w | w in BusyWorkers(s) :: s.workers[w].item;
    forall v, w | v in f && w in f && f[v] == f[w] ensures v == w {
      assert WorkerOk(s, v) && WorkerOk(s, w);
    }
    ImageSize(f, BusyWorkers(s), s.holder.Keys) by {
      forall i | i in s.holder ensures exists w :: w in f && f[w] == i {
        assert ItemOk(s, i);
        assert s.holder[i] in f;
      }
      forall w | w in f ensures f[w] in s.holder {
        assert WorkerOk(s, w);
      }
    }
  }

  /** So Run may return when asked to stop, whatever is left, and else exactly when all that was ever
      queued is finished. */
  lemma RunReturnsWhenDone(es: seq<Event>)
    ensures var s := After(es);
            MayReturn(s.fields) <==> s.fields.stopping || forall i: nat :: i < s.pushed ==> i in s.finished
  {
    Reachable(es);
    var s := After(es);
    OneToOne(s);
    if s.fields.queue == [] && s.fields.active == 0 {
      assert s.holder == map[];
      forall i: nat | i < s.pushed ensures i in s.finished {
        assert ItemOk(s, i);
      }
    } else {
      var i := Unfinished(s);
      assert i < s.pushed && i !in s.finished;
    }
  }

  /** An item that keeps Run waiting: the front one, or one in flight. */
  lemma Unfinished(s: Sys) returns (i: nat)
    requires Inv(s) && (s.fields.queue != [] || s.holder != map[])
    ensures i < s.pushed && i !in s.finished
  {
    if s.fields.queue != [] {
      i := s.taken;
    } else {
      i :| i in s.holder;
    }
    assert ItemOk(s, i);
  }

  /** A waiting worker takes the oldest item there is, even when it is asked to stop, and is counted
      before anybody can see the item gone from the queue. */
  lemma TakesTheOldest(es: seq<Event>, w: Worker)
    requires w in After(es).workers && After(es).workers[w] == Waiting && After(es).fields.queue != []
    ensures var s := After(es);
            var t := After(es + [Take(w)]);
            && t.workers == s.workers[w := Executing(s.taken)]
            && s.fields.queue == [s.taken] + t.fields.queue
            && t.fields.active == s.fields.active + 1
  {
    Reachable(es);
    assert (es + [Take(w)])[..|es|] == es;
  }

  /** A busy worker can finish its item. */
  lemma FinishesItem(s: Sys, w: Worker) returns (es: seq<Event>)
    requires Inv(s) && Busy(s, w)
    ensures var t := Run(Step, s, es);
            && Inv(t) && t.pushed == s.pushed
            && t.fields.queue == s.fields.queue && t.fields.active + 1 == s.fields.active
            && t.workers == s.workers[w := Waiting]
    ensures OnlyWork(es)
  {
    assert w in BusyWorkers(s);
    var t := Step(s, Execute(w));
    StepKeeps(s, Execute(w));
    StepKeeps(t, CountDown(w));
    Two(Step, s, Execute(w), CountDown(w));
    es := [Execute(w), CountDown(w)];
  }

  predicate OnlyWork(es: seq<Event>) {
    forall e :: e in es ==> e.Take? || e.Execute? || e.CountDown?
  }

  /** No work is stranded: while one worker has not quit, the workers' own steps finish all that is queued. */
  lemma {:induction false} WorkFinishes(s: Sys, w: Worker) returns (es: seq<Event>)
    requires Inv(s) && w in s.workers && !s.workers[w].Quit?
    ensures OnlyWork(es)
    ensures Run(Step, s, es).pushed == s.pushed && forall i: nat :: i < s.pushed ==> i in Run(Step, s, es).finished
    decreases |s.fields.queue|, s.fields.active
  {
    es := [];
    if s.fields.active > 0 {
      var u :| u in BusyWorkers(s);
      es := FinishesItem(s, u);
    } else if s.fields.queue != [] {
      assert w !in BusyWorkers(s);
      es := [Take(w)];
      StepThenRun(Step, s, Take(w), []);
      StepKeeps(s, Take(w));
    } else {
      OneToOne(s);
      assert s.holder == map[];
      forall i: nat | i < s.pushed ensures i in s.finished {
        assert ItemOk(s, i);
      }
    }
    if es != [] {
      var rest := WorkFinishes(Run(Step, s, es), w);
      Split(Step, s, es, rest);
      es := es + rest;
    }
  }
}

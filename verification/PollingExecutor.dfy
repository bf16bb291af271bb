/** The polling executor's timers and queues, and the order in which timers fire over a whole run of
    its loop. */
module PollingExecutor {
  import opened Common
  import opened Runs

  /** A timer; serial tells apart timers set for the same coroutine and time. */
  datatype TimerEntry = TimerEntry(deadline: int, handle: Handle, serial: nat)

  /** The heap's top is some entry with the least deadline; which one among equals is not known. */
  predicate IsTop(heap: multiset<TimerEntry>, top: TimerEntry) {
    top in heap && forall e :: e in heap ==> top.deadline <= e.deadline
  }

  lemma {:induction false} TopExists(heap: multiset<TimerEntry>)
    requires heap != multiset{}
    ensures exists top :: IsTop(heap, top)
    decreases |heap|
  {
    var x :| x in heap;
    var rest := heap - multiset{x};
    if rest == multiset{} {
      assert heap == multiset{x};
      assert IsTop(heap, x);
    } else {
      TopExists(rest);
      var y :| IsTop(rest, y);
      assert heap == rest + multiset{x};
      assert IsTop(heap, if x.deadline <= y.deadline then x else y);
    }
  }

  ghost predicate ByDeadline(es: seq<TimerEntry>) {
    forall i, j :: 0 <= i < j < |es| ==> es[i].deadline <= es[j].deadline
  }

  /** popped, in this order, is what taking expired tops off the heap at time now gives: all entries
      that have expired but those whose coroutine is done, earliest deadline first. */
  ghost predicate Expires(heap: multiset<TimerEntry>, now: int, done: set<Handle>, popped: seq<TimerEntry>) {
    && ByDeadline(popped)
    && forall e :: multiset(popped)[e] == if e.deadline <= now && e.handle !in done then heap[e] else 0
  }

  /** gone is what has expired and is done. */
  ghost predicate Outlived(heap: multiset<TimerEntry>, now: int, done: set<Handle>, gone: multiset<TimerEntry>) {
    forall e :: gone[e] == if e.deadline <= now && e.handle in done then heap[e] else 0
  }

  /** left is what stays. */
  ghost predicate Unexpired(heap: multiset<TimerEntry>, now: int, left: multiset<TimerEntry>) {
    forall e :: left[e] == if e.deadline <= now then 0 else heap[e]
  }

  /** The fields under the lock. */
  datatype Fields = Fields(ready: seq<Handle>, callbacks: seq<Handle>, timers: multiset<TimerEntry>)

  const NOTHING := Fields([], [], multiset{})

  function OnSchedule(f: Fields, h: Handle): Fields {
    f.(ready := f.ready + [h])
  }

  function OnPost(f: Fields, callback: Handle): Fields {
    f.(callbacks := f.callbacks + [callback])
  }

  /** now is what the clock says. */
  function OnScheduleAfter(f: Fields, now: int, delay: int, h: Handle, serial: nat): Fields {
    f.(timers := f.timers + multiset{TimerEntry(now + delay, h, serial)})
  }

  /** The swap at the start of ProcessReadyQueue. */
  function OnTakeQueues(f: Fields): (Fields, seq<Handle>, seq<Handle>) {
    (f.(ready := [], callbacks := []), f.ready, f.callbacks)
  }

  class Executor {
    var readyQueue: seq<Handle>
    var callbackQueue: seq<Handle>
    var timerHeap: multiset<TimerEntry>

    ghost function State(): Fields
      reads this
    {
      Fields(readyQueue, callbackQueue, timerHeap)
    }

    constructor ()
      ensures State() == NOTHING
    {
      readyQueue, callbackQueue, timerHeap := [], [], multiset{};
    }

    method Schedule(h: Handle)
      modifies this
      ensures State() == OnSchedule(old(State()), h)
    {
      readyQueue := readyQueue + [h];
    }

    method Post(callback: Handle)
      modifies this
      ensures State() == OnPost(old(State()), callback)
    {
      callbackQueue := callbackQueue + [callback];
    }

    method ScheduleAfter(now: int, delay: int, h: Handle, serial: nat)
      modifies this
      ensures State() == OnScheduleAfter(old(State()), now, delay, h, serial)
    {
      timerHeap := timerHeap + multiset{TimerEntry(now + delay, h, serial)};
    }

    /** The handles are resumed and the callbacks called after unlocking, and what they add waits for
        the next round. */
    method TakeQueues() returns (ready: seq<Handle>, callbacks: seq<Handle>)
      modifies this
      ensures (State(), ready, callbacks) == OnTakeQueues(old(State()))
    {
      ready, readyQueue := readyQueue, [];
      callbacks, callbackQueue := callbackQueue, [];
    }

    /** Takes the expired entries; done are the handles that are done by now, and gone the entries that
        are dropped for it. */
    method TakeExpired(now: int, done: set<Handle>) returns (expired: seq<TimerEntry>, ghost gone: multiset<TimerEntry>)
      modifies this`timerHeap
      ensures Expires(old(timerHeap), now, done, expired)
      ensures Unexpired(old(timerHeap), now, timerHeap)
      ensures Outlived(old(timerHeap), now, done, gone)
    {
      expired := [];
      ghost var before := timerHeap;
      gone := multiset{};
      while timerHeap != multiset{}
        invariant PartlyTaken(before, now, done, timerHeap, expired, gone)
        decreases |timerHeap|
      {
        TopExists(timerHeap);
        var top :| top in timerHeap && IsTop(timerHeap, top);
        if top.deadline > now { break; }
        if top.handle !in done {
          TakeTopLive(before, now, done, timerHeap, expired, gone, top);
          expired := expired + [top];
        } else {
          TakeTopDone(before, now, done, timerHeap, expired, gone, top);
          gone := gone + multiset{top};
        }
        timerHeap := timerHeap - multiset{top};
      }
    }
  }

  /** The heap is split into what is left, what expired, in order, and what was done. */
  ghost predicate PartlyTaken(
    before: multiset<TimerEntry>, now: int, done: set<Handle>,
    left: multiset<TimerEntry>, expired: seq<TimerEntry>, dropped: multiset<TimerEntry>)
  {
    && before == left + multiset(expired) + dropped
    && ByDeadline(expired)
    && (forall e :: e in expired ==> e.deadline <= now && e.handle !in done)
    && (forall e, f :: e in expired && f in left ==> e.deadline <= f.deadline)
    && (forall e :: e in dropped ==> e.deadline <= now && e.handle in done)
  }

  lemma TakeTopDone(before: multiset<TimerEntry>, now: int, done: set<Handle>,
                    left: multiset<TimerEntry>, expired: seq<TimerEntry>, dropped: multiset<TimerEntry>,
                    top: TimerEntry)
    requires PartlyTaken(before, now, done, left, expired, dropped) && top in left && top.deadline <= now
    requires top.handle in done
    ensures PartlyTaken(before, now, done, left - multiset{top}, expired, dropped + multiset{top})
  {
  }

  lemma TakeTopLive(before: multiset<TimerEntry>, now: int, done: set<Handle>,
                    left: multiset<TimerEntry>, expired: seq<TimerEntry>, dropped: multiset<TimerEntry>,
                    top: TimerEntry)
    requires PartlyTaken(before, now, done, left, expired, dropped) && IsTop(left, top) && top.deadline <= now
    requires top.handle !in done
    ensures PartlyTaken(before, now, done, left - multiset{top}, expired + [top], dropped)
  {
    assert before == (left - multiset{top}) + multiset(expired + [top]) + dropped;
  }

  // ---------------------------------------------------------------------------
  // The machine: the loop thread, whose coroutines set timers; the clock only goes forward
  // ---------------------------------------------------------------------------

  /** A timer that was resumed, and when. */
  datatype Firing = Firing(entry: TimerEntry, at: int)

  /** What was put into a queue, what the loop holds of it, and what it has processed. */
  datatype Queue = Queue(added: seq<Handle>, taken: seq<Handle>, processed: seq<Handle>)

  /** The clock, the clock when ProcessTimers last read it, the fields, the entries taken and not yet
      resumed; and what no code reads but for what is taken: the next serial, the timers set, fired, and
      dropped because their coroutine was done, and the histories of both queues. */
  datatype Sys = Sys(
    clock: int, seen: int, fields: Fields, batch: seq<TimerEntry>, next: nat, added: multiset<TimerEntry>,
    fired: seq<Firing>, dropped: multiset<TimerEntry>, ready: Queue, callbacks: Queue)

  /** Begin carries what ProcessTimers may take: the handles that are done, the entries in an order
      the heap may give them, what stays, and what is dropped. */
  datatype Event =
    | Tick(amount: nat)
    | Schedule(h: Handle) | Post(callback: Handle) | ScheduleAfter(delay: nat, h: Handle)
    | Begin(done: set<Handle>, popped: seq<TimerEntry>, left: multiset<TimerEntry>, gone: multiset<TimerEntry>)
    | Fire
    | TakeQueues | Resume | Call

  ghost function Step(s: Sys, e: Event): Sys {
    match e
    case Tick(amount) => s.(clock := s.clock + amount)
    case Schedule(h) => s.(fields := OnSchedule(s.fields, h), ready := s.ready.(added := s.ready.added + [h]))
    case Post(c) => s.(fields := OnPost(s.fields, c), callbacks := s.callbacks.(added := s.callbacks.added + [c]))
    case ScheduleAfter(delay, h) =>
      s.(fields := OnScheduleAfter(s.fields, s.clock, delay, h, s.next), next := s.next + 1,
         added := s.added + multiset{TimerEntry(s.clock + delay, h, s.next)})
    case Begin(done, popped, left, gone) =>
      if Between(s) && Taking(s, done, popped, left, gone) then
        s.(seen := s.clock, fields := s.fields.(timers := left), batch := popped, dropped := s.dropped + gone)
      else s
    case Fire =>
      if s.batch != [] then s.(batch := s.batch[1..], fired := s.fired + [Firing(s.batch[0], s.clock)]) else s
    case TakeQueues =>
      if Between(s) then
        var (f, ready, callbacks) := OnTakeQueues(s.fields);
        s.(fields := f, ready := s.ready.(taken := ready), callbacks := s.callbacks.(taken := callbacks))
      else s
    case Resume => if s.ready.taken != [] then s.(ready := Processed(s.ready)) else s
    case Call => if s.ready.taken == [] && s.callbacks.taken != [] then s.(callbacks := Processed(s.callbacks)) else s
  }

  /** What ProcessTimers may do by the clock as it is. */
  ghost predicate Taking(
    s: Sys, done: set<Handle>, popped: seq<TimerEntry>, left: multiset<TimerEntry>, gone: multiset<TimerEntry>)
  {
    && Expires(s.fields.timers, s.clock, done, popped)
    && Unexpired(s.fields.timers, s.clock, left)
    && Outlived(s.fields.timers, s.clock, done, gone)
  }

  /** The loop has nothing in hand, so that it may take more. */
  predicate Between(s: Sys) {
    s.batch == [] && s.ready.taken == [] && s.callbacks.taken == []
  }

  /** The front one is dealt with; a handle that is done by then is passed over. */
  function Processed(q: Queue): Queue
    requires q.taken != []
  {
    q.(taken := q.taken[1..], processed := q.processed + [q.taken[0]])
  }

  ghost function Entries(fs: seq<Firing>): seq<TimerEntry> {
    seq(|fs|, i requires 0 <= i < |fs| => fs[i].entry)
  }

  /** Everything already taken is due by the last reading of the clock, everything waiting is not
      due before it, and what was taken is in order. */
  ghost predicate OrderInv(s: Sys) {
    && s.seen <= s.clock
    && ByDeadline(Taken(s))
    && (forall e :: e in Taken(s) ==> e.deadline <= s.seen)
    && (forall e :: e in s.fields.timers ==> e.deadline >= s.seen)
    && (forall f :: f in s.fired ==> f.entry.deadline <= f.at <= s.clock)
  }

  /** Every timer that was set waits, is about to be resumed, was resumed, or was dropped. */
  ghost predicate ConservedInv(s: Sys) {
    forall e :: Conserved(s, e)
  }

  ghost predicate Conserved(s: Sys, e: TimerEntry) {
    s.added[e] == s.fields.timers[e] + multiset(Taken(s))[e] + s.dropped[e]
  }

  /** Everything taken off the heap and not dropped, in the order taken. */
  ghost function Taken(s: Sys): seq<TimerEntry> {
    Entries(s.fired) + s.batch
  }

  /** Serials are used once. */
  ghost predicate OnceInv(s: Sys) {
    forall e :: s.added[e] <= (if e.serial < s.next then 1 else 0)
  }

  lemma BeginKeepsOrder(s: Sys, e: Event)
    requires OrderInv(s) && e.Begin?
    ensures OrderInv(Step(s, e))
  {
    var Begin(done, popped, left, gone) := e;
    if Between(s) && Taking(s, done, popped, left, gone) {
      assert Taken(s) == Entries(s.fired);
      forall e | e in popped ensures s.seen <= e.deadline <= s.clock {
        assert e in multiset(popped);
      }
      assert forall e :: e in left ==> left[e] > 0 && e.deadline > s.clock;
    }
  }

  lemma StepKeepsOrder(s: Sys, e: Event)
    requires OrderInv(s) && !e.Begin?
    ensures OrderInv(Step(s, e))
  {
    if e.Fire? && s.batch != [] {
      FireMoves(s);
      assert s.batch[0] in Taken(s);
    }
  }

  lemma BeginConserves(s: Sys, event: Event, e: TimerEntry)
    requires Conserved(s, e) && event.Begin?
    ensures Conserved(Step(s, event), e)
  {
    if Between(s) && Taking(s, event.done, event.popped, event.left, event.gone) {
      assert Taken(s) == Entries(s.fired) && Taken(Step(s, event)) == Entries(s.fired) + event.popped;
    }
  }

  lemma FireMoves(s: Sys)
    requires s.batch != []
    ensures Taken(Step(s, Fire)) == Taken(s)
  {
  }

  lemma SettingConserves(s: Sys, delay: nat, h: Handle, e: TimerEntry)
    requires Conserved(s, e)
    ensures Conserved(Step(s, ScheduleAfter(delay, h)), e)
  {
    assert Taken(Step(s, ScheduleAfter(delay, h))) == Taken(s);
  }

  /** Whatever leaves the timers alone. */
  lemma OthersConserve(s: Sys, t: Sys, e: TimerEntry)
    requires Conserved(s, e) && t.added == s.added && t.fields.timers == s.fields.timers
    requires t.fired == s.fired && t.batch == s.batch && t.dropped == s.dropped
    ensures Conserved(t, e)
  {
  }

  lemma StepConserves(s: Sys, event: Event, e: TimerEntry)
    requires Conserved(s, e)
    ensures Conserved(Step(s, event), e)
  {
    match event
    case Begin(_, _, _, _) => BeginConserves(s, event, e);
    case Fire => if s.batch != [] { FireMoves(s); }
    case ScheduleAfter(delay, h) => SettingConserves(s, delay, h, e);
    case _ => OthersConserve(s, Step(s, event), e);
  }

  lemma StepKeepsOnce(s: Sys, e: Event)
    requires OnceInv(s)
    ensures OnceInv(Step(s, e))
  {
  }

  function Begun(start: int): Sys {
    Sys(start, start, NOTHING, [], 0, multiset{}, [], multiset{}, Queue([], [], []), Queue([], [], []))
  }

  ghost function After(start: int, es: seq<Event>): Sys {
    Run(Step, Begun(start), es)
  }

  /** Nothing put into the queues is lost, repeated or overtaken. */
  ghost predicate QueuesInv(s: Sys) {
    && s.ready.processed + s.ready.taken + s.fields.ready == s.ready.added
    && s.callbacks.processed + s.callbacks.taken + s.fields.callbacks == s.callbacks.added
  }

  lemma StepKeepsQueues(s: Sys, e: Event)
    requires QueuesInv(s)
    ensures QueuesInv(Step(s, e))
  {
  }

  ghost predicate Inv(s: Sys) {
    OrderInv(s) && ConservedInv(s) && OnceInv(s) && QueuesInv(s)
  }

  lemma Reachable(start: int, es: seq<Event>)
    ensures Inv(After(start, es))
  {
    forall s: Sys, e: Event | Inv(s) ensures Inv(Step(s, e)) {
      if e.Begin? {
        BeginKeepsOrder(s, e);
      } else {
        StepKeepsOrder(s, e);
      }
      forall x { StepConserves(s, e, x); }
      StepKeepsOnce(s, e);
      StepKeepsQueues(s, e);
    }
    Invariant(Step, s => Inv(s), Begun(start), es);
  }

  lemma TwiceInSeq(all: seq<TimerEntry>, i: nat, j: nat)
    requires i < j < |all| && all[i] == all[j]
    ensures multiset(all)[all[i]] >= 2
  {
    assert all == all[..j] + all[j..];
    assert all[i] in all[..j] && all[j] in all[j..];
    assert multiset(all) == multiset(all[..j]) + multiset(all[j..]);
  }

  /** Over a whole run, whatever coroutines do when they are resumed: no timer fires before its
      deadline, each fires at most once, and timers fire in the order of their deadlines. */
  lemma TimersFireInOrder(start: int, es: seq<Event>, i: nat, j: nat)
    requires i <= j < |After(start, es).fired|
    ensures var fired := After(start, es).fired;
            && fired[i].entry.deadline <= fired[i].at
            && fired[i].entry.deadline <= fired[j].entry.deadline
            && (i < j ==> fired[i].entry != fired[j].entry)
  {
    Reachable(start, es);
    FiredInOrder(After(start, es), i, j);
    if i < j {
      FiredOnce(After(start, es), i, j);
    }
  }

  lemma FiredInOrder(s: Sys, i: nat, j: nat)
    requires OrderInv(s) && i <= j < |s.fired|
    ensures s.fired[i].entry.deadline <= s.fired[i].at && s.fired[i].entry.deadline <= s.fired[j].entry.deadline
  {
    var all := Taken(s);
    assert all[i] == s.fired[i].entry && all[j] == s.fired[j].entry;
    assert s.fired[i] in s.fired;
  }

  lemma FiredOnce(s: Sys, i: nat, j: nat)
    requires ConservedInv(s) && OnceInv(s) && i < j < |s.fired|
    ensures s.fired[i].entry != s.fired[j].entry
  {
    var all := Taken(s);
    assert all[i] == s.fired[i].entry && all[j] == s.fired[j].entry;
    assert Conserved(s, all[i]) && s.added[all[i]] <= 1;
    if all[i] == all[j] {
      TwiceInSeq(all, i, j);
    }
  }

  /** No timer is lost: each that was set waits in the heap, is about to be resumed, was resumed, or was
      dropped because its coroutine was done when it expired; and it is in one of these places. */
  lemma TimersAreConserved(start: int, es: seq<Event>, e: TimerEntry)
    ensures var s := After(start, es);
            && s.added[e] == s.fields.timers[e] + multiset(s.batch)[e] + multiset(Entries(s.fired))[e] + s.dropped[e]
            && s.added[e] <= 1
  {
    Reachable(start, es);
    var s := After(start, es);
    assert Conserved(s, e);
    assert multiset(Taken(s)) == multiset(Entries(s.fired)) + multiset(s.batch);
  }

  /** What a step drops has expired, and its coroutine is done. */
  lemma OnlyTheDoneAreDropped(s: Sys, event: Event, e: TimerEntry)
    ensures Step(s, event).dropped[e] > s.dropped[e] ==> event.Begin? && e.deadline <= s.clock && e.handle in event.done
  {
  }

  /** Scheduled coroutines and posted callbacks are processed once each, in the order they came,
      whatever the processed ones schedule or post. */
  lemma QueuesInOrder(start: int, es: seq<Event>)
    ensures var s := After(start, es);
            && s.ready.processed + s.ready.taken + s.fields.ready == s.ready.added
            && s.callbacks.processed + s.callbacks.taken + s.fields.callbacks == s.callbacks.added
  {
    Reachable(start, es);
  }

  /** What the loop has processed or holds. */
  ghost function InHand(q: Queue): seq<Handle> {
    q.processed + q.taken
  }

  lemma InHandStep(s: Sys, e: Event)
    ensures InHand(s.ready) <= InHand(Step(s, e).ready) && InHand(s.callbacks) <= InHand(Step(s, e).callbacks)
  {
    if e.Resume? && s.ready.taken != [] {
      assert InHand(Processed(s.ready)) == InHand(s.ready);
    } else if e.Call? && s.callbacks.taken != [] {
      assert InHand(Processed(s.callbacks)) == InHand(s.callbacks);
    }
  }

  lemma {:induction false} InHandGrows(s: Sys, es: seq<Event>, t: Sys)
    requires t == Run(Step, s, es)
    ensures InHand(s.ready) <= InHand(t.ready) && InHand(s.callbacks) <= InHand(t.callbacks)
  {
    if es != [] {
      var n := |es| - 1;
      InHandGrows(s, es[..n], Run(Step, s, es[..n]));
      InHandStep(Run(Step, s, es[..n]), es[n]);
    }
  }

  lemma TakesAll(s: Sys)
    requires QueuesInv(s) && Between(s)
    ensures var t := Step(s, TakeQueues);
            && InHand(t.ready) == t.ready.added == s.ready.added && t.fields.ready == []
            && InHand(t.callbacks) == t.callbacks.added == s.callbacks.added && t.fields.callbacks == []
  {
    assert s.ready.taken == [] && s.callbacks.taken == [];
    assert s.ready.processed + [] == s.ready.processed && s.callbacks.processed + [] == s.callbacks.processed;
  }

  lemma NothingInHand(q: Queue)
    requires q.taken == []
    ensures InHand(q) == q.processed
  {
  }

  /** A round of the loop processes all that was scheduled and posted before it began, in the order it
      came, whatever is added while it lasts. */
  lemma RoundProcessesAll(start: int, es: seq<Event>, fs: seq<Event>)
    requires Between(After(start, es)) && Between(After(start, es + [TakeQueues] + fs))
    ensures var s := After(start, es);
            var t := After(start, es + [TakeQueues] + fs);
            s.ready.added <= t.ready.processed && s.callbacks.added <= t.callbacks.processed
  {
    Reachable(start, es);
    TakesAll(After(start, es));
    assert (es + [TakeQueues])[..|es|] == es;
    Split(Step, Begun(start), es + [TakeQueues], fs);
    var t := After(start, es + [TakeQueues] + fs);
    InHandGrows(After(start, es + [TakeQueues]), fs, t);
    NothingInHand(t.ready);
    NothingInHand(t.callbacks);
  }

  /** The loop's own step with what it has in hand. */
  function HandEvent(s: Sys): Event {
    if s.batch != [] then Fire else if s.ready.taken != [] then Resume else Call
  }

  /** The loop can always go on to the end of its round. */
  lemma {:induction false} RoundEnds(s: Sys) returns (fs: seq<Event>)
    ensures Between(Run(Step, s, fs)) && Run(Step, s, fs).fields == s.fields && Taken(Run(Step, s, fs)) == Taken(s)
    ensures Run(Step, s, fs).clock == s.clock
    ensures Run(Step, s, fs).dropped == s.dropped && Run(Step, s, fs).added == s.added
    ensures forall e :: e in fs ==> e.Fire? || e.Resume? || e.Call?
    decreases |s.batch| + |s.ready.taken| + |s.callbacks.taken|
  {
    if Between(s) {
      fs := [];
    } else {
      var e := HandEvent(s);
      if e.Fire? {
        FireMoves(s);
      }
      var rest := RoundEnds(Step(s, e));
      StepThenRun(Step, s, e, rest);
      fs := [e] + rest;
    }
  }

  predicate LoopsOwn(es: seq<Event>) {
    forall e :: e in es ==> e.Fire? || e.TakeQueues? || e.Resume? || e.Call?
  }

  lemma {:induction false} NothingAdded(s: Sys, es: seq<Event>)
    requires LoopsOwn(es)
    ensures Run(Step, s, es).ready.added == s.ready.added && Run(Step, s, es).callbacks.added == s.callbacks.added
  {
    if es != [] {
      var n := |es| - 1;
      assert LoopsOwn(es[..n]) && es[n] in es;
      NothingAdded(s, es[..n]);
    }
  }

  /** A round from where the loop has nothing in hand. */
  lemma FullRound(s: Sys) returns (fs: seq<Event>)
    requires QueuesInv(s) && Between(s)
    ensures var t := Run(Step, s, fs);
            && LoopsOwn(fs) && Between(t) && t.fields.ready == [] && t.fields.callbacks == []
  {
    TakesAll(s);
    var rest := RoundEnds(Step(s, TakeQueues));
    StepThenRun(Step, s, TakeQueues, rest);
    fs := [TakeQueues] + rest;
  }

  lemma AllProcessed(s: Sys)
    requires QueuesInv(s) && Between(s) && s.fields.ready == [] && s.fields.callbacks == []
    ensures s.ready.processed == s.ready.added && s.callbacks.processed == s.callbacks.added
  {
  }

  lemma {:induction false} KeepsQueues(s: Sys, es: seq<Event>)
    requires QueuesInv(s)
    ensures QueuesInv(Run(Step, s, es))
  {
    if es != [] {
      KeepsQueues(s, es[..|es| - 1]);
      StepKeepsQueues(Run(Step, s, es[..|es| - 1]), es[|es| - 1]);
    }
  }

  lemma LoopFinishesFrom(s: Sys) returns (fs: seq<Event>)
    requires QueuesInv(s)
    ensures LoopsOwn(fs)
    ensures var t := Run(Step, s, fs);
            Between(t) && t.ready.processed == s.ready.added && t.callbacks.processed == s.callbacks.added
  {
    var first := RoundEnds(s);
    var mid := Run(Step, s, first);
    KeepsQueues(s, first);
    var second := FullRound(mid);
    Split(Step, s, first, second);
    fs := first + second;
    NothingAdded(s, fs);
    KeepsQueues(s, fs);
    AllProcessed(Run(Step, s, fs));
  }

  /** Nothing is stranded: the loop's own steps process all that was scheduled and posted. */
  lemma LoopFinishes(start: int, es: seq<Event>) returns (fs: seq<Event>)
    ensures LoopsOwn(fs)
    ensures var s := After(start, es);
            var t := After(start, es + fs);
            Between(t) && t.ready.processed == s.ready.added && t.callbacks.processed == s.callbacks.added
  {
    Reachable(start, es);
    fs := LoopFinishesFrom(After(start, es));
    Split(Step, Begun(start), es, fs);
  }

  /** Whatever the heap holds and whichever handles are done, ProcessTimers can take what it must. */
  lemma {:induction false} CanTake(
    before: multiset<TimerEntry>, now: int, done: set<Handle>,
    left: multiset<TimerEntry>, expired: seq<TimerEntry>, dropped: multiset<TimerEntry>)
    returns (popped: seq<TimerEntry>, stay: multiset<TimerEntry>, gone: multiset<TimerEntry>)
    requires PartlyTaken(before, now, done, left, expired, dropped)
    ensures Expires(before, now, done, popped) && Unexpired(before, now, stay) && Outlived(before, now, done, gone)
    decreases |left|
  {
    popped, stay, gone := expired, left, dropped;
    if left != multiset{} {
      TopExists(left);
      var top :| IsTop(left, top);
      if top.deadline <= now {
        if top.handle in done {
          TakeTopDone(before, now, done, left, expired, dropped, top);
          popped, stay, gone := CanTake(before, now, done, left - multiset{top}, expired, dropped + multiset{top});
        } else {
          TakeTopLive(before, now, done, left, expired, dropped, top);
          popped, stay, gone := CanTake(before, now, done, left - multiset{top}, expired + [top], dropped);
        }
      }
    }
  }

  /** What is due when the loop takes timers is not left waiting, and only the done are dropped. */
  lemma BeginTakesTheDue(
    s: Sys, done: set<Handle>, popped: seq<TimerEntry>, left: multiset<TimerEntry>, gone: multiset<TimerEntry>,
    e: TimerEntry)
    requires Between(s) && Taking(s, done, popped, left, gone) && Conserved(s, e)
    requires s.added[e] > 0 && e.deadline <= s.clock
    ensures var t := Step(s, Begin(done, popped, left, gone));
            e in Taken(t) || (t.dropped[e] > 0 && (s.dropped[e] > 0 || e.handle in done))
  {
    BeginConserves(s, Begin(done, popped, left, gone), e);
    var t := Step(s, Begin(done, popped, left, gone));
    assert t.fields.timers[e] == 0;
    assert e in multiset(Taken(t)) || t.dropped[e] > 0;
  }

  /** Every timer set by s and due then was taken by t, or its coroutine was found done. */
  ghost predicate DueTaken(s: Sys, t: Sys, done: set<Handle>) {
    forall e :: s.added[e] > 0 && e.deadline <= s.clock ==>
      e in Taken(t) || (t.dropped[e] > 0 && (s.dropped[e] > 0 || e.handle in done))
  }

  lemma TimerRound(s: Sys, done: set<Handle>) returns (fs: seq<Event>)
    requires Between(s) && ConservedInv(s)
    ensures OnlyTimers(fs)
    ensures var t := Run(Step, s, fs); Between(t) && t.clock == s.clock && DueTaken(s, t, done)
  {
    var popped, left, gone := CanTake(s.fields.timers, s.clock, done, s.fields.timers, [], multiset{});
    var begin := Begin(done, popped, left, gone);
    forall e | s.added[e] > 0 && e.deadline <= s.clock
      ensures e in Taken(Step(s, begin)) || (Step(s, begin).dropped[e] > 0 && (s.dropped[e] > 0 || e.handle in done))
    {
      assert Conserved(s, e);
      BeginTakesTheDue(s, done, popped, left, gone, e);
    }
    var rest := RoundEnds(Step(s, begin));
    StepThenRun(Step, s, begin, rest);
    fs := [begin] + rest;
  }

  ghost predicate DueFired(s: Sys, t: Sys, done: set<Handle>) {
    forall e :: s.added[e] > 0 && e.deadline <= s.clock ==>
      e in Entries(t.fired) || (t.dropped[e] > 0 && (s.dropped[e] > 0 || e.handle in done))
  }

  lemma TakenIsFired(s: Sys, mid: Sys, t: Sys, done: set<Handle>)
    requires mid.added == s.added && mid.clock == s.clock && mid.dropped == s.dropped
    requires DueTaken(mid, t, done) && t.batch == []
    ensures DueFired(s, t, done)
  {
    assert Taken(t) == Entries(t.fired);
  }

  predicate OnlyTimers(es: seq<Event>) {
    forall e :: e in es ==> e.Begin? || e.Fire? || e.Resume? || e.Call?
  }

  lemma DueTimersFireFrom(s: Sys, done: set<Handle>) returns (fs: seq<Event>)
    requires ConservedInv(s)
    ensures OnlyTimers(fs) && Run(Step, s, fs).clock == s.clock && DueFired(s, Run(Step, s, fs), done)
  {
    var first := RoundEnds(s);
    var mid := Run(Step, s, first);
    forall e ensures Conserved(mid, e) {
      assert Conserved(s, e);
    }
    var second := TimerRound(mid, done);
    Split(Step, s, first, second);
    fs := first + second;
    TakenIsFired(s, mid, Run(Step, mid, second), done);
  }

  /** No timer that is due is stranded: the loop's own steps fire it, unless its coroutine is done. */
  lemma DueTimersFire(start: int, es: seq<Event>, done: set<Handle>) returns (fs: seq<Event>)
    ensures OnlyTimers(fs)
    ensures After(start, es + fs).clock == After(start, es).clock
    ensures DueFired(After(start, es), After(start, es + fs), done)
  {
    Reachable(start, es);
    fs := DueTimersFireFrom(After(start, es), done);
    Split(Step, Begun(start), es, fs);
  }
}

/** Every interleaving of any number of sends, receives and closes on one channel, refined to a
    plain bounded FIFO queue. */
module ChannelRuns {
  import opened Common
  import opened Runs
  import opened Histories
  import opened Channel

  // ---------------------------------------------------------------------------
  // The reference: a bounded FIFO queue that can be closed, as the set of its legal histories.
  // ---------------------------------------------------------------------------

  /** A value stamped with the send that carries it. */
  datatype Msg<+T> = Msg(sender: Handle, value: T)

  datatype Label<+T> =
    | Put(msg: Msg<T>)
    | Take(receiver: Handle, msg: Msg<T>)
    | NoMore(receiver: Handle)
    | Reject(sender: Handle)
    | Closed

  datatype Fifo<+T> = Fifo(queue: seq<Msg<T>>, closed: bool)

  ghost function Apply<T>(capacity: nat, f: Fifo<T>, l: Label<T>): Option<Fifo<T>> {
    match l
    case Put(m) => if !f.closed && |f.queue| < capacity then Some(f.(queue := f.queue + [m])) else None
    case Take(_, m) => if f.queue != [] && f.queue[0] == m then Some(f.(queue := f.queue[1..])) else None
    case NoMore(_) => if f.closed && f.queue == [] then Some(f) else None
    case Reject(_) => if f.closed then Some(f) else None
    case Closed => if !f.closed then Some(f.(closed := true)) else None
  }

  type Trace<+T> = History<Label<T>>

  /** The queue after a history, or None when the history is not a legal one. */
  ghost function Replay<T>(capacity: nat, tr: Trace<T>): Option<Fifo<T>> {
    match tr
    case Start => Some(Fifo([], false))
    case Then(before, l) =>
      match Replay(capacity, before)
      case None => None
      case Some(f) => Apply(capacity, f, l)
  }

  ghost function Puts<T>(tr: Trace<T>): seq<Msg<T>> {
    match tr
    case Start => []
    case Then(before, Put(m)) => Puts(before) + [m]
    case Then(before, _) => Puts(before)
  }

  ghost function Takes<T>(tr: Trace<T>): seq<Msg<T>> {
    match tr
    case Start => []
    case Then(before, Take(_, m)) => Takes(before) + [m]
    case Then(before, _) => Takes(before)
  }

  /** In a legal history what went in is what came out, in order, followed by what is queued. */
  lemma {:induction false} LegalHistoriesAreFifo<T>(capacity: nat, tr: Trace<T>)
    requires Replay(capacity, tr).Some?
    ensures Puts(tr) == Takes(tr) + Replay(capacity, tr).value.queue
    ensures |Replay(capacity, tr).value.queue| <= capacity
  {
    if tr.Then? {
      LegalHistoriesAreFifo(capacity, tr.before);
    }
  }

  ghost predicate About<T>(l: Label<T>, h: Handle) {
    match l
    case Put(m) => m.sender == h
    case Take(r, _) => r == h
    case NoMore(r) => r == h
    case Reject(w) => w == h
    case Closed => false
  }

  /** The part of a history that is about one operation. */
  ghost function Labels<T>(tr: Trace<T>, h: Handle): seq<Label<T>> {
    match tr
    case Start => []
    case Then(before, l) => Labels(before, h) + (if About(l, h) then [l] else [])
  }

  // ---------------------------------------------------------------------------
  // The machine: one step is one locked block, or the resumption of one coroutine.
  // ---------------------------------------------------------------------------

  /** Where an await stands: await_ready not run yet; await_ready said no; queued; taken off its
      queue but not resumed yet; not suspended at all and about to continue; returned. */
  datatype Phase = Calling | Retrying | Parked | Woken | Ready | Finished

  datatype SendOp<+T> = SendOp(value: T, phase: Phase, sent: bool, failed: bool, returned: Option<bool>)

  datatype RecvOp<+T> = RecvOp(phase: Phase, slot: Option<Msg<T>>, returned: Option<Option<Msg<T>>>)

  /** The channel, the awaitables, and histories that no code reads: the trace of the reference
      queue, the messages in admission order, the waiters Close dropped, and the coroutines suspended,
      handed back by a locked block to be resumed, and resumed, in the order in which that happened. */
  datatype Sys<+T> = Sys(
    core: Core<Msg<T>>, sends: map<Handle, SendOp<T>>, recvs: map<Handle, RecvOp<T>>,
    trace: Trace<T>, admitted: seq<Msg<T>>, dropped: seq<Msg<T>>,
    suspended: seq<Handle>, woken: seq<Handle>, resumed: seq<Handle>)

  datatype Event<+T> =
    | NewSend(h: Handle, value: T)
    | NewReceive(h: Handle)
    | AwaitReady(h: Handle)
    | AwaitSuspend(h: Handle)
    | CloseCall
    | Resume(h: Handle)

  function Init<T>(capacity: nat): Sys<T> {
    Sys(Core(capacity, [], false, [], []), map[], map[], Start, [], [], [], [], [])
  }

  function Step<T>(s: Sys<T>, e: Event<T>): Sys<T> {
    match e
    case NewSend(h, v) =>
      if h in s.sends || h in s.recvs then s
      else s.(sends := s.sends[h := SendOp(v, Calling, false, false, None)])
    case NewReceive(h) =>
      if h in s.sends || h in s.recvs then s
      else s.(recvs := s.recvs[h := RecvOp(Calling, None, None)])
    case AwaitReady(h) =>
      if h in s.sends && s.sends[h].phase.Calling? then SendStep(s, h, false)
      else if h in s.recvs && s.recvs[h].phase.Calling? then ReceiveStep(s, h, false)
      else s
    case AwaitSuspend(h) =>
      if h in s.sends && s.sends[h].phase.Retrying? then SendStep(s, h, true)
      else if h in s.recvs && s.recvs[h].phase.Retrying? then ReceiveStep(s, h, true)
      else s
    case CloseCall => CloseStep(s)
    case Resume(h) => ResumeStep(s, h)
  }

  function SendStep<T>(s: Sys<T>, h: Handle, suspend: bool): Sys<T>
    requires h in s.sends
  {
    var op := s.sends[h];
    var m := Msg(h, op.value);
    var (c, r) := if suspend then OnSendSuspend(s.core, h, m) else OnSendReady(s.core, m);
    match r
    case Failed =>
      s.(core := c, sends := s.sends[h := op.(phase := Ready, failed := true)], trace := Then(s.trace, Reject(h)))
    case HandedTo(w) =>
      s.(core := c, sends := s.sends[h := op.(phase := Ready, sent := true)],
         recvs := if w in s.recvs then s.recvs[w := s.recvs[w].(phase := Woken, slot := Some(m))] else s.recvs,
         trace := Then(Then(s.trace, Put(m)), Take(w, m)), admitted := s.admitted + [m], woken := s.woken + [w])
    case Buffered =>
      s.(core := c, sends := s.sends[h := op.(phase := Ready, sent := true)],
         trace := Then(s.trace, Put(m)), admitted := s.admitted + [m])
    case Full =>
      if suspend then
        s.(core := c, sends := s.sends[h := op.(phase := Parked)],
           admitted := s.admitted + [m], suspended := s.suspended + [h])
      else
        s.(core := c, sends := s.sends[h := op.(phase := Retrying)])
  }

  function ReceiveStep<T>(s: Sys<T>, h: Handle, suspend: bool): Sys<T>
    requires h in s.recvs
  {
    var op := s.recvs[h];
    var (c, r) := if suspend then OnReceiveSuspend(s.core, h) else OnReceiveReady(s.core);
    match r
    case Took(m, None) =>
      s.(core := c, recvs := s.recvs[h := op.(phase := Ready, slot := Some(m))], trace := Then(s.trace, Take(h, m)))
    case Took(m, Some(w)) =>
      s.(core := c, recvs := s.recvs[h := op.(phase := Ready, slot := Some(m))],
         sends := if w in s.sends then s.sends[w := s.sends[w].(phase := Woken, sent := true)] else s.sends,
         trace := Then(Then(s.trace, Take(h, m)), Put(c.buffer[|c.buffer| - 1])), woken := s.woken + [w])
    case EndOfStream =>
      s.(core := c, recvs := s.recvs[h := op.(phase := Ready)], trace := Then(s.trace, NoMore(h)))
    case Empty =>
      if suspend then
        s.(core := c, recvs := s.recvs[h := op.(phase := Parked)], suspended := s.suspended + [h])
      else
        s.(core := c, recvs := s.recvs[h := op.(phase := Retrying)])
  }

  /** End of stream for some receivers, then rejection of some senders. */
  function ThenDismissed<T>(tr: Trace<T>, receivers: seq<Handle>, senders: seq<Handle>): Trace<T>
    decreases |receivers| + |senders|
  {
    if senders != [] then
      Then(ThenDismissed(tr, receivers, senders[..|senders| - 1]), Reject(senders[|senders| - 1]))
    else if receivers != [] then
      Then(ThenDismissed(tr, receivers[..|receivers| - 1], []), NoMore(receivers[|receivers| - 1]))
    else tr
  }

  function CloseStep<T>(s: Sys<T>): Sys<T> {
    if s.core.closed then s
    else
      var (c, woken) := OnClose(s.core);
      s.(core := c,
         sends := map h | h in s.sends :: if h in woken then s.sends[h].(phase := Woken) else s.sends[h],
         recvs := map h | h in s.recvs :: if h in woken then s.recvs[h].(phase := Woken) else s.recvs[h],
         trace := ThenDismissed(Then(s.trace, Closed), s.core.receivers, SenderHandles(s.core.senders)),
         dropped := SenderValues(s.core.senders), woken := s.woken + woken)
  }

  function ResumeStep<T>(s: Sys<T>, h: Handle): Sys<T> {
    if h in s.sends && (s.sends[h].phase.Woken? || s.sends[h].phase.Ready?) then
      var op := s.sends[h];
      s.(sends := s.sends[h := op.(phase := Finished, returned := Some(SendAnswer(op.sent, op.failed)))],
         resumed := if op.phase.Woken? then s.resumed + [h] else s.resumed)
    else if h in s.recvs && (s.recvs[h].phase.Woken? || s.recvs[h].phase.Ready?) then
      var op := s.recvs[h];
      s.(recvs := s.recvs[h := op.(phase := Finished, returned := Some(ReceiveAnswer(op.slot)))],
         resumed := if op.phase.Woken? then s.resumed + [h] else s.resumed)
    else s
  }

  // ---------------------------------------------------------------------------
  // The invariant
  // ---------------------------------------------------------------------------

  /** Waiters of one kind only, and only where they cannot be served. */
  ghost predicate CoreInv<T>(c: Core<T>) {
    && c.capacity >= 1
    && |c.buffer| <= c.capacity
    && (c.receivers != [] ==> !c.closed && c.buffer == [] && c.senders == [])
    && (c.senders != [] ==> !c.closed && |c.buffer| == c.capacity)
  }

  /** Each parked operation is in exactly one list, once, and the lists hold nothing else. */
  ghost predicate ListsInv<T>(s: Sys<T>) {
    && s.sends.Keys !! s.recvs.Keys
    && NoDup(s.core.receivers)
    && NoDup(SenderHandles(s.core.senders))
    && (forall h :: h in s.core.receivers <==> h in s.recvs && s.recvs[h].phase.Parked?)
    && (forall h :: h in SenderHandles(s.core.senders) <==> h in s.sends && s.sends[h].phase.Parked?)
    && (forall w :: w in s.core.senders ==> w.handle in s.sends && w.value == Msg(w.handle, s.sends[w.handle].value))
  }

  predicate Undecided(p: Phase) {
    p.Calling? || p.Retrying? || p.Parked?
  }

  ghost predicate SendOk<T>(h: Handle, op: SendOp<T>, ls: seq<Label<T>>) {
    && ls == (if Undecided(op.phase) then [] else if op.sent then [Put(Msg(h, op.value))] else [Reject(h)])
    && (Undecided(op.phase) ==> !op.sent && !op.failed)
    && !(op.sent && op.failed)
    && op.returned == (if op.phase.Finished? then Some(op.sent) else None)
  }

  ghost predicate RecvOk<T>(h: Handle, op: RecvOp<T>, ls: seq<Label<T>>) {
    && ls == (if Undecided(op.phase) then []
              else match op.slot case Some(m) => [Take(h, m)] case None => [NoMore(h)])
    && (Undecided(op.phase) ==> op.slot == None)
    && op.returned == (if op.phase.Finished? then Some(op.slot) else None)
  }

  /** An operation's flags and slot say what the history says about it. */
  ghost predicate OpOk<T>(s: Sys<T>, h: Handle) {
    var ls := Labels(s.trace, h);
    if h in s.sends then SendOk(h, s.sends[h], ls) && h !in s.recvs
    else if h in s.recvs then RecvOk(h, s.recvs[h], ls)
    else ls == []
  }

  ghost predicate OpsInv<T>(s: Sys<T>) {
    forall h :: OpOk(s, h)
  }

  ghost predicate HistoryInv<T>(s: Sys<T>) {
    && Replay(s.core.capacity, s.trace) == Some(Fifo(s.core.buffer, s.core.closed))
    && s.admitted == Puts(s.trace) + SenderValues(s.core.senders) + s.dropped
    && (!s.core.closed ==> s.dropped == [])
  }

  function PhaseOf<T>(s: Sys<T>, h: Handle): Option<Phase> {
    if h in s.sends then Some(s.sends[h].phase) else if h in s.recvs then Some(s.recvs[h].phase) else None
  }

  ghost predicate WakesInv<T>(s: Sys<T>) {
    && NoDup(s.suspended) && NoDup(s.resumed)
    && (forall h :: h in s.resumed ==> h in s.suspended && PhaseOf(s, h) == Some(Finished))
    && (forall h :: h in s.suspended ==> h in s.resumed || PhaseOf(s, h) in {Some(Parked), Some(Woken)})
    && (forall h :: PhaseOf(s, h) in {Some(Parked), Some(Woken)} ==> h in s.suspended)
  }

  /** Those handed back, and then those waiting, are those suspended, in the order of suspension. */
  ghost predicate LineInv<T>(s: Sys<T>) {
    s.suspended == s.woken + s.core.receivers + SenderHandles(s.core.senders)
  }

  ghost predicate Inv<T>(s: Sys<T>) {
    CoreInv(s.core) && ListsInv(s) && OpsInv(s) && HistoryInv(s) && WakesInv(s) && LineInv(s)
  }

  // ---------------------------------------------------------------------------
  // Every step keeps it
  // ---------------------------------------------------------------------------

  lemma InitInv<T>(capacity: nat)
    requires capacity >= 1
    ensures Inv(Init<T>(capacity))
  {
  }

  lemma WaiterLists<T>(ws: seq<SenderWaiter<T>>, w: SenderWaiter<T>)
    ensures SenderHandles(ws + [w]) == SenderHandles(ws) + [w.handle]
    ensures SenderValues(ws + [w]) == SenderValues(ws) + [w.value]
    ensures ws != [] ==> SenderHandles(ws[1..]) == SenderHandles(ws)[1..]
    ensures ws != [] ==> SenderValues(ws) == [ws[0].value] + SenderValues(ws[1..])
    ensures forall x :: x in ws ==> x.handle in SenderHandles(ws)
  {
    forall x | x in ws ensures x.handle in SenderHandles(ws) {
      var i :| 0 <= i < |ws| && ws[i] == x;
      assert SenderHandles(ws)[i] == x.handle;
    }
  }

  lemma SendKeepsLists<T>(s: Sys<T>, h: Handle, suspend: bool)
    requires CoreInv(s.core) && ListsInv(s) && h in s.sends
    requires s.sends[h].phase == (if suspend then Retrying else Calling)
    ensures var t := SendStep(s, h, suspend); CoreInv(t.core) && ListsInv(t)
  {
    var m := Msg(h, s.sends[h].value);
    WaiterLists(s.core.senders, SenderWaiter(h, m));
  }

  lemma SendKeepsOp<T>(s: Sys<T>, h: Handle, suspend: bool, k: Handle)
    requires CoreInv(s.core) && ListsInv(s) && OpsInv(s) && h in s.sends
    requires s.sends[h].phase == (if suspend then Retrying else Calling)
    ensures OpOk(SendStep(s, h, suspend), k)
  {
    assert OpOk(s, k) && OpOk(s, h);
    if !s.core.closed && s.core.receivers != [] {
      var w := s.core.receivers[0];
      assert w in s.recvs && s.recvs[w].phase.Parked?;
    }
  }

  lemma SendKeepsHistory<T>(s: Sys<T>, h: Handle, suspend: bool)
    requires CoreInv(s.core) && HistoryInv(s) && h in s.sends
    ensures HistoryInv(SendStep(s, h, suspend))
  {
    var m := Msg(h, s.sends[h].value);
    WaiterLists(s.core.senders, SenderWaiter(h, m));
    if s.core.receivers != [] {
      assert (s.core.buffer + [m])[1..] == s.core.buffer;
    }
  }

  lemma SendKeepsWakes<T>(s: Sys<T>, h: Handle, suspend: bool)
    requires ListsInv(s) && WakesInv(s) && h in s.sends && s.sends[h].phase == (if suspend then Retrying else Calling)
    ensures WakesInv(SendStep(s, h, suspend))
  {
    var t := SendStep(s, h, suspend);
    assert PhaseOf(s, h) == Some(s.sends[h].phase);
    assert h !in s.suspended && h !in s.resumed;
    if !s.core.closed && s.core.receivers != [] {
      var w := s.core.receivers[0];
      assert w in s.recvs && s.recvs[w].phase.Parked? && w !in s.sends;
      assert PhaseOf(s, w) == Some(Parked) && PhaseOf(t, w) == Some(Woken);
      assert forall k :: k != h && k != w ==> PhaseOf(t, k) == PhaseOf(s, k);
    } else {
      assert forall k :: k != h ==> PhaseOf(t, k) == PhaseOf(s, k);
    }
  }

  lemma ReceiveKeepsLists<T>(s: Sys<T>, h: Handle, suspend: bool)
    requires CoreInv(s.core) && ListsInv(s) && h in s.recvs
    requires s.recvs[h].phase == (if suspend then Retrying else Calling)
    ensures var t := ReceiveStep(s, h, suspend); CoreInv(t.core) && ListsInv(t)
  {
    if s.core.senders != [] {
      var w := s.core.senders[0];
      WaiterLists(s.core.senders, w);
      assert SenderHandles(s.core.senders)[0] == w.handle && w.handle in SenderHandles(s.core.senders);
    }
  }

  /** The receive that promotes the first suspended sender is about the two of them. */
  lemma PromotionKeepsOp<T>(s: Sys<T>, h: Handle, suspend: bool, k: Handle)
    requires ListsInv(s) && OpsInv(s) && h in s.recvs && s.recvs[h].phase == (if suspend then Retrying else Calling)
    requires s.core.buffer != [] && s.core.senders != []
    ensures OpOk(ReceiveStep(s, h, suspend), k)
  {
    var w := s.core.senders[0];
    var t := ReceiveStep(s, h, suspend);
    WaiterLists(s.core.senders, w);
    assert w.handle in s.sends && s.sends[w.handle].phase.Parked? && w.value == Msg(w.handle, s.sends[w.handle].value);
    assert t.trace == Then(Then(s.trace, Take(h, s.core.buffer[0])), Put(w.value));
    assert OpOk(s, k);
    if k == h {
      assert Labels(t.trace, k) == [Take(h, s.core.buffer[0])];
    } else if k == w.handle {
      assert Labels(t.trace, k) == [Put(w.value)];
    } else {
      assert Labels(t.trace, k) == Labels(s.trace, k);
    }
  }

  lemma ReceiveKeepsOp<T>(s: Sys<T>, h: Handle, suspend: bool, k: Handle)
    requires ListsInv(s) && OpsInv(s) && h in s.recvs && s.recvs[h].phase == (if suspend then Retrying else Calling)
    ensures OpOk(ReceiveStep(s, h, suspend), k)
  {
    if s.core.buffer != [] && s.core.senders != [] {
      PromotionKeepsOp(s, h, suspend, k);
    } else {
      assert OpOk(s, k);
    }
  }

  lemma ReceiveKeepsHistory<T>(s: Sys<T>, h: Handle, suspend: bool)
    requires CoreInv(s.core) && HistoryInv(s) && h in s.recvs
    ensures HistoryInv(ReceiveStep(s, h, suspend))
  {
    if s.core.senders != [] {
      WaiterLists(s.core.senders, s.core.senders[0]);
    }
  }

  lemma ReceiveKeepsWakes<T>(s: Sys<T>, h: Handle, suspend: bool)
    requires ListsInv(s) && WakesInv(s) && h in s.recvs && s.recvs[h].phase == (if suspend then Retrying else Calling)
    ensures WakesInv(ReceiveStep(s, h, suspend))
  {
    var t := ReceiveStep(s, h, suspend);
    assert PhaseOf(s, h) == Some(s.recvs[h].phase);
    assert h !in s.suspended && h !in s.resumed;
    if s.core.buffer != [] && s.core.senders != [] {
      var w := s.core.senders[0].handle;
      WaiterLists(s.core.senders, s.core.senders[0]);
      assert w in s.sends && s.sends[w].phase.Parked? && w !in s.recvs;
      assert PhaseOf(s, w) == Some(Parked) && PhaseOf(t, w) == Some(Woken);
      assert forall k :: k != h && k != w ==> PhaseOf(t, k) == PhaseOf(s, k);
    } else {
      assert forall k :: k != h ==> PhaseOf(t, k) == PhaseOf(s, k);
    }
  }

  lemma {:induction false} DismissedHistory<T>(capacity: nat, tr: Trace<T>, receivers: seq<Handle>,
                                               senders: seq<Handle>)
    ensures Puts(ThenDismissed(tr, receivers, senders)) == Puts(tr)
    ensures Replay(capacity, tr).Some? && Replay(capacity, tr).value.closed &&
            (receivers != [] ==> Replay(capacity, tr).value.queue == []) ==>
              Replay(capacity, ThenDismissed(tr, receivers, senders)) == Replay(capacity, tr)
    decreases |receivers| + |senders|
  {
    if senders != [] {
      DismissedHistory(capacity, tr, receivers, senders[..|senders| - 1]);
    } else if receivers != [] {
      DismissedHistory(capacity, tr, receivers[..|receivers| - 1], []);
    }
  }

  lemma {:induction false} DismissedLabels<T>(tr: Trace<T>, receivers: seq<Handle>, senders: seq<Handle>, h: Handle)
    requires NoDup(receivers) && NoDup(senders) && !(h in receivers && h in senders)
    ensures Labels(ThenDismissed(tr, receivers, senders), h) ==
            Labels(tr, h) + (if h in receivers then [NoMore(h)] else if h in senders then [Reject(h)] else [])
    decreases |receivers| + |senders|
  {
    if senders != [] {
      DismissedLabels(tr, receivers, senders[..|senders| - 1], h);
    } else if receivers != [] {
      DismissedLabels(tr, receivers[..|receivers| - 1], [], h);
    }
  }

  lemma CloseKeepsLists<T>(s: Sys<T>)
    requires CoreInv(s.core) && ListsInv(s) && HistoryInv(s)
    ensures var t := CloseStep(s); CoreInv(t.core) && ListsInv(t) && HistoryInv(t)
  {
    if !s.core.closed {
      DismissedHistory(s.core.capacity, Then(s.trace, Closed), s.core.receivers, SenderHandles(s.core.senders));
    }
  }

  lemma CloseKeepsOp<T>(s: Sys<T>, k: Handle)
    requires ListsInv(s) && OpsInv(s)
    ensures OpOk(CloseStep(s), k)
  {
    assert OpOk(s, k);
    if !s.core.closed {
      DismissedLabels(Then(s.trace, Closed), s.core.receivers, SenderHandles(s.core.senders), k);
    }
  }

  lemma CloseKeepsWakes<T>(s: Sys<T>)
    requires ListsInv(s) && WakesInv(s)
    ensures WakesInv(CloseStep(s))
  {
    if !s.core.closed {
      var t := CloseStep(s);
      var woken := s.core.receivers + SenderHandles(s.core.senders);
      assert forall h :: h in woken ==> PhaseOf(s, h) == Some(Parked);
      assert forall h :: PhaseOf(t, h) == (if h in woken then Some(Woken) else PhaseOf(s, h));
    }
  }

  lemma ResumeKeepsOp<T>(s: Sys<T>, h: Handle, k: Handle)
    requires OpsInv(s)
    ensures OpOk(ResumeStep(s, h), k)
  {
    assert OpOk(s, k);
  }

  lemma ResumeKeepsWakes<T>(s: Sys<T>, h: Handle)
    requires ListsInv(s) && WakesInv(s)
    ensures var t := ResumeStep(s, h); ListsInv(t) && WakesInv(t)
  {
    var t := ResumeStep(s, h);
    if t != s {
      assert PhaseOf(s, h) in {Some(Woken), Some(Ready)} && PhaseOf(t, h) == Some(Finished);
      assert forall k :: k != h ==> PhaseOf(t, k) == PhaseOf(s, k);
    }
  }

  lemma NewKeepsOp<T>(s: Sys<T>, e: Event<T>, k: Handle)
    requires OpsInv(s) && (e.NewSend? || e.NewReceive?)
    ensures OpOk(Step(s, e), k)
  {
    assert OpOk(s, k);
  }

  lemma NewKeepsWakes<T>(s: Sys<T>, e: Event<T>)
    requires ListsInv(s) && WakesInv(s) && (e.NewSend? || e.NewReceive?)
    ensures var t := Step(s, e); ListsInv(t) && WakesInv(t)
  {
    var t := Step(s, e);
    if t != s {
      assert PhaseOf(s, e.h) == None && PhaseOf(t, e.h) == Some(Calling);
      assert forall k :: k != e.h ==> PhaseOf(t, k) == PhaseOf(s, k);
    }
  }

  lemma SendKeepsLine<T>(s: Sys<T>, h: Handle, suspend: bool)
    requires CoreInv(s.core) && LineInv(s) && h in s.sends
    ensures LineInv(SendStep(s, h, suspend))
  {
    WaiterLists(s.core.senders, SenderWaiter(h, Msg(h, s.sends[h].value)));
    assert SenderHandles<Msg<T>>([]) == [];
    if s.core.receivers != [] {
      assert s.core.receivers == [s.core.receivers[0]] + s.core.receivers[1..];
    }
  }

  lemma ReceiveKeepsLine<T>(s: Sys<T>, h: Handle, suspend: bool)
    requires CoreInv(s.core) && LineInv(s) && h in s.recvs
    ensures LineInv(ReceiveStep(s, h, suspend))
  {
    assert SenderHandles<Msg<T>>([]) == [];
    if s.core.senders != [] {
      WaiterLists(s.core.senders, s.core.senders[0]);
      assert SenderHandles(s.core.senders) == [s.core.senders[0].handle] + SenderHandles(s.core.senders)[1..];
    }
  }

  lemma CloseKeepsLine<T>(s: Sys<T>)
    requires LineInv(s)
    ensures LineInv(CloseStep(s))
  {
    assert SenderHandles<Msg<T>>([]) == [];
  }

  lemma StepKeeps<T>(s: Sys<T>, e: Event<T>)
    requires Inv(s)
    ensures Inv(Step(s, e))
  {
    match e
    case NewSend(_, _) => NewKeeps(s, e);
    case NewReceive(_) => NewKeeps(s, e);
    case AwaitReady(h) => AwaitKeeps(s, h, false);
    case AwaitSuspend(h) => AwaitKeeps(s, h, true);
    case CloseCall =>
      CloseKeepsLists(s);
      forall k { CloseKeepsOp(s, k); }
      CloseKeepsWakes(s);
      CloseKeepsLine(s);
    case Resume(h) =>
      forall k { ResumeKeepsOp(s, h, k); }
      ResumeKeepsWakes(s, h);
  }

  lemma NewKeeps<T>(s: Sys<T>, e: Event<T>)
    requires Inv(s) && (e.NewSend? || e.NewReceive?)
    ensures Inv(Step(s, e))
  {
    forall k { NewKeepsOp(s, e, k); }
    NewKeepsWakes(s, e);
  }

  lemma AwaitKeeps<T>(s: Sys<T>, h: Handle, suspend: bool)
    requires Inv(s)
    ensures Inv(Step(s, if suspend then AwaitSuspend(h) else AwaitReady(h)))
  {
    var p := if suspend then Retrying else Calling;
    if h in s.sends && s.sends[h].phase == p {
      SendKeepsLists(s, h, suspend);
      forall k { SendKeepsOp(s, h, suspend, k); }
      SendKeepsHistory(s, h, suspend);
      SendKeepsWakes(s, h, suspend);
      SendKeepsLine(s, h, suspend);
    } else if h in s.recvs && s.recvs[h].phase == p {
      ReceiveKeepsLists(s, h, suspend);
      forall k { ReceiveKeepsOp(s, h, suspend, k); }
      ReceiveKeepsHistory(s, h, suspend);
      ReceiveKeepsWakes(s, h, suspend);
      ReceiveKeepsLine(s, h, suspend);
    }
  }

  // ---------------------------------------------------------------------------
  // Main results: over every run
  // ---------------------------------------------------------------------------

  ghost function After<T>(capacity: nat, es: seq<Event<T>>): Sys<T> {
    Run(Step<T>, Init(capacity), es)
  }

  ghost predicate InvAt<T>(capacity: nat, s: Sys<T>) {
    Inv(s) && s.core.capacity == capacity
  }

  lemma CapacityFixed<T>(s: Sys<T>, e: Event<T>)
    ensures Step(s, e).core.capacity == s.core.capacity
  {
  }

  lemma Reachable<T(!new)>(capacity: nat, es: seq<Event<T>>)
    requires capacity >= 1
    ensures InvAt(capacity, After(capacity, es))
  {
    InitInv<T>(capacity);
    forall s: Sys<T>, e: Event<T> | InvAt(capacity, s) ensures InvAt(capacity, Step(s, e)) {
      StepKeeps(s, e);
      CapacityFixed(s, e);
    }
    Invariant(Step<T>, (s: Sys<T>) => InvAt(capacity, s), Init(capacity), es);
  }

  /** The channel refines the bounded FIFO queue: whatever the interleaving, the history is a legal
      one and leads to the very buffer and closed flag of the channel; and until Close, what was
      delivered, then the buffer, then what suspended senders hold, is every message in admission
      order. Close cuts off exactly the part the suspended senders held. */
  lemma RefinesBoundedFifo<T(!new)>(capacity: nat, es: seq<Event<T>>)
    requires capacity >= 1
    ensures var s := After(capacity, es);
            && Replay(capacity, s.trace) == Some(Fifo(s.core.buffer, s.core.closed))
            && Takes(s.trace) + s.core.buffer + SenderValues(s.core.senders) + s.dropped == s.admitted
            && (if s.core.closed then s.core.senders == [] else s.dropped == [])
            && |s.core.buffer| <= capacity
  {
    Reachable(capacity, es);
    LegalHistoriesAreFifo(capacity, After(capacity, es).trace);
  }

  /** A step never rewrites history: labels and admissions are only added. */
  ghost predicate Extends<T>(tr: Trace<T>, longer: Trace<T>) {
    tr == longer || (longer.Then? && Extends(tr, longer.before))
  }

  lemma {:induction false} DismissedExtends<T>(tr: Trace<T>, receivers: seq<Handle>, senders: seq<Handle>)
    ensures Extends(tr, ThenDismissed(tr, receivers, senders))
    decreases |receivers| + |senders|
  {
    if senders != [] {
      DismissedExtends(tr, receivers, senders[..|senders| - 1]);
    } else if receivers != [] {
      DismissedExtends(tr, receivers[..|receivers| - 1], []);
    }
  }

  lemma {:induction false} ExtendsBefore<T>(tr: Trace<T>, l: Label<T>, longer: Trace<T>)
    requires Extends(Then(tr, l), longer)
    ensures Extends(tr, longer)
  {
    if Then(tr, l) != longer {
      ExtendsBefore(tr, l, longer.before);
    }
  }

  lemma HistoryOnlyGrows<T>(s: Sys<T>, e: Event<T>)
    ensures Extends(s.trace, Step(s, e).trace) && s.admitted <= Step(s, e).admitted
  {
    if e.CloseCall? && !s.core.closed {
      DismissedExtends(Then(s.trace, Closed), s.core.receivers, SenderHandles(s.core.senders));
      ExtendsBefore(s.trace, Closed, Step(s, e).trace);
    }
  }

  /** The number of times a message was put is read off the labels of its send. */
  lemma {:induction false} PutsOfSender<T>(tr: Trace<T>, m: Msg<T>)
    ensures multiset(Puts(tr))[m] <= |Labels(tr, m.sender)|
  {
    if tr.Then? {
      PutsOfSender(tr.before, m);
    }
  }

  /** No message is delivered twice, and no receive is served twice. */
  lemma DeliveredAtMostOnce<T(!new)>(capacity: nat, es: seq<Event<T>>, m: Msg<T>)
    requires capacity >= 1
    ensures multiset(Takes(After(capacity, es).trace))[m] <= multiset(Puts(After(capacity, es).trace))[m] <= 1
    ensures forall h :: |Labels(After(capacity, es).trace, h)| <= 1
  {
    Reachable(capacity, es);
    var s := After(capacity, es);
    LegalHistoriesAreFifo(capacity, s.trace);
    PutsOfSender(s.trace, m);
    forall h ensures |Labels(s.trace, h)| <= 1 {
      assert OpOk(s, h);
    }
  }

  /** What co_await returned is what the history says, each operation having one label: Send gives
      true exactly when its value entered the queue, also when Close ran before the sender was
      resumed; Receive gives nothing exactly when the queue was closed and drained. */
  lemma OutcomesAgreeWithHistory<T(!new)>(capacity: nat, es: seq<Event<T>>, h: Handle)
    requires capacity >= 1
    ensures var s := After(capacity, es);
            && (h in s.sends && s.sends[h].returned.Some? ==>
                  Labels(s.trace, h) ==
                  [if s.sends[h].returned.value then Put(Msg(h, s.sends[h].value)) else Reject(h)])
            && (h in s.recvs && s.recvs[h].returned.Some? ==>
                  Labels(s.trace, h) ==
                  [match s.recvs[h].returned.value case Some(m) => Take(h, m) case None => NoMore(h)])
  {
    Reachable(capacity, es);
    assert OpOk(After(capacity, es), h);
  }

  /** A suspended receiver means an open channel from which everything sent was already taken; a
      suspended sender means an open, full one; and a closed channel has no suspended coroutine. */
  lemma NoLostWakeups<T(!new)>(capacity: nat, es: seq<Event<T>>, h: Handle)
    requires capacity >= 1
    requires PhaseOf(After(capacity, es), h) == Some(Parked)
    ensures var s := After(capacity, es);
            && !s.core.closed
            && (h in s.recvs ==> h in s.core.receivers && s.core.buffer == [] && s.core.senders == [] &&
                                 Takes(s.trace) == s.admitted)
            && (h in s.sends ==>
                  h in SenderHandles(s.core.senders) && |s.core.buffer| == capacity && s.core.receivers == [])
  {
    Reachable(capacity, es);
    RefinesBoundedFifo(capacity, es);
    var s := After(capacity, es);
    if h in s.recvs {
      assert s.core.buffer == [] && SenderValues(s.core.senders) == [] && s.dropped == [];
      assert Takes(s.trace) + s.core.buffer + SenderValues(s.core.senders) + s.dropped == Takes(s.trace);
    }
  }

  /** Each suspension is resumed once: never twice, and always before its await returns. */
  lemma ResumedExactlyOnce<T(!new)>(capacity: nat, es: seq<Event<T>>, h: Handle)
    requires capacity >= 1
    ensures var s := After(capacity, es);
            && NoDup(s.suspended) && NoDup(s.resumed)
            && (h in s.resumed <==> h in s.suspended && PhaseOf(s, h) == Some(Finished))
            && (h in s.suspended && h !in s.resumed ==> PhaseOf(s, h) in {Some(Parked), Some(Woken)})
  {
    Reachable(capacity, es);
  }

  /** Suspended coroutines are handed back to be resumed once each, in the order in which they were
      suspended, receivers and senders alike; and what was not handed back is still waiting. */
  lemma WokenOnceInOrder<T(!new)>(capacity: nat, es: seq<Event<T>>)
    requires capacity >= 1
    ensures var s := After(capacity, es);
            && NoDup(s.suspended) && s.woken <= s.suspended
            && s.suspended == s.woken + s.core.receivers + SenderHandles(s.core.senders)
            && (forall h :: h in s.suspended[|s.woken|..] <==> PhaseOf(s, h) == Some(Parked))
  {
    Reachable(capacity, es);
    var s := After(capacity, es);
    assert s.suspended[|s.woken|..] == s.core.receivers + SenderHandles(s.core.senders);
  }

  /** So Close hands back each suspended coroutine once and nobody else, in that order. */
  lemma CloseHandsBackEachOnce<T(!new)>(capacity: nat, es: seq<Event<T>>, h: Handle)
    requires capacity >= 1 && !After(capacity, es).core.closed
    ensures var s := After(capacity, es);
            var list := OnClose(s.core).1;
            && s.suspended == s.woken + list && NoDup(list)
            && multiset(list)[h] == (if PhaseOf(s, h) == Some(Parked) then 1 else 0)
  {
    WokenOnceInOrder<T>(capacity, es);
    var s := After(capacity, es);
    StepKeepsAfter(capacity, es, CloseCall);
    var list := OnClose(s.core).1;
    assert Step(s, CloseCall).suspended == s.woken + list;
    assert s.suspended[|s.woken|..] == list;
    CountOnce(list, h);
  }

  lemma StepKeepsAfter<T(!new)>(capacity: nat, es: seq<Event<T>>, e: Event<T>)
    requires capacity >= 1
    ensures Inv(Step(After(capacity, es), e))
  {
    Reachable(capacity, es);
    StepKeeps(After(capacity, es), e);
  }

  lemma CountOnce(s: seq<Handle>, h: Handle)
    requires NoDup(s)
    ensures multiset(s)[h] == if h in s then 1 else 0
  {
    if h in s {
      var i :| 0 <= i < |s| && s[i] == h;
      assert s == s[..i] + [h] + s[i + 1..];
      assert h !in s[..i] && h !in s[i + 1..];
    }
  }

  /** Close leaves the buffer to the receivers and turns every suspended send into a false one and
      every suspended receive into an empty one. */
  lemma CloseDropsTheSuspended<T(!new)>(capacity: nat, es: seq<Event<T>>, h: Handle)
    requires capacity >= 1
    requires PhaseOf(After(capacity, es), h) == Some(Parked)
    ensures var s := After(capacity, es);
            var t := ResumeStep(CloseStep(s), h);
            && t.core == s.core.(closed := true, receivers := [], senders := [])
            && t.dropped == SenderValues(s.core.senders)
            && (h in s.sends ==>
                  h in t.sends && t.sends[h].returned == Some(false) && Msg(h, s.sends[h].value) in t.dropped)
            && (h in s.recvs ==> h in t.recvs && t.recvs[h].returned == Some(None))
  {
    Reachable(capacity, es);
    ClosedAndResumed(After(capacity, es), h);
  }

  lemma ClosedAndResumed<T>(s: Sys<T>, h: Handle)
    requires ListsInv(s) && OpsInv(s) && !s.core.closed && PhaseOf(s, h) == Some(Parked)
    ensures var t := ResumeStep(CloseStep(s), h);
            && t.core == s.core.(closed := true, receivers := [], senders := [])
            && t.dropped == SenderValues(s.core.senders)
            && (h in s.sends ==>
                  h in t.sends && t.sends[h].returned == Some(false) && Msg(h, s.sends[h].value) in t.dropped)
            && (h in s.recvs ==> h in t.recvs && t.recvs[h].returned == Some(None))
  {
    assert OpOk(s, h);
    if h in s.sends {
      var i :| 0 <= i < |s.core.senders| && SenderHandles(s.core.senders)[i] == h;
      assert s.core.senders[i] in s.core.senders;
      assert SenderValues(s.core.senders)[i] == Msg(h, s.sends[h].value);
    }
  }
}

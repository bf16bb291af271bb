/** The bounded channel: what one locked block of Send, Receive or Close does, as functions on the
    fields the lock protects, and the classes whose methods do it in place. */
module Channel {
  import opened Common

  /** A suspended sender and the value it carries. */
  datatype SenderWaiter<+T> = SenderWaiter(handle: Handle, value: T)

  /** The fields under the channel's lock; suspended receivers by handle. */
  datatype Core<+T> = Core(
    capacity: nat, buffer: seq<T>, closed: bool,
    receivers: seq<Handle>, senders: seq<SenderWaiter<T>>)

  datatype SendVerdict = Failed | HandedTo(receiver: Handle) | Buffered | Full

  datatype ReceiveVerdict<+T> = Took(value: T, promoted: Option<Handle>) | EndOfStream | Empty

  /** The locked block of SendAwaitable::await_ready. */
  function OnSendReady<T>(c: Core<T>, v: T): (Core<T>, SendVerdict) {
    if c.closed then (c, Failed)
    else if c.receivers != [] then (c.(receivers := c.receivers[1..]), HandedTo(c.receivers[0]))
    else if |c.buffer| < c.capacity then (c.(buffer := c.buffer + [v]), Buffered)
    else (c, Full)
  }

  /** The locked block of SendAwaitable::await_suspend: Full means that h was queued. */
  function OnSendSuspend<T>(c: Core<T>, h: Handle, v: T): (Core<T>, SendVerdict) {
    var (c', r) := OnSendReady(c, v);
    if r.Full? then (c.(senders := c.senders + [SenderWaiter(h, v)]), Full) else (c', r)
  }

  /** The locked block of ReceiveAwaitable::await_ready. */
  function OnReceiveReady<T>(c: Core<T>): (Core<T>, ReceiveVerdict<T>) {
    if c.buffer != [] then
      var rest := c.buffer[1..];
      if c.senders != [] then
        (c.(buffer := rest + [c.senders[0].value], senders := c.senders[1..]),
         Took(c.buffer[0], Some(c.senders[0].handle)))
      else
        (c.(buffer := rest), Took(c.buffer[0], None))
    else if c.closed then (c, EndOfStream)
    else (c, Empty)
  }

  /** The locked block of ReceiveAwaitable::await_suspend: Empty means that h was queued. */
  function OnReceiveSuspend<T>(c: Core<T>, h: Handle): (Core<T>, ReceiveVerdict<T>) {
    var (c', r) := OnReceiveReady(c);
    if r.Empty? then (c.(receivers := c.receivers + [h]), Empty) else (c', r)
  }

  function SenderHandles<T>(ws: seq<SenderWaiter<T>>): (hs: seq<Handle>) {
    seq(|ws|, i requires 0 <= i < |ws| => ws[i].handle)
  }

  function SenderValues<T>(ws: seq<SenderWaiter<T>>): (vs: seq<T>) {
    seq(|ws|, i requires 0 <= i < |ws| => ws[i].value)
  }

  /** The locked block of Close, and the handles it will resume, receivers first. */
  function OnClose<T>(c: Core<T>): (Core<T>, seq<Handle>) {
    if c.closed then (c, [])
    else (c.(closed := true, receivers := [], senders := []), c.receivers + SenderHandles(c.senders))
  }

  /** What co_await of a send gives, from the awaitable's two flags. */
  function SendAnswer(sent: bool, failed: bool): bool {
    sent && !failed
  }

  /** What co_await of a receive gives, from the awaitable's slot. */
  function ReceiveAnswer<T>(slot: Option<T>): Option<T> {
    slot
  }

  // ---------------------------------------------------------------------------
  // The same blocks in place. A waiter holds a pointer into its awaitable, through which another
  // coroutine's locked block writes; the handle to resume after unlocking is returned.
  // ---------------------------------------------------------------------------

  datatype ReceiverEntry<!T> = ReceiverEntry(handle: Handle, result: ReceiveAwaitable<T>)

  datatype SenderEntry<!T> = SenderEntry(handle: Handle, value: T, sentFlag: SendAwaitable<T>)

  class Channel<T> {
    const capacity: nat
    var buffer: seq<T>
    var closed: bool
    var receiverWaiters: seq<ReceiverEntry<T>>
    var senderWaiters: seq<SenderEntry<T>>

    constructor (capacity: nat)
      requires capacity >= 1
      ensures State() == Core(capacity, [], false, [], [])
    {
      this.capacity := capacity;
      buffer, closed, receiverWaiters, senderWaiters := [], false, [], [];
    }

    ghost function State(): Core<T>
      reads this
    {
      Core(capacity, buffer, closed,
           seq(|receiverWaiters|, i requires 0 <= i < |receiverWaiters| reads this => receiverWaiters[i].handle),
           seq(|senderWaiters|, i requires 0 <= i < |senderWaiters| reads this =>
             SenderWaiter(senderWaiters[i].handle, senderWaiters[i].value)))
    }

    method Close() returns (toWake: seq<Handle>)
      modifies this
      ensures (State(), toWake) == OnClose(old(State()))
    {
      toWake := [];
      if closed { return; }
      closed := true;
      for i := 0 to |receiverWaiters|
        invariant |toWake| == i
        invariant forall k :: 0 <= k < i ==> toWake[k] == receiverWaiters[k].handle
      {
        toWake := toWake + [receiverWaiters[i].handle];
      }
      var n := |receiverWaiters|;
      receiverWaiters := [];
      for i := 0 to |senderWaiters|
        invariant |toWake| == n + i
        invariant toWake[..n] == old(State()).receivers
        invariant forall k :: 0 <= k < i ==> toWake[n + k] == senderWaiters[k].handle
      {
        toWake := toWake + [senderWaiters[i].handle];
      }
      assert toWake[n..] == SenderHandles(old(State()).senders);
      senderWaiters := [];
      assert State().receivers == [] && State().senders == [];
      assert toWake == toWake[..n] + toWake[n..];
    }
  }

  class SendAwaitable<T> {
    const channel: Channel<T>
    const value: T
    var sent: bool
    var failed: bool

    constructor (channel: Channel<T>, value: T)
      ensures this.channel == channel && this.value == value && !sent && !failed
    {
      this.channel, this.value := channel, value;
      sent, failed := false, false;
    }

    /** The first receiver's slot, which a hand-over writes. */
    ghost function Target(): set<object>
      reads channel
    {
      if channel.receiverWaiters == [] then {} else {channel.receiverWaiters[0].result}
    }

    /** What a verdict does outside the channel: flags of this awaitable and one receiver's slot. */
    twostate predicate Delivered(r: SendVerdict)
      reads *
    {
      && failed == (old(failed) || r.Failed?)
      && sent == (old(sent) || r.HandedTo? || r.Buffered?)
      && (r.HandedTo? ==> old(channel.receiverWaiters) != [] &&
                          var w := old(channel.receiverWaiters[0]);
                          r.receiver == w.handle && w.result.result == Some(value))
      && (!r.HandedTo? ==> forall w :: w in old(Target()) ==> unchanged(w))
      && channel.receiverWaiters ==
         (if r.HandedTo? then old(channel.receiverWaiters)[1..] else old(channel.receiverWaiters))
    }

    method AwaitReady() returns (ready: bool, toWake: Option<Handle>)
      modifies channel, this`sent, this`failed, Target()
      ensures var (c, r) := OnSendReady(old(channel.State()), value);
              channel.State() == c && Delivered(r) && ready == !r.Full? &&
              toWake == (if r.HandedTo? then Some(r.receiver) else None)
      ensures channel.senderWaiters == old(channel.senderWaiters)
    {
      toWake := None;
      if channel.closed {
        failed := true;
        return true, None;
      }
      if channel.receiverWaiters != [] {
        var waiter := channel.receiverWaiters[0];
        channel.receiverWaiters := channel.receiverWaiters[1..];
        waiter.result.result := Some(value);
        toWake := Some(waiter.handle);
        sent := true;
      } else if |channel.buffer| < channel.capacity {
        channel.buffer := channel.buffer + [value];
        sent := true;
      } else {
        return false, None;
      }
      return true, toWake;
    }

    method AwaitSuspend(h: Handle) returns (suspended: bool, toWake: Option<Handle>)
      modifies channel, this`sent, this`failed, Target()
      ensures var (c, r) := OnSendSuspend(old(channel.State()), h, value);
              channel.State() == c && Delivered(r) && suspended == r.Full? &&
              toWake == (if r.HandedTo? then Some(r.receiver) else None)
      ensures channel.senderWaiters ==
              old(channel.senderWaiters) + (if suspended then [SenderEntry(h, value, this)] else [])
    {
      toWake := None;
      if channel.closed {
        failed := true;
        return false, None;
      }
      if channel.receiverWaiters != [] {
        var waiter := channel.receiverWaiters[0];
        channel.receiverWaiters := channel.receiverWaiters[1..];
        waiter.result.result := Some(value);
        toWake := Some(waiter.handle);
        sent := true;
      } else if |channel.buffer| < channel.capacity {
        channel.buffer := channel.buffer + [value];
        sent := true;
      } else {
        channel.senderWaiters := channel.senderWaiters + [SenderEntry(h, value, this)];
        return true, None;
      }
      return false, toWake;
    }

    method AwaitResume() returns (ok: bool)
      ensures ok == SendAnswer(sent, failed)
    {
      ok := sent && !failed;
    }
  }

  class ReceiveAwaitable<T> {
    const channel: Channel<T>
    var result: Option<T>

    constructor (channel: Channel<T>)
      ensures this.channel == channel && result == None
    {
      this.channel := channel;
      result := None;
    }

    /** The first sender's flag, which a promotion into the buffer sets. */
    ghost function Target(): set<object>
      reads channel
    {
      if channel.senderWaiters == [] then {} else {channel.senderWaiters[0].sentFlag}
    }

    twostate predicate Delivered(r: ReceiveVerdict<T>)
      reads *
    {
      && result == (if r.Took? then Some(r.value) else old(result))
      && (r.Took? && r.promoted.Some? ==> old(channel.senderWaiters) != [] &&
                                          var w := old(channel.senderWaiters[0]);
                                          r.promoted.value == w.handle && w.sentFlag.sent &&
                                          w.sentFlag.failed == old(w.sentFlag.failed))
      && (!(r.Took? && r.promoted.Some?) ==> forall w :: w in old(Target()) ==> unchanged(w))
      && channel.senderWaiters ==
         (if r.Took? && r.promoted.Some? then old(channel.senderWaiters)[1..] else old(channel.senderWaiters))
    }

    method AwaitReady() returns (ready: bool, toWake: Option<Handle>)
      modifies channel, this, Target()
      ensures var (c, r) := OnReceiveReady(old(channel.State()));
              channel.State() == c && Delivered(r) && ready == !r.Empty? &&
              toWake == (if r.Took? then r.promoted else None)
      ensures channel.receiverWaiters == old(channel.receiverWaiters)
    {
      toWake := None;
      if channel.buffer != [] {
        toWake := TakeFront();
      } else if !channel.closed {
        return false, None;
      }
      return true, toWake;
    }

    method AwaitSuspend(h: Handle) returns (suspended: bool, toWake: Option<Handle>)
      modifies channel, this, Target()
      ensures var (c, r) := OnReceiveSuspend(old(channel.State()), h);
              channel.State() == c && Delivered(r) && suspended == r.Empty? &&
              toWake == (if r.Took? then r.promoted else None)
      ensures channel.receiverWaiters ==
              old(channel.receiverWaiters) + (if suspended then [ReceiverEntry(h, this)] else [])
    {
      toWake := None;
      if channel.buffer != [] {
        toWake := TakeFront();
      } else if !channel.closed {
        channel.receiverWaiters := channel.receiverWaiters + [ReceiverEntry(h, this)];
        return true, None;
      }
      return false, toWake;
    }

    /** Take the front of the buffer; the first suspended sender's value takes the freed place. */
    method TakeFront() returns (toWake: Option<Handle>)
      requires channel.buffer != []
      modifies channel, this, Target()
      ensures var (c, r) := OnReceiveReady(old(channel.State()));
              channel.State() == c && Delivered(r) && r.Took? && toWake == r.promoted
      ensures channel.receiverWaiters == old(channel.receiverWaiters)
    {
      toWake := None;
      result := Some(channel.buffer[0]);
      channel.buffer := channel.buffer[1..];
      if channel.senderWaiters != [] {
        var waiter := channel.senderWaiters[0];
        channel.senderWaiters := channel.senderWaiters[1..];
        channel.buffer := channel.buffer + [waiter.value];
        waiter.sentFlag.sent := true;
        toWake := Some(waiter.handle);
      }
    }

    method AwaitResume() returns (r: Option<T>)
      ensures r == ReceiveAnswer(result)
    {
      r := result;
    }
  }
}

/** The read-write lock: what one locked block does to the fields the lock protects, and the class
    whose methods do it in place. */
module RWLock {
  import opened Common

  datatype Core = Core(readerCount: nat, writeLocked: bool, readers: seq<Handle>, writers: seq<Handle>)

  const FREE := Core(0, false, [], [])

  /** A reader may enter when no writer holds or waits for the lock. */
  function OnReadReady(c: Core): (Core, bool) {
    if !c.writeLocked && c.writers == [] then (c.(readerCount := c.readerCount + 1), true) else (c, false)
  }

  function OnReadSuspend(c: Core, h: Handle): (Core, bool) {
    var (c', granted) := OnReadReady(c);
    if granted then (c', false) else (c.(readers := c.readers + [h]), true)
  }

  function OnWriteReady(c: Core): (Core, bool) {
    if !c.writeLocked && c.readerCount == 0 then (c.(writeLocked := true), true) else (c, false)
  }

  function OnWriteSuspend(c: Core, h: Handle): (Core, bool) {
    var (c', granted) := OnWriteReady(c);
    if granted then (c', false) else (c.(writers := c.writers + [h]), true)
  }

  /** The last reader out hands the lock to the first waiting writer. */
  function OnReadUnlock(c: Core): (Core, seq<Handle>)
    requires c.readerCount > 0
  {
    var n := c.readerCount - 1;
    if n == 0 && c.writers != [] then
      (c.(readerCount := n, writeLocked := true, writers := c.writers[1..]), [c.writers[0]])
    else
      (c.(readerCount := n), [])
  }

  /** The writer hands the lock to all waiting readers, or else to the first waiting writer. */
  function OnWriteUnlock(c: Core): (Core, seq<Handle>) {
    if c.readers != [] then
      (c.(readerCount := |c.readers|, writeLocked := false, readers := []), c.readers)
    else if c.writers != [] then
      (c.(writeLocked := true, writers := c.writers[1..]), [c.writers[0]])
    else
      (c.(writeLocked := false), [])
  }

  class AsyncRWLock {
    var readerCount: nat
    var writeLocked: bool
    var readWaiters: seq<Handle>
    var writeWaiters: seq<Handle>

    ghost function State(): Core
      reads this
    {
      Core(readerCount, writeLocked, readWaiters, writeWaiters)
    }

    constructor ()
      ensures State() == FREE
    {
      readerCount, writeLocked, readWaiters, writeWaiters := 0, false, [], [];
    }

    method ReadAwaitReady() returns (ready: bool)
      modifies this
      ensures (State(), ready) == OnReadReady(old(State()))
    {
      if !writeLocked && writeWaiters == [] {
        readerCount := readerCount + 1;
        return true;
      }
      return false;
    }

    method ReadAwaitSuspend(h: Handle) returns (suspended: bool)
      modifies this
      ensures (State(), suspended) == OnReadSuspend(old(State()), h)
    {
      if !writeLocked && writeWaiters == [] {
        readerCount := readerCount + 1;
        return false;
      }
      readWaiters := readWaiters + [h];
      return true;
    }

    method WriteAwaitReady() returns (ready: bool)
      modifies this
      ensures (State(), ready) == OnWriteReady(old(State()))
    {
      if !writeLocked && readerCount == 0 {
        writeLocked := true;
        return true;
      }
      return false;
    }

    method WriteAwaitSuspend(h: Handle) returns (suspended: bool)
      modifies this
      ensures (State(), suspended) == OnWriteSuspend(old(State()), h)
    {
      if !writeLocked && readerCount == 0 {
        writeLocked := true;
        return false;
      }
      writeWaiters := writeWaiters + [h];
      return true;
    }

    method ReadUnlock() returns (toWake: seq<Handle>)
      requires readerCount > 0
      modifies this
      ensures (State(), toWake) == OnReadUnlock(old(State()))
    {
      toWake := [];
      readerCount := readerCount - 1;
      if readerCount == 0 && writeWaiters != [] {
        writeLocked := true;
        toWake := toWake + [writeWaiters[0]];
        assert toWake == [writeWaiters[0]];
        writeWaiters := writeWaiters[1..];
      }
    }

    method WriteUnlock() returns (toWake: seq<Handle>)
      modifies this
      ensures (State(), toWake) == OnWriteUnlock(old(State()))
    {
      toWake := [];
      writeLocked := false;
      if readWaiters != [] {
        readerCount := |readWaiters|;
        for i := 0 to |readWaiters|
          invariant toWake == readWaiters[..i]
        {
          toWake := toWake + [readWaiters[i]];
        }
        assert toWake == readWaiters;
        readWaiters := [];
      } else if writeWaiters != [] {
        writeLocked := true;
        toWake := toWake + [writeWaiters[0]];
        assert toWake == [writeWaiters[0]];
        writeWaiters := writeWaiters[1..];
      }
    }
  }
}

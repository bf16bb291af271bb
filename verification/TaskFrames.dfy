/** Task frames linked by continuation handles, the promise in each, and the machine that runs them by
    jumping from frame to frame. */
module TaskFrames {
  import opened Common
  import opened Histories
  import opened Task

  // ---------------------------------------------------------------------------
  // The promise
  // ---------------------------------------------------------------------------

  datatype Promise<+V> = Promise(result: Option<V>, continuation: Option<Handle>, awaited: bool)

  function NewPromise<V>(): Promise<V> {
    Promise(None, None, false)
  }

  function OnReturnValue<V>(p: Promise<V>, value: V): Promise<V> {
    p.(result := Some(value))
  }

  /** SetContinuation, or None when its check aborts because this task was awaited before. */
  function OnSetContinuation<V>(p: Promise<V>, c: Handle): Option<Promise<V>> {
    if p.awaited then None else Some(p.(awaited := true, continuation := Some(c)))
  }

  class TaskPromise<V> {
    var result: Option<V>
    var continuation: Option<Handle>
    var awaited: bool

    ghost function State(): Promise<V>
      reads this
    {
      Promise(result, continuation, awaited)
    }

    constructor ()
      ensures State() == NewPromise()
    {
      result, continuation, awaited := None, None, false;
    }

    method ReturnValue(value: V)
      modifies this
      ensures State() == OnReturnValue(old(State()), value)
    {
      result := Some(value);
    }

    method SetContinuation(c: Handle) returns (ok: bool)
      modifies this
      ensures OnSetContinuation(old(State()), c) == if ok then Some(State()) else None
      ensures !ok ==> State() == old(State())
    {
      if awaited { return false; }
      awaited := true;
      continuation := Some(c);
      return true;
    }

    /** FinalAwaiter: the handle to jump to, where None stands for the no-op coroutine. */
    method FinalSuspend() returns (target: Option<Handle>)
      ensures target == State().continuation
    {
      if continuation.Some? {
        return Some(continuation.value);
      }
      return None;
    }
  }

  // ---------------------------------------------------------------------------
  // The frame machine
  // ---------------------------------------------------------------------------

  /** Where a frame is suspended or running; Final keeps only the promise and the parameters. */
  datatype Stage<!V> =
    | At(rest: Body<V>, locals: seq<V>)
    | Awaiting(child: Handle, rest: Body<V>, locals: seq<V>)
    | Final

  /** The slots hold the handles of the tasks the frame owns, the first params of them parameters. */
  datatype Frame<!V> = Frame(stage: Stage<V>, params: nat, slots: seq<Option<Handle>>, promise: Promise<V>) {
    function Params(): seq<Option<Handle>> {
      if params <= |slots| then slots[..params] else slots
    }

    function Locals(): seq<Option<Handle>> {
      if params <= |slots| then slots[params..] else []
    }

    function Slot(k: nat): Option<Handle> {
      if k < |slots| then slots[k] else None
    }
  }

  /** A frame just created, suspended before its code, owning the tasks passed to it. */
  function NewFrame<V>(body: Body<V>, args: seq<V>, slots: seq<Option<Handle>>): Frame<V> {
    Frame(At(body, args), |slots|, slots, NewPromise())
  }

  /** The frames alive, the one running (None once control is back at the outermost resume), the
      next handle, what was observed, the number of control transfers, and whether the machine was
      stopped by an abort or by what is undefined. */
  datatype Machine<!V> = Machine(
    frames: map<Handle, Frame<V>>, current: Option<Handle>, next: Handle,
    obs: Trace<V>, transfers: nat, stopped: Option<Fault>)

  /** Destroying task objects destroys their frames, and with these the tasks they own. */
  function Destroy<V>(frames: map<Handle, Frame<V>>, slots: seq<Option<Handle>>): (r: map<Handle, Frame<V>>)
    ensures forall h :: h in r ==> h in frames && r[h] == frames[h]
    decreases frames.Keys, |slots|
  {
    if slots == [] then frames
    else
      var rest := Destroy(frames, slots[1..]);
      match slots[0]
      case None => rest
      case Some(h) =>
        if h !in rest then rest
        else Destroy(rest - {h}, rest[h].slots)
  }

  /** What the running frame does next. */
  function Step<V>(m: Machine<V>): Machine<V> {
    if m.stopped.Some? || m.current.None? || m.current.value !in m.frames then m
    else
      var id := m.current.value;
      var f := m.frames[id];
      match f.stage
      case At(Return(g), locals) =>
        // return_value, the end of the code's scope, and final_suspend, which jumps to the
        // continuation or to the no-op coroutine
        var done := Frame(Final, f.params, f.Params(), OnReturnValue(f.promise, g(locals)));
        m.(frames := Destroy(m.frames, f.Locals())[id := done],
           current := f.promise.continuation, obs := Then(m.obs, Ended(id, g(locals))), transfers := m.transfers + 1)
      case At(Emit(g, rest), locals) =>
        m.(frames := m.frames[id := f.(stage := At(rest, locals))], obs := Then(m.obs, Effect(id, g(locals))))
      case At(If(c, thn, els), locals) =>
        m.(frames := m.frames[id := f.(stage := At(if c(locals) then thn else els, locals))])
      case At(Create(a, child, ks, rest), locals) =>
        // a call makes a suspended frame, and moves the tasks passed into it
        var (taken, left) := Take(f.slots, ks, None);
        m.(frames := m.frames[id := f.(stage := At(rest, locals), slots := left + [Some(m.next)])]
                             [m.next := NewFrame(child, [a(locals)], taken)],
           next := m.next + 1)
      case At(Await(k, rest), locals) =>
        // co_await links the task to this frame and jumps to it
        (match f.Slot(k)
         case None => m.(stopped := Some(NoTask))
         case Some(child) =>
           if child !in m.frames then m.(stopped := Some(NoTask))
           else match OnSetContinuation(m.frames[child].promise, id)
             case None => m.(stopped := Some(AwaitedTwice))
             case Some(p) =>
               m.(frames := m.frames[id := f.(stage := Awaiting(child, rest, locals))]
                                    [child := m.frames[child].(promise := p)],
                  current := Some(child), obs := Then(m.obs, Began(child)), transfers := m.transfers + 1))
      case At(Drop(k, rest), locals) =>
        var slots := if k < |f.slots| then f.slots[k := None] else f.slots;
        m.(frames := Destroy(m.frames, [f.Slot(k)])[id := f.(stage := At(rest, locals), slots := slots)])
      case Awaiting(child, rest, locals) =>
        // await_resume moves the result out
        if child in m.frames && m.frames[child].promise.result.Some? then
          m.(frames := m.frames[id := f.(stage := At(rest, locals + [m.frames[child].promise.result.value]))])
        else m.(stopped := Some(NoResult))
      case Final => m.(stopped := Some(NoResult))
  }

  function Steps<V>(m: Machine<V>, n: nat): Machine<V>
    decreases n
  {
    if n == 0 then m else Steps(Step(m), n - 1)
  }

  lemma {:induction false} StepsAdd<V>(m: Machine<V>, i: nat, j: nat)
    ensures Steps(m, i + j) == Steps(Steps(m, i), j)
    decreases i
  {
    if i > 0 {
      StepsAdd(Step(m), i - 1, j);
    }
  }
}

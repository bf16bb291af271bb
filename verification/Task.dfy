/** Lazy tasks: their programs, and their meaning by recursive evaluation, in which a task is a thunk
    that its one co_await forces. */
module Task {
  import opened Common
  import opened Histories

  /** What a coroutine does: from its parameters and the values its awaits gave so far it computes a
      result, an effect, a condition, or the argument of a task it creates. It holds tasks in slots:
      those passed to it, then those it created. Passing a task on, or dropping it, empties its slot. */
  datatype Body<!V> =
    | Return(result: seq<V> -> V)
    | Emit(effect: seq<V> -> V, rest: Body<V>)
    | If(cond: seq<V> -> bool, thn: Body<V>, els: Body<V>)
    | Create(arg: seq<V> -> V, child: Body<V>, passed: seq<nat>, rest: Body<V>)
    | Await(task: nat, rest: Body<V>)
    | Drop(task: nat, rest: Body<V>)

  /** Awaiting a temporary, which lives to the end of the expression, in a coroutine with n slots. */
  function AwaitTemporary<V>(n: nat, arg: seq<V> -> V, child: Body<V>, passed: seq<nat>, rest: Body<V>): Body<V> {
    Create(arg, child, passed, Await(n, Drop(n, rest)))
  }

  /** A task as its holder sees it: moved away or dropped; not awaited yet, with what it will run and
      the tasks it was given; or awaited, with what is left of those tasks. */
  datatype Thunk<!V> =
    | Gone
    | Fresh(id: Handle, body: Body<V>, args: seq<V>, tasks: seq<Thunk<V>>)
    | Spent(id: Handle, value: V, awaiter: Handle, tasks: seq<Thunk<V>>)

  /** What can be observed of a run, by frame. */
  datatype Obs<+V> = Began(frame: Handle) | Effect(frame: Handle, v: V) | Ended(frame: Handle, v: V)

  type Trace<+V> = History<Obs<V>>

  /** Awaiting a task again, at which the program aborts; and awaiting one that is no longer held, or
      reading a result that is not there, which is undefined in the source: the model stops there. */
  datatype Fault = AwaitedTwice | NoTask | NoResult

  datatype Outcome<!V> =
    | Done(value: V, tasks: seq<Thunk<V>>, obs: Trace<V>, next: Handle)
    | Stopped(fault: Fault, obs: Trace<V>)

  /** What a coroutine is passed: what is in the slots ks, each the first time it is named. */
  function Passed<T>(s: seq<T>, ks: seq<nat>, none: T): seq<T> {
    seq(|ks|, i requires 0 <= i < |ks| => if ks[i] < |s| && ks[i] !in ks[..i] then s[ks[i]] else none)
  }

  /** What its caller keeps. */
  function Kept<T>(s: seq<T>, ks: seq<nat>, none: T): seq<T> {
    seq(|s|, j requires 0 <= j < |s| => if j in ks then none else s[j])
  }

  /** Moving out of the slots ks, one after the other. */
  function Take<T>(s: seq<T>, ks: seq<nat>, none: T): (r: (seq<T>, seq<T>))
    ensures |r.0| == |ks| && |r.1| == |s|
    decreases |ks|
  {
    if ks == [] then ([], s)
    else if ks[0] < |s| then
      var (taken, left) := Take(s[ks[0] := none], ks[1..], none);
      ([s[ks[0]]] + taken, left)
    else
      var (taken, left) := Take(s, ks[1..], none);
      ([none] + taken, left)
  }

  /** One move after the other passes and keeps just that. */
  lemma {:induction false} TakeIs<T>(s: seq<T>, ks: seq<nat>, none: T)
    ensures Take(s, ks, none) == (Passed(s, ks, none), Kept(s, ks, none))
    decreases |ks|
  {
    if ks == [] {
      assert Kept(s, ks, none) == s;
    } else {
      var t := if ks[0] < |s| then s[ks[0] := none] else s;
      var x := if ks[0] < |s| then s[ks[0]] else none;
      TakeIs(t, ks[1..], none);
      assert forall i :: 0 < i < |ks| ==> ks[..i] == [ks[0]] + ks[1..][..i - 1];
      assert Passed(s, ks, none) == [x] + Passed(t, ks[1..], none);
      assert Kept(s, ks, none) == Kept(t, ks[1..], none);
    }
  }

  // ---------------------------------------------------------------------------
  // How much there is to run
  // ---------------------------------------------------------------------------

  ghost function Size<V>(b: Body<V>): nat {
    match b
    case Return(_) => 1
    case Emit(_, rest) => 1 + Size(rest)
    case If(_, thn, els) => 1 + Size(thn) + Size(els)
    case Create(_, child, _, rest) => 1 + Size(child) + Size(rest)
    case Await(_, rest) => 1 + Size(rest)
    case Drop(_, rest) => 1 + Size(rest)
  }

  ghost function ThunkSize<V>(t: Thunk<V>): nat {
    match t
    case Gone => 0
    case Fresh(_, body, _, tasks) => Size(body) + AllSizes(tasks)
    case Spent(_, _, _, tasks) => AllSizes(tasks)
  }

  ghost function AllSizes<V>(ts: seq<Thunk<V>>): nat {
    if ts == [] then 0 else ThunkSize(ts[0]) + AllSizes(ts[1..])
  }

  lemma {:induction false} AppendSize<V>(ts: seq<Thunk<V>>, us: seq<Thunk<V>>)
    ensures AllSizes(ts + us) == AllSizes(ts) + AllSizes(us)
  {
    if ts == [] {
      assert ts + us == us;
    } else {
      AppendSize(ts[1..], us);
      assert (ts + us)[1..] == ts[1..] + us;
    }
  }

  lemma PutSize<V>(ts: seq<Thunk<V>>, k: nat, t: Thunk<V>)
    requires k < |ts|
    ensures AllSizes(ts[k := t]) == AllSizes(ts) - ThunkSize(ts[k]) + ThunkSize(t)
  {
    assert ts == ts[..k] + ([ts[k]] + ts[k + 1..]);
    assert ts[k := t] == ts[..k] + ([t] + ts[k + 1..]);
    AppendSize(ts[..k], [ts[k]] + ts[k + 1..]);
    AppendSize(ts[..k], [t] + ts[k + 1..]);
  }

  lemma {:induction false} TakeSize<V>(ts: seq<Thunk<V>>, ks: seq<nat>)
    ensures var (taken, left) := Take(ts, ks, Gone); AllSizes(taken) + AllSizes(left) == AllSizes(ts)
    decreases |ks|
  {
    if ks != [] {
      if ks[0] < |ts| {
        PutSize(ts, ks[0], Gone);
        TakeSize(ts[ks[0] := Gone], ks[1..]);
      } else {
        TakeSize(ts, ks[1..]);
      }
    }
  }

  // ---------------------------------------------------------------------------
  // Recursive evaluation
  // ---------------------------------------------------------------------------

  /** The slots after awaiting the task in slot k, which gave r. */
  function AfterAwait<V>(ts: seq<Thunk<V>>, k: nat, awaiter: Handle, r: Outcome<V>): seq<Thunk<V>>
    requires k < |ts| && ts[k].Fresh? && r.Done?
  {
    ts[k := Spent(ts[k].id, r.value, awaiter, r.tasks)]
  }

  /** Evaluation of a frame self with the given values and tasks, of which the first params were
      passed to it: an await evaluates the task there and then. Frames are numbered from next in the
      order they are created, and what is observed is added to obs. The tasks a frame created end with
      its code; those passed to it stay in it. */
  ghost function Eval<V>(b: Body<V>, locals: seq<V>, ts: seq<Thunk<V>>, params: nat, self: Handle, obs: Trace<V>,
                         next: Handle): (r: Outcome<V>)
    requires params <= |ts|
    ensures r.Done? ==> |r.tasks| == params && AllSizes(r.tasks) <= Size(b) + AllSizes(ts) && next <= r.next
    decreases Size(b) + AllSizes(ts), 0
  {
    match b
    case Return(f) =>
      assert ts == ts[..params] + ts[params..];
      AppendSize(ts[..params], ts[params..]);
      Outcome.Done(f(locals), ts[..params], Then(obs, Ended(self, f(locals))), next)
    case Emit(f, rest) => Eval(rest, locals, ts, params, self, Then(obs, Effect(self, f(locals))), next)
    case If(c, thn, els) => Eval(if c(locals) then thn else els, locals, ts, params, self, obs, next)
    case Create(a, child, ks, rest) =>
      var (taken, left) := (Passed(ts, ks, Gone), Kept(ts, ks, Gone));
      var t := Fresh(next, child, [a(locals)], taken);
      TakeIs(ts, ks, Gone);
      TakeSize(ts, ks);
      AppendSize(left, [t]);
      Eval(rest, locals, left + [t], params, self, obs, next + 1)
    case Await(k, rest) =>
      if k >= |ts| || ts[k].Gone? then Stopped(NoTask, obs)
      else if ts[k].Spent? then Stopped(AwaitedTwice, obs)
      else
        PutSize(ts, k, Gone);
        var r := Force(ts[k], obs, next);
        if r.Stopped? then r
        else
          PutSize(ts, k, Spent(ts[k].id, r.value, self, r.tasks));
          Eval(rest, locals + [r.value], AfterAwait(ts, k, self, r), params, self, r.obs, r.next)
    case Drop(k, rest) =>
      if k >= |ts| then Eval(rest, locals, ts, params, self, obs, next)
      else
        PutSize(ts, k, Gone);
        Eval(rest, locals, ts[k := Gone], params, self, obs, next)
  }

  /** Evaluation of a task. */
  ghost function Force<V>(t: Thunk<V>, obs: Trace<V>, next: Handle): (r: Outcome<V>)
    requires t.Fresh?
    ensures r.Done? ==> |r.tasks| == |t.tasks| && AllSizes(r.tasks) <= ThunkSize(t) && next <= r.next
    decreases ThunkSize(t), 1
  {
    Eval(t.body, t.args, t.tasks, |t.tasks|, t.id, Then(obs, Began(t.id)), next)
  }

  /** Awaiting a temporary is a call: its value comes back, and nothing of it stays. */
  lemma TemporaryIsACall<V>(arg: seq<V> -> V, child: Body<V>, passed: seq<nat>, rest: Body<V>,
                            locals: seq<V>, ts: seq<Thunk<V>>, params: nat, self: Handle, obs: Trace<V>, next: Handle)
    requires params <= |ts|
    ensures var (taken, left) := (Passed(ts, passed, Gone), Kept(ts, passed, Gone));
            var r := Force(Fresh(next, child, [arg(locals)], taken), obs, next + 1);
            Eval(AwaitTemporary(|ts|, arg, child, passed, rest), locals, ts, params, self, obs, next) ==
            if r.Stopped? then r else Eval(rest, locals + [r.value], left + [Gone], params, self, r.obs, r.next)
  {
    var n := |ts|;
    var (taken, left) := (Passed(ts, passed, Gone), Kept(ts, passed, Gone));
    var us := left + [Fresh(next, child, [arg(locals)], taken)];
    var r := Force(us[n], obs, next + 1);
    var b := AwaitTemporary(n, arg, child, passed, rest);
    assert Eval(b, locals, ts, params, self, obs, next) == Eval(b.rest, locals, us, params, self, obs, next + 1);
    if r.Done? {
      var vs := AfterAwait(us, n, self, r);
      assert Eval(b.rest, locals, us, params, self, obs, next + 1) ==
             Eval(Drop(n, rest), locals + [r.value], vs, params, self, r.obs, r.next);
      assert vs[n := Gone] == left + [Gone];
    }
  }
}

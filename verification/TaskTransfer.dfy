/** The two ways of transferring control between frames, and the combinators. */
module TaskTransfer {
  import opened Common
  import opened Histories
  import opened Task
  import opened TaskFrames
  import opened TaskRuns

  // ---------------------------------------------------------------------------
  // The fallback: a transfer is a nested call of resume
  // ---------------------------------------------------------------------------

  /** The machine with the native call stack: each entry is a resume() that has not returned. */
  datatype Nested<!V> = Nested(m: Machine<V>, stack: seq<Handle>, unwinding: bool)

  /** Run the top activation up to its next transfer, which calls resume on the target; when the
      target is the no-op coroutine, the calls return one after the other and do nothing else. */
  function NestedStep<V>(n: Nested<V>): Nested<V> {
    if n.stack == [] then n
    else if n.unwinding then n.(stack := n.stack[..|n.stack| - 1])
    else
      var m := Step(n.m);
      if m.transfers == n.m.transfers then n.(m := m)
      else match m.current
        case Some(target) => n.(m := m, stack := n.stack + [target])
        case None => n.(m := m, unwinding := true)
  }

  function NestedSteps<V>(n: Nested<V>, k: nat): Nested<V>
    decreases k
  {
    if k == 0 then n else NestedSteps(NestedStep(n), k - 1)
  }

  lemma {:induction false} NestedStepsAdd<V>(n: Nested<V>, i: nat, j: nat)
    ensures NestedSteps(n, i + j) == NestedSteps(NestedSteps(n, i), j)
    decreases i
  {
    if i > 0 {
      NestedStepsAdd(NestedStep(n), i - 1, j);
    }
  }

  lemma {:induction false} Unwinds<V>(n: Nested<V>)
    requires n.unwinding
    ensures NestedSteps(n, |n.stack|) == n.(stack := [])
    decreases |n.stack|
  {
    if n.stack != [] {
      Unwinds(NestedStep(n));
    }
  }

  /** r has come from n: one stack entry for each transfer made, but for the one that finds nobody to
      resume, after which the stack unwinds. */
  ghost predicate Grown<V>(n: Nested<V>, r: Nested<V>) {
    && r.m.transfers >= n.m.transfers
    && r.unwinding == r.m.current.None?
    && |r.stack| == |n.stack| + (r.m.transfers - n.m.transfers) - (if r.m.current.None? then 1 else 0)
  }

  lemma StepGrows<V>(n: Nested<V>, r: Nested<V>)
    requires n.stack != [] && Grown(n, r) && r.m.current.Some?
    ensures Grown(n, NestedStep(r)) && NestedStep(r).m == Step(r.m)
  {
  }

  /** While jumping goes on, nested resumption does the same and its stack only grows. */
  lemma {:induction false} NestedFollows<V>(n: Nested<V>, k: nat)
    requires !n.unwinding && n.stack != [] && n.m.current.Some?
    requires forall i :: 0 <= i < k ==> Steps(n.m, i).current.Some?
    ensures NestedSteps(n, k).m == Steps(n.m, k) && Grown(n, NestedSteps(n, k))
    decreases k
  {
    if k > 0 {
      NestedFollows(n, k - 1);
      assert Steps(n.m, k - 1).current.Some?;
      StepGrows(n, NestedSteps(n, k - 1));
      OneMoreStep(n.m, k - 1);
      LastNestedStep(n, k - 1);
    }
  }

  lemma {:induction false} OneMoreStep<V>(m: Machine<V>, k: nat)
    ensures Steps(m, k + 1) == Step(Steps(m, k))
    decreases k
  {
    if k > 0 {
      OneMoreStep(Step(m), k - 1);
    }
  }

  lemma {:induction false} LastNestedStep<V>(n: Nested<V>, k: nat)
    ensures NestedSteps(n, k + 1) == NestedStep(NestedSteps(n, k))
    decreases k
  {
    if k > 0 {
      LastNestedStep(NestedStep(n), k - 1);
    }
  }

  /** The first moment control is back at the outermost resume; nothing changes after it. */
  lemma {:induction false} FirstHalt<V>(m: Machine<V>, n: nat) returns (k: nat)
    requires Steps(m, n).current.None?
    ensures k <= n && Steps(m, k) == Steps(m, n)
    ensures forall i :: 0 <= i < k ==> Steps(m, i).current.Some?
    decreases n
  {
    if n == 0 || m.current.None? {
      k := 0;
      Halted(m, n);
    } else {
      k := FirstHalt(Step(m), n - 1);
      k := k + 1;
      forall i | 0 <= i < k ensures Steps(m, i).current.Some? {
        if i > 0 {
          assert Steps(m, i) == Steps(Step(m), i - 1);
        }
      }
    }
  }

  lemma {:induction false} Halted<V>(m: Machine<V>, n: nat)
    requires n == 0 || m.current.None?
    ensures Steps(m, n) == m
  {
    if n > 0 {
      Halted(m, n - 1);
    }
  }

  /** A stopped machine is in the middle of some frame. */
  lemma {:induction false} StoppedInside<V>(m: Machine<V>, n: nat)
    requires m.stopped.Some? ==> m.current.Some?
    ensures Steps(m, n).stopped.Some? ==> Steps(m, n).current.Some?
    decreases n
  {
    if n > 0 {
      StoppedInside(Step(m), n - 1);
    }
  }

  lemma CurrentBefore<V>(m: Machine<V>, n: nat, i: nat)
    requires i <= n && Steps(m, n).current.Some?
    ensures Steps(m, i).current.Some?
  {
    StepsAdd(m, i, n - i);
    if Steps(m, i).current.None? {
      Halted(Steps(m, i), n - i);
    }
  }

  /** The fallback agrees: for every program nested resumption ends in the very machine that jumping
      ends in, hence as recursive evaluation says, and then the native stack is empty again. But it
      unwinds only at the end: when n frames have run it is 2n - 1 activations deep by then. A program
      that is stopped is so in the same machine. */
  lemma NestedResumeAgrees<V>(m: Machine<V>, t: Thunk<V>) returns (n: nat, k: nat)
    requires Launched(m, t)
    ensures var r := Force(t, Start, m.next);
            var start := Nested(m, [t.id], false);
            var z := Steps(m, n);
            && (r.Done? ==>
                  var depth := 2 * |Starts(r.obs)| - 1;
                  && z.current == None && z.obs == r.obs
                  && depth > 0 && |NestedSteps(start, k).stack| == depth
                  && NestedSteps(start, k + depth) == Nested(z, [], true))
            && (r.Stopped? ==> z.stopped == Some(r.fault) && NestedSteps(start, k).m == z)
  {
    n := SymmetricTransferIsEvaluation(m, t);
    var start := Nested(m, [t.id], false);
    if Force(t, Start, m.next).Done? {
      k := FirstHalt(m, n);
      NestedFollows(start, k);
      Unwinds(NestedSteps(start, k));
      NestedStepsAdd(start, k, |NestedSteps(start, k).stack|);
    } else {
      k := n;
      StoppedInside(m, n);
      forall i | 0 <= i < n ensures Steps(m, i).current.Some? {
        CurrentBefore(m, n, i);
      }
      NestedFollows(start, n);
    }
  }

  // ---------------------------------------------------------------------------
  // Combinators
  // ---------------------------------------------------------------------------

  ghost function Any<V(00)>(): V {
    var v: V :| true; v
  }

  /** Then and Map await the task passed to them and return f of its value. */
  ghost function ThenBody<V(00)>(f: V -> V): Body<V> {
    Await(0, Return((locals: seq<V>) => f(if locals == [] then Any<V>() else locals[|locals| - 1])))
  }

  /** The task Then(t, f), which owns t. */
  ghost function ThenOf<V(00)>(id: Handle, t: Thunk<V>, f: V -> V): Thunk<V> {
    Fresh(id, ThenBody(f), [], [t])
  }

  lemma ThenEvaluates<V(00)>(id: Handle, t: Thunk<V>, f: V -> V, obs: Trace<V>, next: Handle)
    requires t.Fresh?
    ensures var r := Force(t, Then(obs, Began(id)), next);
            Force(ThenOf(id, t, f), obs, next) ==
            match r
            case Stopped(_, _) => r
            case Done(v, tasks, o, n) => Outcome.Done(f(v), [Spent(t.id, v, id, tasks)], Then(o, Ended(id, f(v))), n)
  {
    var o := Then(obs, Began(id));
    var b := ThenBody(f);
    if Force(t, o, next).Done? {
      var r := Force(t, o, next);
      AwaitEvaluates(0, b.rest, [], [t], 1, id, o, next);
      assert AfterAwait([t], 0, id, r) == [Spent(t.id, r.value, id, r.tasks)];
      assert b.rest.result([] + [r.value]) == f(r.value);
    } else {
      StopInside(0, b.rest, [], [t], 1, id, o, next);
    }
  }

  /** Running Then gives f of the task's value after the task's own observations; the task's frame stays
      as long as that of Then, whose parameter owns it. */
  lemma ThenRuns<V(00)>(m: Machine<V>, id: Handle, t: Thunk<V>, f: V -> V) returns (n: nat)
    requires t.Fresh? && Launched(m, ThenOf(id, t, f))
    ensures var z := Steps(m, n);
            match Force(t, Then(Start, Began(id)), m.next)
            case Stopped(fault, obs) => z.stopped == Some(fault) && z.obs == obs
            case Done(v, tasks, obs, next) =>
              && z.stopped == None && z.current == None && z.next == next && z.obs == Then(obs, Ended(id, f(v)))
              && z.frames.Keys == {id, t.id} + AllIds(tasks) && AllLaid(z.frames, tasks)
              && z.frames[id] == Frame(Final, 1, [Some(t.id)], Promise(Some(f(v)), None, false))
              && z.frames[t.id] == Frame(Final, |tasks|, Handles(tasks), Promise(Some(v), Some(id), true))
  {
    n := SymmetricTransferIsEvaluation(m, ThenOf(id, t, f));
    ThenEvaluates(id, t, f, Start, m.next);
    var r := Force(t, Then(Start, Began(id)), m.next);
    if r.Done? {
      var u := Spent(t.id, r.value, id, r.tasks);
      One(Steps(m, n).frames, u);
      assert Handles([u]) == [Some(t.id)];
    }
  }

  /** A frame that holds a task in its only slot and awaits Then of it, moving it there. */
  ghost function AwaitThenOf<V(00)>(f: V -> V): Body<V> {
    Create((_: seq<V>) => Any<V>(), ThenBody(f), [0],
           Await(1, Return((locals: seq<V>) => if locals == [] then Any<V>() else locals[|locals| - 1])))
  }

  /** The task arrives where it is moved to: awaiting Then of a task held gives f of its value, and the
      slot it came from is empty. */
  lemma MovedTaskArrives<V(00)>(t: Thunk<V>, f: V -> V, self: Handle, obs: Trace<V>, next: Handle)
    requires t.Fresh?
    ensures var r := Force(t, Then(obs, Began(next)), next + 1);
            var q := Eval(AwaitThenOf(f), [], [t], 1, self, obs, next);
            if r.Done? then q.Done? && q.value == f(r.value) && q.tasks == [Gone] else q == r
  {
    var b := AwaitThenOf(f);
    var u := Fresh(next, ThenBody(f), [Any<V>()], [t]);
    assert Passed([t], [0], Gone) == [t] && Kept([t], [0], Gone) == [Gone];
    assert [Gone] + [u] == [Gone, u];
    assert Eval(b, [], [t], 1, self, obs, next) == Eval(b.rest, [], [Gone, u], 1, self, obs, next + 1);
    AwaitedThen(t, f, u, obs, next + 1);
    var r := Force(t, Then(obs, Began(next)), next + 1);
    if r.Done? {
      AwaitEvaluates(1, b.rest.rest, [], [Gone, u], 1, self, obs, next + 1);
      assert AfterAwait([Gone, u], 1, self, Force(u, obs, next + 1))[..1] == [Gone];
      assert b.rest.rest.result([] + [f(r.value)]) == f(r.value);
    } else {
      StopInside(1, b.rest.rest, [], [Gone, u], 1, self, obs, next + 1);
    }
  }

  lemma AwaitedThen<V(00)>(t: Thunk<V>, f: V -> V, u: Thunk<V>, obs: Trace<V>, next: Handle)
    requires t.Fresh? && u.Fresh? && u.body == ThenBody(f) && u.tasks == [t]
    ensures var r := Force(t, Then(obs, Began(u.id)), next);
            var q := Force(u, obs, next);
            if r.Done? then q.Done? && q.value == f(r.value) else q == r
  {
    var o := Then(obs, Began(u.id));
    var b := ThenBody(f);
    var r := Force(t, o, next);
    if r.Done? {
      AwaitEvaluates(0, b.rest, u.args, [t], 1, u.id, o, next);
      assert b.rest.result(u.args + [r.value]) == f(r.value);
    } else {
      StopInside(0, b.rest, u.args, [t], 1, u.id, o, next);
    }
  }

  /** The same task but for handles and for where it stands in a run. */
  ghost predicate Alike<V>(t: Thunk<V>, u: Thunk<V>)
    decreases t
  {
    match t
    case Gone => u.Gone?
    case Fresh(_, body, args, tasks) => u.Fresh? && u.body == body && u.args == args && AllAlike(tasks, u.tasks)
    case Spent(_, value, _, tasks) => u.Spent? && u.value == value && AllAlike(tasks, u.tasks)
  }

  ghost predicate AllAlike<V>(ts: seq<Thunk<V>>, us: seq<Thunk<V>>)
    decreases ts
  {
    |ts| == |us| && forall i :: 0 <= i < |ts| ==> Alike(ts[i], us[i])
  }

  /** The same outcome but for handles and for what was observed. */
  ghost predicate SameOutcome<V>(q: Outcome<V>, r: Outcome<V>) {
    match q
    case Stopped(fault, _) => r.Stopped? && r.fault == fault
    case Done(v, tasks, _, _) => r.Done? && r.value == v && AllAlike(tasks, r.tasks)
  }

  lemma {:induction false} TakeAlike<V>(ts: seq<Thunk<V>>, us: seq<Thunk<V>>, ks: seq<nat>)
    requires AllAlike(ts, us)
    ensures AllAlike(Take(ts, ks, Gone).0, Take(us, ks, Gone).0) && AllAlike(Take(ts, ks, Gone).1, Take(us, ks, Gone).1)
    decreases |ks|
  {
    if ks != [] {
      if ks[0] < |ts| {
        TakeAlike(ts[ks[0] := Gone], us[ks[0] := Gone], ks[1..]);
      } else {
        TakeAlike(ts, us, ks[1..]);
      }
    }
  }

  /** What a program means does not depend on handles, nor on when it is run. */
  lemma {:induction false} MeaningIsLocal<V>(b: Body<V>, locals: seq<V>, ts: seq<Thunk<V>>, us: seq<Thunk<V>>,
                                             params: nat,
                                             self: Handle, obs: Trace<V>, next: Handle,
                                             self': Handle, obs': Trace<V>, next': Handle)
    requires params <= |ts| && AllAlike(ts, us)
    ensures SameOutcome(Eval(b, locals, ts, params, self, obs, next), Eval(b, locals, us, params, self', obs', next'))
    decreases Size(b) + AllSizes(ts), 1
  {
    if b.Emit? {
      MeaningIsLocal(b.rest, locals, ts, us, params, self, Then(obs, Effect(self, b.effect(locals))), next,
                     self', Then(obs', Effect(self', b.effect(locals))), next');
    } else if b.If? || b.Create? || b.Drop? {
      var (c, ts') := After(b, locals, ts, next);
      var (_, us') := After(b, locals, us, next');
      AfterIsSmaller(b, locals, ts, next);
      AfterAlike(b, locals, ts, us, next, next');
      MeaningIsLocal(c, locals, ts', us', params, self, obs, if b.Create? then next + 1 else next,
                     self', obs', if b.Create? then next' + 1 else next');
    } else if b.Await? && b.task < |ts| && ts[b.task].Fresh? {
      AwaitIsLocal(b.task, b.rest, locals, ts, us, params, self, obs, next, self', obs', next');
    }
  }

  lemma AfterAlike<V>(b: Body<V>, locals: seq<V>, ts: seq<Thunk<V>>, us: seq<Thunk<V>>, next: Handle, next': Handle)
    requires !b.Return? && !b.Await? && AllAlike(ts, us)
    ensures After(b, locals, ts, next).0 == After(b, locals, us, next').0
    ensures AllAlike(After(b, locals, ts, next).1, After(b, locals, us, next').1)
  {
    if b.Create? {
      TakeAlike(ts, us, b.passed);
      TakeIs(ts, b.passed, Gone);
      TakeIs(us, b.passed, Gone);
    }
  }

  lemma {:induction false} AwaitIsLocal<V>(k: nat, rest: Body<V>, locals: seq<V>, ts: seq<Thunk<V>>,
                                           us: seq<Thunk<V>>, params: nat,
                                           self: Handle, obs: Trace<V>, next: Handle,
                                           self': Handle, obs': Trace<V>, next': Handle)
    requires params <= |ts| && AllAlike(ts, us) && k < |ts| && ts[k].Fresh?
    ensures SameOutcome(Eval(Await(k, rest), locals, ts, params, self, obs, next),
                        Eval(Await(k, rest), locals, us, params, self', obs', next'))
    decreases Size(Await(k, rest)) + AllSizes(ts), 0
  {
    var t, u := ts[k], us[k];
    assert Alike(t, u);
    PutSize(ts, k, Gone);
    MeaningIsLocal(t.body, t.args, t.tasks, u.tasks, |t.tasks|, t.id, Then(obs, Began(t.id)), next,
                   u.id, Then(obs', Began(u.id)), next');
    var q, r := Force(t, obs, next), Force(u, obs', next');
    if q.Done? {
      var ts', us' := AfterAwait(ts, k, self, q), AfterAwait(us, k, self', r);
      PutSize(ts, k, ts'[k]);
      MeaningIsLocal(rest, locals + [q.value], ts', us', params, self, q.obs, q.next, self', r.obs, r.next);
      AwaitEvaluates(k, rest, locals, ts, params, self, obs, next);
      AwaitEvaluates(k, rest, locals, us, params, self', obs', next');
    } else {
      StopInside(k, rest, locals, ts, params, self, obs, next);
      StopInside(k, rest, locals, us, params, self', obs', next');
    }
  }

  lemma {:induction false} AlikeItself<V>(ts: seq<Thunk<V>>)
    ensures AllAlike(ts, ts)
  {
    forall i | 0 <= i < |ts| ensures Alike(ts[i], ts[i]) {
      if !ts[i].Gone? {
        AlikeItself(ts[i].tasks);
      }
    }
  }

  /** Then after Then gives what one with the composed function gives, wherever in a run: the same
      value, or the same fault. */
  lemma ThenComposes<V(00)>(t: Thunk<V>, f: V -> V, g: V -> V, ids: (Handle, Handle, Handle), obs: Trace<V>,
                       next: Handle, obs': Trace<V>, next': Handle)
    requires t.Fresh?
    ensures var twice := Force(ThenOf(ids.0, ThenOf(ids.1, t, f), g), obs, next);
            var once := Force(ThenOf(ids.2, t, (v: V) => g(f(v))), obs', next');
            if twice.Done? then once.Done? && once.value == twice.value else once.Stopped? && once.fault == twice.fault
  {
    var o := Then(obs, Began(ids.0));
    ThenEvaluates(ids.0, ThenOf(ids.1, t, f), g, obs, next);
    ThenEvaluates(ids.1, t, f, o, next);
    ThenEvaluates(ids.2, t, (v: V) => g(f(v)), obs', next');
    AlikeItself(t.tasks);
    MeaningIsLocal(t.body, t.args, t.tasks, t.tasks, |t.tasks|, t.id, Then(Then(o, Began(ids.1)), Began(t.id)), next,
                   t.id, Then(Then(obs', Began(ids.2)), Began(t.id)), next');
  }
}

/** The frame machine against recursive evaluation. */
module TaskRuns {
  import opened Common
  import opened Histories
  import opened Task
  import opened TaskFrames

  // ---------------------------------------------------------------------------
  // How tasks lie in the heap of frames
  // ---------------------------------------------------------------------------

  function HandleOf<V>(t: Thunk<V>): Option<Handle> {
    if t.Gone? then None else Some(t.id)
  }

  function Handles<V>(ts: seq<Thunk<V>>): seq<Option<Handle>> {
    seq(|ts|, i requires 0 <= i < |ts| => HandleOf(ts[i]))
  }

  lemma HandlesHead<V>(ts: seq<Thunk<V>>)
    requires ts != []
    ensures Handles(ts) == [HandleOf(ts[0])] + Handles(ts[1..])
  {
  }

  /** The frame of a task. */
  function FrameOf<V>(t: Thunk<V>): Frame<V>
    requires !t.Gone?
  {
    match t
    case Fresh(_, body, args, tasks) => NewFrame(body, args, Handles(tasks))
    case Spent(_, v, awaiter, tasks) => Frame(Final, |tasks|, Handles(tasks), Promise(Some(v), Some(awaiter), true))
  }

  /** The handles of a task and of all it owns. */
  ghost function Ids<V>(t: Thunk<V>): set<Handle> {
    if t.Gone? then {} else {t.id} + AllIds(t.tasks)
  }

  ghost function AllIds<V>(ts: seq<Thunk<V>>): set<Handle> {
    if ts == [] then {} else Ids(ts[0]) + AllIds(ts[1..])
  }

  /** No handle occurs twice. */
  ghost predicate Distinct<V>(t: Thunk<V>) {
    t.Gone? || (t.id !in AllIds(t.tasks) && AllDistinct(t.tasks))
  }

  ghost predicate AllDistinct<V>(ts: seq<Thunk<V>>) {
    ts == [] || (Distinct(ts[0]) && AllDistinct(ts[1..]) && Ids(ts[0]) !! AllIds(ts[1..]))
  }

  /** The frames of a task and of all it owns are there. */
  ghost predicate Laid<V>(frames: map<Handle, Frame<V>>, t: Thunk<V>)
    decreases t
  {
    t.Gone? || (t.id in frames && frames[t.id] == FrameOf(t) && AllLaid(frames, t.tasks))
  }

  ghost predicate AllLaid<V>(frames: map<Handle, Frame<V>>, ts: seq<Thunk<V>>)
    decreases ts
  {
    ts == [] || (Laid(frames, ts[0]) && AllLaid(frames, ts[1..]))
  }

  lemma {:induction false} LaidElsewhere<V>(frames: map<Handle, Frame<V>>, frames': map<Handle, Frame<V>>,
                                            ts: seq<Thunk<V>>)
    requires AllLaid(frames, ts)
    requires forall h :: h in AllIds(ts) && h in frames ==> h in frames' && frames'[h] == frames[h]
    ensures AllLaid(frames', ts)
  {
    if ts != [] {
      LaidElsewhere(frames, frames', ts[1..]);
      if !ts[0].Gone? {
        assert Ids(ts[0]) == {ts[0].id} + AllIds(ts[0].tasks);
        assert Laid(frames, ts[0]);
        LaidElsewhere(frames, frames', ts[0].tasks);
      }
      assert Laid(frames', ts[0]);
    }
  }

  lemma {:induction false} LaidThere<V>(frames: map<Handle, Frame<V>>, ts: seq<Thunk<V>>)
    requires AllLaid(frames, ts)
    ensures AllIds(ts) <= frames.Keys
  {
    if ts != [] {
      LaidThere(frames, ts[1..]);
      if !ts[0].Gone? {
        LaidThere(frames, ts[0].tasks);
      }
    }
  }

  lemma {:induction false} Appended<V>(frames: map<Handle, Frame<V>>, ts: seq<Thunk<V>>, us: seq<Thunk<V>>)
    ensures AllIds(ts + us) == AllIds(ts) + AllIds(us)
    ensures AllLaid(frames, ts + us) <==> AllLaid(frames, ts) && AllLaid(frames, us)
    ensures AllDistinct(ts + us) <==> AllDistinct(ts) && AllDistinct(us) && AllIds(ts) !! AllIds(us)
  {
    if ts == [] {
      assert ts + us == us;
    } else {
      Appended(frames, ts[1..], us);
      assert (ts + us)[1..] == ts[1..] + us;
    }
  }

  lemma One<V>(frames: map<Handle, Frame<V>>, t: Thunk<V>)
    ensures AllIds([t]) == Ids(t)
    ensures AllLaid(frames, [t]) <==> Laid(frames, t)
    ensures AllDistinct([t]) <==> Distinct(t)
  {
    assert [t][1..] == [];
  }

  /** The slots around slot k. */
  ghost function Others<V>(ts: seq<Thunk<V>>, k: nat): seq<Thunk<V>>
    requires k < |ts|
  {
    ts[..k] + ts[k + 1..]
  }

  /** A sequence of slots is what is in slot k, and the others. */
  lemma Around<V>(frames: map<Handle, Frame<V>>, ts: seq<Thunk<V>>, k: nat)
    requires k < |ts|
    ensures AllIds(ts) == Ids(ts[k]) + AllIds(Others(ts, k))
    ensures AllLaid(frames, ts) <==> Laid(frames, ts[k]) && AllLaid(frames, Others(ts, k))
    ensures AllDistinct(ts) <==> Distinct(ts[k]) && AllDistinct(Others(ts, k)) && Ids(ts[k]) !! AllIds(Others(ts, k))
  {
    assert ts == ts[..k] + ([ts[k]] + ts[k + 1..]);
    Appended(frames, ts[..k], [ts[k]] + ts[k + 1..]);
    Appended(frames, [ts[k]], ts[k + 1..]);
    Appended(frames, ts[..k], ts[k + 1..]);
    One(frames, ts[k]);
  }

  lemma Put<V>(frames: map<Handle, Frame<V>>, ts: seq<Thunk<V>>, k: nat, t: Thunk<V>)
    requires k < |ts|
    ensures Others(ts[k := t], k) == Others(ts, k)
    ensures Handles(ts[k := t]) == Handles(ts)[k := HandleOf(t)]
    ensures AllIds(ts[k := t]) == Ids(t) + AllIds(Others(ts, k))
    ensures AllLaid(frames, ts[k := t]) <==> Laid(frames, t) && AllLaid(frames, Others(ts, k))
    ensures AllDistinct(ts[k := t]) <==> Distinct(t) && AllDistinct(Others(ts, k)) && Ids(t) !! AllIds(Others(ts, k))
  {
    assert Others(ts[k := t], k) == Others(ts, k);
    Around(frames, ts[k := t], k);
  }

  /** Destroying laid tasks takes away just their frames. */
  lemma {:induction false} DestroyTakes<V>(frames: map<Handle, Frame<V>>, ts: seq<Thunk<V>>)
    requires AllLaid(frames, ts) && AllDistinct(ts)
    ensures Destroy(frames, Handles(ts)) == frames - AllIds(ts)
    decreases ts
  {
    if ts != [] {
      DestroyTakes(frames, ts[1..]);
      var rest := frames - AllIds(ts[1..]);
      if !ts[0].Gone? {
        LaidAlone(frames, rest, ts[0]);
        DestroyOne(rest, ts[0]);
      }
      HandlesHead(ts);
      DestroyHead(frames, HandleOf(ts[0]), Handles(ts[1..]), AllIds(ts[1..]), Ids(ts[0]));
      assert AllIds(ts[1..]) + Ids(ts[0]) == AllIds(ts);
    }
  }

  lemma DestroyHead<V>(frames: map<Handle, Frame<V>>, head: Option<Handle>, slots: seq<Option<Handle>>,
                       ids: set<Handle>, own: set<Handle>)
    requires Destroy(frames, slots) == frames - ids
    requires match head
             case None => own == {}
             case Some(h) =>
               h in frames - ids && Destroy(frames - ids - {h}, (frames - ids)[h].slots) == frames - ids - own
    ensures Destroy(frames, [head] + slots) == frames - (ids + own)
  {
    assert ([head] + slots)[1..] == slots;
  }

  lemma {:induction false} DestroyOne<V>(frames: map<Handle, Frame<V>>, t: Thunk<V>)
    requires Laid(frames, t) && Distinct(t) && !t.Gone?
    ensures t.id in frames && Destroy(frames - {t.id}, frames[t.id].slots) == frames - Ids(t)
    decreases t
  {
    LaidElsewhere(frames, frames - {t.id}, t.tasks);
    DestroyTakes(frames - {t.id}, t.tasks);
  }

  lemma LaidAlone<V>(frames: map<Handle, Frame<V>>, frames': map<Handle, Frame<V>>, t: Thunk<V>)
    requires Laid(frames, t)
    requires forall h :: h in Ids(t) && h in frames ==> h in frames' && frames'[h] == frames[h]
    ensures Laid(frames', t)
  {
    One(frames, t);
    One(frames', t);
    LaidElsewhere(frames, frames', [t]);
  }

  /** The tasks taken and the tasks left are those there were, in the same frames; and what is left of
      the parameters was there among them. */
  ghost predicate Parted<V>(frames: map<Handle, Frame<V>>, ts: seq<Thunk<V>>, taken: seq<Thunk<V>>,
                            left: seq<Thunk<V>>) {
    && AllIds(taken) + AllIds(left) == AllIds(ts) && AllIds(taken) !! AllIds(left)
    && AllLaid(frames, taken) && AllLaid(frames, left) && AllDistinct(taken) && AllDistinct(left)
  }

  lemma PartedOne<V>(frames: map<Handle, Frame<V>>, ts: seq<Thunk<V>>, k: nat, taken: seq<Thunk<V>>,
                     left: seq<Thunk<V>>)
    requires AllLaid(frames, ts) && AllDistinct(ts) && k < |ts|
    requires AllLaid(frames, ts[k := Gone]) && AllDistinct(ts[k := Gone]) ==> Parted(frames, ts[k := Gone], taken, left)
    ensures AllLaid(frames, ts[k := Gone]) && AllDistinct(ts[k := Gone])
    ensures Parted(frames, ts, [ts[k]] + taken, left)
  {
    Put(frames, ts, k, Gone);
    Around(frames, ts, k);
    Appended(frames, [ts[k]], taken);
    One(frames, ts[k]);
  }

  lemma {:induction false} TakeParts<V>(frames: map<Handle, Frame<V>>, ts: seq<Thunk<V>>, ks: seq<nat>)
    requires AllLaid(frames, ts) && AllDistinct(ts)
    ensures var (taken, left) := Take(ts, ks, Gone); Parted(frames, ts, taken, left)
    decreases |ks|
  {
    if ks != [] {
      var k := ks[0];
      if k < |ts| {
        var (taken, left) := Take(ts[k := Gone], ks[1..], Gone);
        Put(frames, ts, k, Gone);
        Around(frames, ts, k);
        TakeParts(frames, ts[k := Gone], ks[1..]);
        PartedOne(frames, ts, k, taken, left);
      } else {
        TakeParts(frames, ts, ks[1..]);
        var (taken, left) := Take(ts, ks[1..], Gone);
        Appended(frames, [Gone], taken);
        One(frames, Gone);
      }
    }
  }

  lemma {:induction false} TakeHandles<V>(ts: seq<Thunk<V>>, ks: seq<nat>)
    ensures var (taken, left) := Take(ts, ks, Gone); (Handles(taken), Handles(left)) == Take(Handles(ts), ks, None)
    decreases |ks|
  {
    if ks != [] {
      var us := if ks[0] < |ts| then ts[ks[0] := Gone] else ts;
      var t := if ks[0] < |ts| then ts[ks[0]] else Gone;
      var (taken, left) := Take(us, ks[1..], Gone);
      TakeHandles(us, ks[1..]);
      assert Handles(us) == if ks[0] < |ts| then Handles(ts)[ks[0] := None] else Handles(ts);
      assert Handles([t] + taken) == [HandleOf(t)] + Handles(taken);
    } else {
      assert Handles<V>([]) == [];
    }
  }

  lemma {:induction false} TakeFromParams<V>(ts: seq<Thunk<V>>, ks: seq<nat>, params: nat)
    requires params <= |ts|
    ensures AllIds(Take(ts, ks, Gone).1[..params]) <= AllIds(ts[..params])
    decreases |ks|
  {
    if ks != [] {
      var k := ks[0];
      if k < |ts| {
        TakeFromParams(ts[k := Gone], ks[1..], params);
        if k < params {
          Put(map[], ts[..params], k, Gone);
          Around(map[], ts[..params], k);
          assert ts[k := Gone][..params] == ts[..params][k := Gone];
        } else {
          assert ts[k := Gone][..params] == ts[..params];
        }
      } else {
        TakeFromParams(ts, ks[1..], params);
      }
    }
  }

  // ---------------------------------------------------------------------------
  // Frame id running its code, and the machine when it is done
  // ---------------------------------------------------------------------------

  /** Frame id runs b on locals and holds the tasks ts. */
  ghost predicate Running<V>(m: Machine<V>, id: Handle, b: Body<V>, locals: seq<V>, ts: seq<Thunk<V>>, params: nat) {
    && m.stopped == None && m.current == Some(id) && id in m.frames && params <= |ts|
    && m.frames[id].stage == At(b, locals) && m.frames[id].params == params && m.frames[id].slots == Handles(ts)
    && AllLaid(m.frames, ts) && AllDistinct(ts) && id !in AllIds(ts)
    && (forall h :: h in m.frames ==> h < m.next)
  }

  ghost function Starts<V>(obs: Trace<V>): seq<Handle> {
    match obs
    case Start => []
    case Then(before, Began(h)) => Starts(before) + [h]
    case Then(before, _) => Starts(before)
  }

  /** Two control transfers for each frame started. */
  ghost predicate Counted<V>(m: Machine<V>, t: Machine<V>, extra: int) {
    t.transfers - m.transfers == 2 * (|Starts(t.obs)| - |Starts(m.obs)|) + extra
  }

  /** Frames that are not of ts nor id itself are the same in m and t. */
  ghost predicate SameElsewhere<V>(m: Machine<V>, t: Machine<V>, id: Handle, ids: set<Handle>) {
    forall h :: h != id && h !in ids ==>
                  (h in m.frames <==> h in t.frames) && (h in m.frames ==> t.frames[h] == m.frames[h])
  }

  /** t is m once frame id has run to its end as r says: its promise holds the value, the tasks passed
      to it are as r leaves them, all others it held or created are gone, and no other frame changed. */
  ghost predicate Ended<V>(m: Machine<V>, t: Machine<V>, id: Handle, ts: seq<Thunk<V>>, params: nat, r: Outcome<V>)
    requires r.Done? && id in m.frames && params <= |ts|
  {
    && t.stopped == None && t.current == m.frames[id].promise.continuation && t.next == r.next && t.obs == r.obs
    && id in t.frames
    && t.frames[id] == Frame(Final, params, Handles(r.tasks), OnReturnValue(m.frames[id].promise, r.value))
    && SameElsewhere(m, t, id, AllIds(ts))
    && (forall h :: h in AllIds(ts) ==> (h in t.frames <==> h in AllIds(r.tasks)))
    && AllLaid(t.frames, r.tasks) && AllDistinct(r.tasks) && AllIds(r.tasks) <= AllIds(ts[..params])
    && (forall h :: h in t.frames ==> h < t.next)
    && Counted(m, t, 1)
  }

  ghost predicate Ran<V>(m: Machine<V>, t: Machine<V>, id: Handle, ts: seq<Thunk<V>>, params: nat, r: Outcome<V>)
    requires id in m.frames && params <= |ts|
  {
    match r
    case Done(_, _, _, _) => Ended(m, t, id, ts, params, r)
    case Stopped(fault, obs) => t.stopped == Some(fault) && t.obs == obs
  }

  /** m' is m some steps later, with frame id running again and now holding us. */
  ghost predicate Leads<V>(m: Machine<V>, m': Machine<V>, id: Handle, ts: seq<Thunk<V>>, us: seq<Thunk<V>>, params: nat)
    requires id in m.frames && params <= |ts|
  {
    && id in m'.frames && params <= |us| && m'.frames[id].promise == m.frames[id].promise
    && SameElsewhere(m, m', id, AllIds(ts) + AllIds(us))
    && (forall h :: h in AllIds(ts) ==> (h in m'.frames <==> h in AllIds(us)))
    && (forall h :: h in AllIds(us) ==> h in AllIds(ts) || h !in m.frames)
    && AllIds(us[..params]) <= AllIds(ts[..params]) && id !in AllIds(us)
    && Counted(m, m', 0)
  }

  lemma PrefixIds<V>(ts: seq<Thunk<V>>, n: nat)
    requires n <= |ts|
    ensures AllIds(ts[..n]) <= AllIds(ts)
  {
    assert ts == ts[..n] + ts[n..];
    Appended(map[], ts[..n], ts[n..]);
  }

  lemma Chain<V>(m: Machine<V>, m': Machine<V>, t: Machine<V>, id: Handle, ts: seq<Thunk<V>>, us: seq<Thunk<V>>,
                 params: nat, r: Outcome<V>)
    requires id in m.frames && params <= |ts| && Leads(m, m', id, ts, us, params) && Ran(m', t, id, us, params, r)
    requires forall h :: h in AllIds(ts) ==> h in m.frames
    ensures Ran(m, t, id, ts, params, r)
  {
    PrefixIds(ts, params);
    PrefixIds(us, params);
  }

  // ---------------------------------------------------------------------------
  // One kind of step after the other
  // ---------------------------------------------------------------------------

  lemma ReturnEnds<V>(m: Machine<V>, id: Handle, f: seq<V> -> V, locals: seq<V>, ts: seq<Thunk<V>>, params: nat)
    requires Running(m, id, Return(f), locals, ts, params)
    ensures Ended(m, Step(m), id, ts, params, Eval(Return(f), locals, ts, params, id, m.obs, m.next))
  {
    var passed, made := ts[..params], ts[params..];
    assert ts == passed + made;
    Appended(m.frames, passed, made);
    assert Handles(ts)[params..] == Handles(made) && Handles(ts)[..params] == Handles(passed);
    DestroyTakes(m.frames, made);
    LaidThere(m.frames, passed);
    LaidElsewhere(m.frames, Step(m).frames, passed);
  }

  /** Creating a task that runs child and owns taken, with left staying in the slots. */
  lemma CreatedSlots<V>(m: Machine<V>, m': Machine<V>, id: Handle, t: Thunk<V>, left: seq<Thunk<V>>, ts: seq<Thunk<V>>)
    requires t.Fresh? && Parted(m.frames, ts, t.tasks, left) && AllIds(ts) <= m.frames.Keys && id !in AllIds(ts)
    requires t.id !in m.frames
    requires t.id in m'.frames && m'.frames[t.id] == FrameOf(t)
    requires SameElsewhere(m, m', id, {t.id})
    ensures var us := left + [t];
            && AllLaid(m'.frames, us) && AllDistinct(us) && AllIds(us) == AllIds(ts) + {t.id}
            && Handles(us) == Handles(left) + [Some(t.id)]
  {
    LaidElsewhere(m.frames, m'.frames, t.tasks);
    LaidElsewhere(m.frames, m'.frames, left);
    One(m'.frames, t);
    Appended(m'.frames, left, [t]);
  }

  lemma CreateLeads<V>(m: Machine<V>, id: Handle, a: seq<V> -> V, child: Body<V>, ks: seq<nat>, rest: Body<V>,
                       locals: seq<V>, ts: seq<Thunk<V>>, params: nat)
    requires Running(m, id, Create(a, child, ks, rest), locals, ts, params)
    ensures var (taken, left) := (Passed(ts, ks, Gone), Kept(ts, ks, Gone));
            var us := left + [Fresh(m.next, child, [a(locals)], taken)];
            Running(Step(m), id, rest, locals, us, params) && Leads(m, Step(m), id, ts, us, params)
  {
    var (taken, left) := (Passed(ts, ks, Gone), Kept(ts, ks, Gone));
    var t := Fresh(m.next, child, [a(locals)], taken);
    TakeIs(ts, ks, Gone);
    TakeHandles(ts, ks);
    TakeParts(m.frames, ts, ks);
    TakeFromParams(ts, ks, params);
    LaidThere(m.frames, ts);
    CreatedSlots(m, Step(m), id, t, left, ts);
    assert (left + [t])[..params] == left[..params];
  }

  lemma DropLeads<V>(m: Machine<V>, id: Handle, k: nat, rest: Body<V>, locals: seq<V>, ts: seq<Thunk<V>>, params: nat)
    requires Running(m, id, Drop(k, rest), locals, ts, params)
    ensures var us := if k < |ts| then ts[k := Gone] else ts;
            Running(Step(m), id, rest, locals, us, params) && Leads(m, Step(m), id, ts, us, params)
  {
    var t := if k < |ts| then ts[k] else Gone;
    var m' := Step(m);
    assert Handles([t]) == [m.frames[id].Slot(k)];
    One(m.frames, t);
    LaidThere(m.frames, ts);
    if k < |ts| {
      Around(m.frames, ts, k);
      Put(m'.frames, ts, k, Gone);
      DestroyTakes(m.frames, [t]);
      LaidElsewhere(m.frames, m'.frames, Others(ts, k));
      PutInParams(ts, k, Gone, params);
    } else {
      DestroyTakes(m.frames, [t]);
      LaidElsewhere(m.frames, m'.frames, ts);
    }
  }

  /** Filling slot k with what owns no more leaves no more in the slots of the parameters. */
  lemma PutInParams<V>(ts: seq<Thunk<V>>, k: nat, t: Thunk<V>, params: nat)
    requires k < |ts| && params <= |ts| && Ids(t) <= Ids(ts[k])
    ensures AllIds(ts[k := t][..params]) <= AllIds(ts[..params])
  {
    if k < params {
      assert ts[k := t][..params] == ts[..params][k := t];
      Put(map[], ts[..params], k, t);
      Around(map[], ts[..params], k);
    } else {
      assert ts[k := t][..params] == ts[..params];
    }
  }

  /** co_await of a task that was not awaited before: its frame runs. */
  lemma AwaitCalls<V>(m: Machine<V>, id: Handle, k: nat, rest: Body<V>, locals: seq<V>, ts: seq<Thunk<V>>, params: nat)
    requires Running(m, id, Await(k, rest), locals, ts, params) && k < |ts| && ts[k].Fresh?
    ensures var t := ts[k];
            var m' := Step(m);
            && Running(m', t.id, t.body, t.args, t.tasks, |t.tasks|)
            && m'.obs == Then(m.obs, Began(t.id)) && m'.next == m.next && m'.transfers == m.transfers + 1
            && id in m'.frames && m'.frames[id] == m.frames[id].(stage := Awaiting(t.id, rest, locals))
            && m'.frames[t.id].promise == Promise(None, Some(id), true)
            && SameElsewhere(m, m', id, {t.id})
  {
    var t := ts[k];
    Around(m.frames, ts, k);
    LaidThere(m.frames, ts);
    LaidElsewhere(m.frames, Step(m).frames, t.tasks);
  }

  /** And when that frame is done, the awaiting one goes on with its value, and the task is spent. */
  lemma AwaitReturns<V>(m: Machine<V>, m2: Machine<V>, id: Handle, k: nat, rest: Body<V>, locals: seq<V>,
                        ts: seq<Thunk<V>>, params: nat, r: Outcome<V>)
    requires Running(m, id, Await(k, rest), locals, ts, params) && k < |ts| && ts[k].Fresh? && r.Done?
    requires |r.tasks| == |ts[k].tasks|
    requires ts[k].id in Step(m).frames && Ended(Step(m), m2, ts[k].id, ts[k].tasks, |ts[k].tasks|, r)
    ensures var us := AfterAwait(ts, k, id, r);
            && Running(Step(m2), id, rest, locals + [r.value], us, params) && Leads(m, Step(m2), id, ts, us, params)
            && Step(m2).obs == r.obs && Step(m2).next == r.next
  {
    AwaitCalls(m, id, k, rest, locals, ts, params);
    var t := ts[k];
    var u := Spent(t.id, r.value, id, r.tasks);
    var m3 := Step(m2);
    assert t.tasks[..|t.tasks|] == t.tasks;
    Around(m.frames, ts, k);
    LaidThere(m.frames, ts);
    Put(m3.frames, ts, k, u);
    assert Ids(u) == {t.id} + AllIds(r.tasks) && Ids(t) == {t.id} + AllIds(t.tasks);
    LaidElsewhere(m.frames, m3.frames, Others(ts, k));
    LaidElsewhere(m2.frames, m3.frames, r.tasks);
    PutInParams(ts, k, u, params);
  }

  // ---------------------------------------------------------------------------
  // Whole runs
  // ---------------------------------------------------------------------------

  /** What frame id runs after a step that is not an await nor the last one, and the tasks it then
      holds; next is the handle of a task created. */
  ghost function After<V>(b: Body<V>, locals: seq<V>, ts: seq<Thunk<V>>, next: Handle): (r: (Body<V>, seq<Thunk<V>>))
    requires !b.Return? && !b.Await?
    ensures |r.1| >= |ts|
  {
    match b
    case Emit(_, rest) => (rest, ts)
    case If(c, thn, els) => (if c(locals) then thn else els, ts)
    case Create(a, child, ks, rest) =>
      var (taken, left) := (Passed(ts, ks, Gone), Kept(ts, ks, Gone));
      (rest, left + [Fresh(next, child, [a(locals)], taken)])
    case Drop(k, rest) => (rest, if k < |ts| then ts[k := Gone] else ts)
  }

  lemma AfterIsSmaller<V>(b: Body<V>, locals: seq<V>, ts: seq<Thunk<V>>, next: Handle)
    requires !b.Return? && !b.Await?
    ensures var (b', us) := After(b, locals, ts, next); Size(b') + AllSizes(us) < Size(b) + AllSizes(ts)
  {
    match b
    case Create(a, child, ks, rest) =>
      var (taken, left) := (Passed(ts, ks, Gone), Kept(ts, ks, Gone));
      TakeIs(ts, ks, Gone);
      TakeSize(ts, ks);
      AppendSize(left, [Fresh(next, child, [a(locals)], taken)]);
    case Drop(k, rest) => if k < |ts| { PutSize(ts, k, Gone); }
    case _ =>
  }

  lemma PlainLeads<V>(m: Machine<V>, id: Handle, b: Body<V>, locals: seq<V>, ts: seq<Thunk<V>>, params: nat)
    requires Running(m, id, b, locals, ts, params) && !b.Return? && !b.Await?
    ensures var (b', us) := After(b, locals, ts, m.next);
            Running(Step(m), id, b', locals, us, params) && Leads(m, Step(m), id, ts, us, params)
  {
    match b
    case Create(a, child, ks, rest) => CreateLeads(m, id, a, child, ks, rest, locals, ts, params);
    case Drop(k, rest) => DropLeads(m, id, k, rest, locals, ts, params);
    case _ =>
      LaidThere(m.frames, ts);
      LaidElsewhere(m.frames, Step(m).frames, ts);
  }

  /** From any machine in which it runs, a frame runs to its end, or to where the machine stops, with
      the value, the observations and the tasks of recursive evaluation. */
  lemma {:induction false} RunsAsEvaluated<V>(m: Machine<V>, id: Handle, b: Body<V>, locals: seq<V>,
                                              ts: seq<Thunk<V>>, params: nat) returns (n: nat)
    requires Running(m, id, b, locals, ts, params)
    ensures Ran(m, Steps(m, n), id, ts, params, Eval(b, locals, ts, params, id, m.obs, m.next))
    decreases Size(b) + AllSizes(ts), 2
  {
    if b.Await? && b.task < |ts| && ts[b.task].Fresh? {
      n := AwaitRuns(m, id, b.task, b.rest, locals, ts, params);
    } else if b.Await? || b.Return? {
      n := LastStep(m, id, b, locals, ts, params);
    } else {
      var (b', us) := After(b, locals, ts, m.next);
      AfterIsSmaller(b, locals, ts, m.next);
      PlainLeads(m, id, b, locals, ts, params);
      n := RunsAsEvaluated(Step(m), id, b', locals, us, params);
      LaidThere(m.frames, ts);
      Chain(m, Step(m), Steps(Step(m), n), id, ts, us, params, Eval(b, locals, ts, params, id, m.obs, m.next));
      n := 1 + n;
    }
  }

  /** The step that ends a frame's code, or stops the machine. */
  lemma LastStep<V>(m: Machine<V>, id: Handle, b: Body<V>, locals: seq<V>, ts: seq<Thunk<V>>,
                    params: nat) returns (n: nat)
    requires Running(m, id, b, locals, ts, params) && (b.Return? || (b.Await? && !(b.task < |ts| && ts[b.task].Fresh?)))
    ensures Ran(m, Steps(m, n), id, ts, params, Eval(b, locals, ts, params, id, m.obs, m.next))
  {
    n := 1;
    assert Steps(m, 1) == Steps(Step(m), 0);
    if b.Return? {
      ReturnEnds(m, id, b.result, locals, ts, params);
    } else {
      AwaitStops(m, id, b.task, b.rest, locals, ts, params);
    }
  }

  lemma AwaitStops<V>(m: Machine<V>, id: Handle, k: nat, rest: Body<V>, locals: seq<V>, ts: seq<Thunk<V>>, params: nat)
    requires Running(m, id, Await(k, rest), locals, ts, params) && !(k < |ts| && ts[k].Fresh?)
    ensures Ran(m, Step(m), id, ts, params, Eval(Await(k, rest), locals, ts, params, id, m.obs, m.next))
  {
    if k < |ts| {
      Around(m.frames, ts, k);
    }
  }

  /** The two halves of an await put together. */
  lemma AwaitConcludes<V>(m: Machine<V>, m2: Machine<V>, t: Machine<V>, id: Handle, k: nat, rest: Body<V>,
                          locals: seq<V>,
                          ts: seq<Thunk<V>>, params: nat, r: Outcome<V>)
    requires Running(m, id, Await(k, rest), locals, ts, params) && k < |ts| && ts[k].Fresh?
    requires r == Force(ts[k], m.obs, m.next) && r.Done?
    requires ts[k].id in Step(m).frames && Ended(Step(m), m2, ts[k].id, ts[k].tasks, |ts[k].tasks|, r)
    requires id in Step(m2).frames
    requires var us := AfterAwait(ts, k, id, r);
             Ran(Step(m2), t, id, us, params, Eval(rest, locals + [r.value], us, params, id, r.obs, r.next))
    ensures Ran(m, t, id, ts, params, Eval(Await(k, rest), locals, ts, params, id, m.obs, m.next))
  {
    var us := AfterAwait(ts, k, id, r);
    AwaitReturns(m, m2, id, k, rest, locals, ts, params, r);
    LaidThere(m.frames, ts);
    Chain(m, Step(m2), t, id, ts, us, params, Eval(rest, locals + [r.value], us, params, id, r.obs, r.next));
    AwaitEvaluates(k, rest, locals, ts, params, id, m.obs, m.next);
  }

  lemma AwaitEvaluates<V>(k: nat, rest: Body<V>, locals: seq<V>, ts: seq<Thunk<V>>, params: nat, id: Handle,
                          obs: Trace<V>, next: Handle)
    requires params <= |ts| && k < |ts| && ts[k].Fresh? && Force(ts[k], obs, next).Done?
    ensures var r := Force(ts[k], obs, next);
            Eval(Await(k, rest), locals, ts, params, id, obs, next) ==
            Eval(rest, locals + [r.value], AfterAwait(ts, k, id, r), params, id, r.obs, r.next)
  {
  }

  lemma {:induction false} AwaitedRuns<V>(m: Machine<V>, id: Handle, k: nat, rest: Body<V>, locals: seq<V>,
                                          ts: seq<Thunk<V>>, params: nat) returns (n: nat)
    requires Running(m, id, Await(k, rest), locals, ts, params) && k < |ts| && ts[k].Fresh?
    ensures ts[k].id in Step(m).frames
    ensures Ran(Step(m), Steps(m, n), ts[k].id, ts[k].tasks, |ts[k].tasks|, Force(ts[k], m.obs, m.next))
    decreases Size(Await(k, rest)) + AllSizes(ts), 0
  {
    var t := ts[k];
    AwaitCalls(m, id, k, rest, locals, ts, params);
    PutSize(ts, k, Gone);
    n := RunsAsEvaluated(Step(m), t.id, t.body, t.args, t.tasks, |t.tasks|);
    FirstStep(m, n);
    n := 1 + n;
  }

  lemma {:induction false} RestRuns<V>(m: Machine<V>, m2: Machine<V>, id: Handle, k: nat, rest: Body<V>, locals: seq<V>,
                                       ts: seq<Thunk<V>>, params: nat, r: Outcome<V>) returns (n: nat)
    requires Running(m, id, Await(k, rest), locals, ts, params) && k < |ts| && ts[k].Fresh?
    requires r == Force(ts[k], m.obs, m.next) && r.Done?
    requires ts[k].id in Step(m).frames && Ended(Step(m), m2, ts[k].id, ts[k].tasks, |ts[k].tasks|, r)
    ensures Ran(m, Steps(m2, n), id, ts, params, Eval(Await(k, rest), locals, ts, params, id, m.obs, m.next))
    decreases Size(Await(k, rest)) + AllSizes(ts), 0
  {
    var us := AfterAwait(ts, k, id, r);
    AwaitReturns(m, m2, id, k, rest, locals, ts, params, r);
    PutSize(ts, k, us[k]);
    n := RunsAsEvaluated(Step(m2), id, rest, locals + [r.value], us, params);
    AwaitConcludes(m, m2, Steps(Step(m2), n), id, k, rest, locals, ts, params, r);
    FirstStep(m2, n);
    n := 1 + n;
  }

  lemma {:induction false} AwaitRuns<V>(m: Machine<V>, id: Handle, k: nat, rest: Body<V>, locals: seq<V>,
                                        ts: seq<Thunk<V>>, params: nat) returns (n: nat)
    requires Running(m, id, Await(k, rest), locals, ts, params) && k < |ts| && ts[k].Fresh?
    ensures Ran(m, Steps(m, n), id, ts, params, Eval(Await(k, rest), locals, ts, params, id, m.obs, m.next))
    decreases Size(Await(k, rest)) + AllSizes(ts), 1
  {
    n := AwaitedRuns(m, id, k, rest, locals, ts, params);
    var r := Force(ts[k], m.obs, m.next);
    if r.Done? {
      var j := RestRuns(m, Steps(m, n), id, k, rest, locals, ts, params, r);
      StepsAdd(m, n, j);
      n := n + j;
    } else {
      StopInside(k, rest, locals, ts, params, id, m.obs, m.next);
    }
  }

  lemma StopInside<V>(k: nat, rest: Body<V>, locals: seq<V>, ts: seq<Thunk<V>>, params: nat, id: Handle,
                       obs: Trace<V>, next: Handle)
    requires params <= |ts| && k < |ts| && ts[k].Fresh? && Force(ts[k], obs, next).Stopped?
    ensures Eval(Await(k, rest), locals, ts, params, id, obs, next) == Force(ts[k], obs, next)
  {
  }

  lemma FirstStep<V>(m: Machine<V>, k: nat)
    ensures Steps(m, 1 + k) == Steps(Step(m), k)
  {
  }

  // ---------------------------------------------------------------------------
  // Main results
  // ---------------------------------------------------------------------------

  /** A task about to be resumed by someone who is not a coroutine, with the tasks it was given. */
  ghost predicate Launched<V>(m: Machine<V>, t: Thunk<V>) {
    && t.Fresh? && Distinct(t) && Laid(m.frames, t) && m.frames.Keys == Ids(t)
    && m.current == Some(t.id) && m.obs == Then(Start, Began(t.id)) && m.transfers == 0 && m.stopped == None
    && (forall h :: h in Ids(t) ==> h < m.next)
  }

  /** A task without task parameters, launched. */
  function Root<V>(body: Body<V>, args: seq<V>): Machine<V> {
    Machine(map[0 := NewFrame(body, args, [])], Some(0), 1, Then(Start, Began(0)), 0, None)
  }

  lemma RootIsLaunched<V>(body: Body<V>, args: seq<V>)
    ensures Launched(Root(body, args), Fresh(0, body, args, []))
  {
    assert Handles<V>([]) == [];
  }

  /** Symmetric transfer preserves meaning, for every program and every task tree: jumping between
      frames ends, with the value and the observations of recursive evaluation. Of the frames, only
      the task's own and those of the tasks it was given are left. The program aborts exactly when
      evaluation awaits a task for the second time; where evaluation awaits a task that is gone, which
      is undefined, the model stops. */
  lemma SymmetricTransferIsEvaluation<V>(m: Machine<V>, t: Thunk<V>) returns (n: nat)
    requires Launched(m, t)
    ensures var r := Force(t, Start, m.next);
            var z := Steps(m, n);
            match r
            case Stopped(fault, obs) => z.stopped == Some(fault) && z.obs == obs
            case Done(value, tasks, obs, next) =>
              && z.stopped == None && z.current == None && z.obs == obs && z.next == next
              && z.frames.Keys == {t.id} + AllIds(tasks) && AllLaid(z.frames, tasks)
              && z.frames[t.id] == Frame(Final, |t.tasks|, Handles(tasks), Promise(Some(value), None, false))
              && z.transfers == 2 * |Starts(obs)| - 1
  {
    n := RunsAsEvaluated(m, t.id, t.body, t.args, t.tasks, |t.tasks|);
    assert t.tasks[..|t.tasks|] == t.tasks;
    assert Starts(m.obs) == [t.id];
  }

  ghost function Ends<V>(obs: Trace<V>): multiset<Handle> {
    match obs
    case Start => multiset{}
    case Then(before, Ended(h, _)) => Ends(before) + multiset{h}
    case Then(before, _) => Ends(before)
  }

  /** How often h has begun and not ended. */
  ghost function Open<V>(obs: Trace<V>, h: Handle): int {
    match obs
    case Start => 0
    case Then(before, Began(f)) => Open(before, h) + (if f == h then 1 else 0)
    case Then(before, Ended(f, _)) => Open(before, h) - (if f == h then 1 else 0)
    case Then(before, Effect(_, _)) => Open(before, h)
  }

  lemma {:induction false} OpenCounts<V>(obs: Trace<V>, h: Handle)
    ensures Open(obs, h) + Ends(obs)[h] == multiset(Starts(obs))[h]
  {
    if obs.Then? {
      OpenCounts(obs.before, h);
    }
  }

  /** From the start to the end of a frame's code, all other frames that start also end. */
  lemma {:induction false} EveryStartEnds<V>(h: Handle, b: Body<V>, locals: seq<V>, ts: seq<Thunk<V>>, params: nat,
                                             self: Handle, obs: Trace<V>, next: Handle)
    requires params <= |ts|
    ensures var r := Eval(b, locals, ts, params, self, obs, next);
            r.Done? ==> Open(r.obs, h) == Open(obs, h) - (if h == self then 1 else 0)
    decreases Size(b) + AllSizes(ts), 1
  {
    if b.Emit? {
      EveryStartEnds(h, b.rest, locals, ts, params, self, Then(obs, Effect(self, b.effect(locals))), next);
    } else if b.If? || b.Create? || b.Drop? {
      var (b', us) := After(b, locals, ts, next);
      AfterIsSmaller(b, locals, ts, next);
      EveryStartEnds(h, b', locals, us, params, self, obs, if b.Create? then next + 1 else next);
    } else if b.Await? && b.task < |ts| && ts[b.task].Fresh? {
      AwaitEnds(h, b.task, b.rest, locals, ts, params, self, obs, next);
    }
  }

  lemma {:induction false} AwaitEnds<V>(h: Handle, k: nat, rest: Body<V>, locals: seq<V>, ts: seq<Thunk<V>>,
                                        params: nat, self: Handle, obs: Trace<V>, next: Handle)
    requires params <= |ts| && k < |ts| && ts[k].Fresh?
    ensures var r := Eval(Await(k, rest), locals, ts, params, self, obs, next);
            r.Done? ==> Open(r.obs, h) == Open(obs, h) - (if h == self then 1 else 0)
    decreases Size(Await(k, rest)) + AllSizes(ts), 0
  {
    var t := ts[k];
    PutSize(ts, k, Gone);
    EveryStartEnds(h, t.body, t.args, t.tasks, |t.tasks|, t.id, Then(obs, Began(t.id)), next);
    var r := Force(t, obs, next);
    if r.Done? {
      var us := AfterAwait(ts, k, self, r);
      PutSize(ts, k, us[k]);
      EveryStartEnds(h, rest, locals + [r.value], us, params, self, r.obs, r.next);
      AwaitEvaluates(k, rest, locals, ts, params, self, obs, next);
    }
  }

  lemma {:induction false} TakeMembers<T>(s: seq<T>, ks: seq<nat>, none: T, x: T)
    requires x !in s && x != none
    ensures var (taken, left) := Take(s, ks, none); x !in taken && x !in left
    decreases |ks|
  {
    if ks != [] {
      TakeMembers(if ks[0] < |s| then s[ks[0] := none] else s, ks[1..], none, x);
    }
  }

  /** Frames that have started were awaited, or are the first; and nobody owns that one. */
  ghost predicate StartedOnce<V>(m: Machine<V>, root: Handle) {
    && NoDup(Starts(m.obs)) && root < m.next
    && (forall h :: h in Starts(m.obs) ==> h < m.next && (h in m.frames ==> h == root || m.frames[h].promise.awaited))
    && (forall h :: h in m.frames ==> h < m.next && Some(root) !in m.frames[h].slots)
  }

  lemma CreateStartsOnce<V>(m: Machine<V>, root: Handle, id: Handle)
    requires StartedOnce(m, root) && m.current == Some(id) && id in m.frames
    requires m.frames[id].stage.At? && m.frames[id].stage.rest.Create?
    ensures StartedOnce(Step(m), root)
  {
    TakeMembers(m.frames[id].slots, m.frames[id].stage.rest.passed, None, Some(root));
  }

  lemma AwaitStartsOnce<V>(m: Machine<V>, root: Handle, id: Handle)
    requires StartedOnce(m, root) && m.current == Some(id) && id in m.frames
    requires m.frames[id].stage.At? && m.frames[id].stage.rest.Await?
    ensures StartedOnce(Step(m), root)
  {
    var f := m.frames[id];
    var k := f.stage.rest.task;
    assert f.Slot(k).Some? ==> f.Slot(k) in f.slots;
  }

  lemma StepStartsOnce<V>(m: Machine<V>, root: Handle)
    requires StartedOnce(m, root)
    ensures StartedOnce(Step(m), root)
  {
    if m.stopped == None && m.current.Some? && m.current.value in m.frames {
      var id := m.current.value;
      if m.frames[id].stage.At? && m.frames[id].stage.rest.Create? {
        CreateStartsOnce(m, root, id);
      } else if m.frames[id].stage.At? && m.frames[id].stage.rest.Await? {
        AwaitStartsOnce(m, root, id);
      }
    }
  }

  lemma {:induction false} StepsStartOnce<V>(m: Machine<V>, root: Handle, n: nat)
    requires StartedOnce(m, root)
    ensures StartedOnce(Steps(m, n), root)
    decreases n
  {
    if n > 0 {
      StepStartsOnce(m, root);
      StepsStartOnce(Step(m), root, n - 1);
    }
  }

  lemma {:induction false} LaidSlots<V>(frames: map<Handle, Frame<V>>, ts: seq<Thunk<V>>, root: Handle)
    requires AllLaid(frames, ts) && root !in AllIds(ts)
    ensures Some(root) !in Handles(ts)
    ensures forall h :: h in AllIds(ts) ==> h in frames && Some(root) !in frames[h].slots
  {
    if ts != [] {
      HandlesHead(ts);
      LaidSlots(frames, ts[1..], root);
      if !ts[0].Gone? {
        assert Ids(ts[0]) == {ts[0].id} + AllIds(ts[0].tasks);
        LaidSlots(frames, ts[0].tasks, root);
      }
    }
  }

  lemma TaskEnds<V>(t: Thunk<V>, next: Handle)
    requires t.Fresh?
    ensures var r := Force(t, Start, next); r.Done? ==> Ends(r.obs) == multiset(Starts(r.obs))
  {
    var r := Force(t, Start, next);
    if r.Done? {
      forall h ensures Ends(r.obs)[h] == multiset(Starts(r.obs))[h] {
        EveryStartEnds(h, t.body, t.args, t.tasks, |t.tasks|, t.id, Then(Start, Began(t.id)), next);
        OpenCounts(r.obs, h);
      }
    }
  }

  /** In every run each frame starts at most once, and unless the machine is stopped, each that
      started ends once. */
  lemma EachFrameRunsOnce<V>(m: Machine<V>, t: Thunk<V>) returns (n: nat)
    requires Launched(m, t)
    ensures forall k :: NoDup(Starts(Steps(m, k).obs))
    ensures var z := Steps(m, n); z.stopped == None ==> z.current == None && Ends(z.obs) == multiset(Starts(z.obs))
  {
    n := SymmetricTransferIsEvaluation(m, t);
    TaskEnds(t, m.next);
    assert Starts(m.obs) == [t.id];
    LaidSlots(m.frames, t.tasks, t.id);
    forall k: nat ensures NoDup(Starts(Steps(m, k).obs)) {
      StepsStartOnce(m, t.id, k);
    }
  }
}

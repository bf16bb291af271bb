/** The frame allocator: one pool of size classes per thread, and blocks that may be freed on another
    thread than the one that allocated them. */
module FramePool {
  import opened Common
  import opened Runs

  type Ptr = nat

  const NUM_BUCKETS := 6
  const MAX_POOLED := 64

  /** The size class of a request, or -1 when it is too large to be pooled. */
  function GetBucket(size: nat): int {
    if size <= 64 then 0
    else if size <= 128 then 1
    else if size <= 256 then 2
    else if size <= 512 then 3
    else if size <= 1024 then 4
    else if size <= 2048 then 5
    else -1
  }

  function GetBucketSize(bucket: nat): nat
    requires bucket < NUM_BUCKETS
  {
    [64, 128, 256, 512, 1024, 2048][bucket]
  }

  /** The class of a request is the smallest one whose blocks are large enough. */
  lemma BucketIsBestFit(size: nat)
    ensures GetBucket(size) < 0 <==> forall b: nat :: b < NUM_BUCKETS ==> GetBucketSize(b) < size
    ensures GetBucket(size) >= 0 ==>
              var b := GetBucket(size);
              b < NUM_BUCKETS && GetBucketSize(b) >= size && forall c: nat :: c < b ==> GetBucketSize(c) < size
  {
    assert GetBucketSize(5) == 2048;
  }

  /** 64 doubled b times. */
  function Doubled(b: nat): nat {
    if b == 0 then 64 else 2 * Doubled(b - 1)
  }

  /** The classes in numbers: 64 bytes, doubled from class to class; requests over 2048 have none. */
  lemma ClassesInNumbers(size: nat)
    ensures GetBucket(size) < 0 <==> size > 2048
    ensures GetBucket(size) >= 0 ==>
              var b := GetBucket(size);
              b <= 5 && GetBucketSize(b) == Doubled(b) && size <= Doubled(b) && (b > 0 ==> Doubled(b - 1) < size)
  {
    assert Doubled(0) == 64 && Doubled(1) == 128 && Doubled(2) == 256;
    assert Doubled(3) == 512 && Doubled(4) == 1024 && Doubled(5) == 2048;
  }

  datatype Stats = Stats(allocations: nat, deallocations: nat, hits: nat, misses: nat, oversized: nat)

  datatype PoolFields = Pool(buckets: seq<seq<Ptr>>, stats: Stats)

  const EMPTY: PoolFields := Pool([[], [], [], [], [], []], Stats(0, 0, 0, 0, 0))

  type Pool = p: PoolFields | |p.buckets| == NUM_BUCKETS witness EMPTY

  /** The block handed out, and the capacity asked of the system when it is a new one; block is
      where the system would put a new one. */
  function OnAllocate(p: Pool, size: nat, block: Ptr): (Pool, Ptr, Option<nat>)
  {
    var st := p.stats.(allocations := p.stats.allocations + 1);
    var b := GetBucket(size);
    if b < 0 then
      (p.(stats := st.(oversized := st.oversized + 1)), block, Some(size))
    else
      var pool := p.buckets[b];
      if pool != [] then
        (Pool(p.buckets[b := pool[..|pool| - 1]], st.(hits := st.hits + 1)), pool[|pool| - 1], None)
      else
        (p.(stats := st.(misses := st.misses + 1)), block, Some(GetBucketSize(b)))
  }

  /** Whether the block, if there is one, went back to the system. */
  function OnDeallocate(p: Pool, ptr: Option<Ptr>, size: nat): (Pool, bool)
  {
    var st := p.stats.(deallocations := p.stats.deallocations + 1);
    var b := GetBucket(size);
    if ptr.None? then (p.(stats := st), false)
    else if b < 0 then (p.(stats := st), true)
    else if |p.buckets[b]| < MAX_POOLED then
      (Pool(p.buckets[b := p.buckets[b] + [ptr.value]], st), false)
    else (p.(stats := st), true)
  }

  ghost function Joined(buckets: seq<seq<Ptr>>): seq<Ptr> {
    if buckets == [] then [] else Joined(buckets[..|buckets| - 1]) + buckets[|buckets| - 1]
  }

  /** All pooled blocks go back to the system. */
  ghost function OnClear(p: Pool): (Pool, seq<Ptr>) {
    (EMPTY.(stats := p.stats), Joined(p.buckets))
  }

  class FramePool {
    const buckets: array<seq<Ptr>>
    var stats: Stats

    ghost function State(): PoolFields
      reads this, buckets
    {
      Pool(buckets[..], stats)
    }

    constructor ()
      ensures State() == EMPTY && fresh(buckets)
    {
      buckets := new seq<Ptr>[NUM_BUCKETS](_ => []);
      stats := Stats(0, 0, 0, 0, 0);
    }

    method DoAllocate(size: nat, block: Ptr) returns (ptr: Ptr, asked: Option<nat>)
      requires buckets.Length == NUM_BUCKETS
      modifies this, buckets
      ensures (State(), ptr, asked) == OnAllocate(old(State()), size, block)
    {
      stats := stats.(allocations := stats.allocations + 1);
      var b := GetBucket(size);
      if b < 0 {
        stats := stats.(oversized := stats.oversized + 1);
        return block, Some(size);
      }
      var pool := buckets[b];
      if pool != [] {
        ptr := pool[|pool| - 1];
        buckets[b] := pool[..|pool| - 1];
        stats := stats.(hits := stats.hits + 1);
        return ptr, None;
      }
      stats := stats.(misses := stats.misses + 1);
      return block, Some(GetBucketSize(b));
    }

    method DoDeallocate(ptr: Option<Ptr>, size: nat) returns (freed: bool)
      requires buckets.Length == NUM_BUCKETS
      modifies this, buckets
      ensures (State(), freed) == OnDeallocate(old(State()), ptr, size)
    {
      stats := stats.(deallocations := stats.deallocations + 1);
      if ptr.None? { return false; }
      var b := GetBucket(size);
      if b < 0 { return true; }
      if |buckets[b]| < MAX_POOLED {
        buckets[b] := buckets[b] + [ptr.value];
        return false;
      }
      return true;
    }

    method DoClear() returns (freed: seq<Ptr>)
      requires buckets.Length == NUM_BUCKETS
      modifies buckets
      ensures (State(), freed) == OnClear(old(State()))
    {
      freed := [];
      for b := 0 to buckets.Length
        invariant forall c :: 0 <= c < b ==> buckets[c] == []
        invariant forall c :: b <= c < buckets.Length ==> buckets[c] == old(buckets[c])
        invariant freed == Joined(old(buckets[..])[..b])
      {
        assert old(buckets[..])[..b + 1][..b] == old(buckets[..])[..b];
        freed := freed + buckets[b];
        buckets[b] := [];
      }
      assert old(buckets[..])[..buckets.Length] == old(buckets[..]);
      assert buckets[..] == EMPTY.buckets;
    }
  }

  // ---------------------------------------------------------------------------
  // The machine: any number of threads, one heap
  // ---------------------------------------------------------------------------

  type Thread = nat

  /** The blocks taken from the system with their capacities, the ones in use with the sizes asked
      for, the threads' pools, and, read by no code, the pool and bucket each free block is in. */
  datatype Sys = Sys(heap: map<Ptr, nat>, live: map<Ptr, nat>, pools: map<Thread, Pool>, home: map<Ptr, (Thread, nat)>)

  datatype Event =
    | Allocate(t: Thread, size: nat, block: Ptr)
    | Deallocate(t: Thread, ptr: Ptr, size: nat)
    | DeallocateNull(t: Thread, size: nat)
    | Clear(t: Thread)
    | ResetStats(t: Thread)
    | Exit(t: Thread)

  const INIT := Sys(map[], map[], map[], map[])

  function PoolOf(s: Sys, t: Thread): (p: Pool)
  {
    if t in s.pools then s.pools[t] else EMPTY
  }

  /** A new block is one the heap does not have, and a block is freed once, by its owner, with a size
      of the class it was allocated with. Events that break this are not taken. */
  ghost function Step(s: Sys, e: Event): Sys {
    match e
    case Allocate(t, size, block) =>
      if block in s.heap then s
      else
        var (pool, ptr, asked) := OnAllocate(PoolOf(s, t), size, block);
        s.(heap := if asked.Some? then s.heap[ptr := asked.value] else s.heap,
           live := s.live[ptr := size], pools := s.pools[t := pool], home := s.home - {ptr})
    case Deallocate(t, ptr, size) =>
      if ptr in s.live && GetBucket(size) == GetBucket(s.live[ptr]) then
        var (pool, freed) := OnDeallocate(PoolOf(s, t), Some(ptr), size);
        if freed then s.(heap := s.heap - {ptr}, live := s.live - {ptr}, pools := s.pools[t := pool])
        else s.(live := s.live - {ptr}, pools := s.pools[t := pool], home := s.home[ptr := (t, GetBucket(size))])
      else s
    case DeallocateNull(t, size) => s.(pools := s.pools[t := OnDeallocate(PoolOf(s, t), None, size).0])
    case Clear(t) => Cleared(s, t).(pools := s.pools[t := OnClear(PoolOf(s, t)).0])
    case ResetStats(t) => s.(pools := s.pools[t := PoolOf(s, t).(stats := EMPTY.stats)])
    case Exit(t) => Cleared(s, t).(pools := s.pools - {t})
  }

  /** The heap without the blocks in t's pool. */
  ghost function Cleared(s: Sys, t: Thread): Sys {
    var gone := Elements(OnClear(PoolOf(s, t)).1);
    s.(heap := s.heap - gone, home := s.home - gone)
  }

  // ---------------------------------------------------------------------------
  // The invariant
  // ---------------------------------------------------------------------------

  /** The capacity of the block a request is given. */
  function BlockSize(size: nat): nat {
    if GetBucket(size) < 0 then size else GetBucketSize(GetBucket(size))
  }

  /** A bucket holds, each once, the blocks whose home it is, and no more than it may. */
  ghost predicate BucketOk(home: map<Ptr, (Thread, nat)>, t: Thread, b: nat, bucket: seq<Ptr>) {
    && NoDup(bucket) && |bucket| <= MAX_POOLED
    && forall p :: p in bucket <==> p in home && home[p] == (t, b)
  }

  ghost predicate PoolOk(s: Sys, t: Thread) {
    var pool := PoolOf(s, t);
    && (forall b :: 0 <= b < NUM_BUCKETS ==> BucketOk(s.home, t, b, pool.buckets[b]))
    && pool.stats.allocations == pool.stats.hits + pool.stats.misses + pool.stats.oversized
  }

  /** A block of the heap is in use or in one bucket, never both, and its capacity fits. */
  ghost predicate BlocksOk(s: Sys) {
    && s.heap.Keys == s.live.Keys + s.home.Keys
    && s.live.Keys !! s.home.Keys
    && (forall p :: p in s.live ==> s.heap[p] == BlockSize(s.live[p]))
    && (forall p :: p in s.home ==> s.home[p].1 < NUM_BUCKETS && s.heap[p] == GetBucketSize(s.home[p].1))
  }

  ghost predicate Inv(s: Sys) {
    BlocksOk(s) && forall t :: PoolOk(s, t)
  }

  lemma PopBucket(home: map<Ptr, (Thread, nat)>, t: Thread, b: nat, bucket: seq<Ptr>)
    requires BucketOk(home, t, b, bucket) && bucket != []
    ensures BucketOk(home - {bucket[|bucket| - 1]}, t, b, bucket[..|bucket| - 1])
  {
  }

  lemma PushBucket(home: map<Ptr, (Thread, nat)>, t: Thread, b: nat, bucket: seq<Ptr>, ptr: Ptr)
    requires BucketOk(home, t, b, bucket) && ptr !in home && |bucket| < MAX_POOLED
    ensures BucketOk(home[ptr := (t, b)], t, b, bucket + [ptr])
  {
    assert ptr !in bucket;
  }

  lemma OtherBucket(home: map<Ptr, (Thread, nat)>, home': map<Ptr, (Thread, nat)>, t: Thread, b: nat, bucket: seq<Ptr>)
    requires BucketOk(home, t, b, bucket)
    requires forall p :: p in home && home[p] == (t, b) <==> p in home' && home'[p] == (t, b)
    ensures BucketOk(home', t, b, bucket)
  {
  }

  lemma AllocateKeepsBlocks(s: Sys, t: Thread, size: nat, block: Ptr)
    requires BlocksOk(s) && PoolOk(s, t)
    ensures BlocksOk(Step(s, Allocate(t, size, block)))
  {
    var b := GetBucket(size);
    if b >= 0 && PoolOf(s, t).buckets[b] != [] {
      var bucket := PoolOf(s, t).buckets[b];
      assert BucketOk(s.home, t, b, bucket) && bucket[|bucket| - 1] in bucket;
    }
  }

  lemma AllocateKeepsBucket(s: Sys, t: Thread, size: nat, block: Ptr, u: Thread, c: nat)
    requires BlocksOk(s) && PoolOk(s, t) && PoolOk(s, u) && c < NUM_BUCKETS && block !in s.heap
    ensures var r := Step(s, Allocate(t, size, block)); BucketOk(r.home, u, c, PoolOf(r, u).buckets[c])
  {
    var r := Step(s, Allocate(t, size, block));
    var b := GetBucket(size);
    var bucket := PoolOf(s, u).buckets[c];
    assert BucketOk(s.home, u, c, bucket);
    if b >= 0 && PoolOf(s, t).buckets[b] != [] {
      var top := PoolOf(s, t).buckets[b];
      assert BucketOk(s.home, t, b, top) && top[|top| - 1] in top;
      if (u, c) == (t, b) {
        PopBucket(s.home, t, b, bucket);
      } else {
        OtherBucket(s.home, r.home, u, c, bucket);
      }
    } else {
      OtherBucket(s.home, r.home, u, c, bucket);
    }
  }

  lemma AllocateKeepsPool(s: Sys, t: Thread, size: nat, block: Ptr, u: Thread)
    requires BlocksOk(s) && PoolOk(s, t) && PoolOk(s, u)
    ensures PoolOk(Step(s, Allocate(t, size, block)), u)
  {
    if block !in s.heap {
      forall c | 0 <= c < NUM_BUCKETS {
        AllocateKeepsBucket(s, t, size, block, u, c);
      }
    }
  }

  lemma DeallocateKeepsPool(s: Sys, t: Thread, ptr: Ptr, size: nat, u: Thread)
    requires BlocksOk(s) && PoolOk(s, t) && PoolOk(s, u)
    ensures PoolOk(Step(s, Deallocate(t, ptr, size)), u)
  {
    var r := Step(s, Deallocate(t, ptr, size));
    var b := GetBucket(size);
    forall c | 0 <= c < NUM_BUCKETS ensures BucketOk(r.home, u, c, PoolOf(r, u).buckets[c]) {
      var bucket := PoolOf(s, u).buckets[c];
      assert BucketOk(s.home, u, c, bucket);
      if r.home != s.home && (u, c) == (t, b) {
        PushBucket(s.home, t, b, bucket, ptr);
      } else {
        OtherBucket(s.home, r.home, u, c, bucket);
      }
    }
  }

  lemma {:induction false} JoinedMembers(buckets: seq<seq<Ptr>>, p: Ptr)
    ensures p in Joined(buckets) <==> exists b :: 0 <= b < |buckets| && p in buckets[b]
  {
    if buckets != [] {
      var n := |buckets| - 1;
      JoinedMembers(buckets[..n], p);
      assert buckets == buckets[..n] + [buckets[n]];
    }
  }

  lemma PoolMembers(s: Sys, t: Thread, p: Ptr)
    requires Inv(s)
    ensures p in Joined(PoolOf(s, t).buckets) <==> p in s.home && s.home[p].0 == t
  {
    assert PoolOk(s, t);
    JoinedMembers(PoolOf(s, t).buckets, p);
    if p in s.home && s.home[p].0 == t {
      assert BucketOk(s.home, t, s.home[p].1, PoolOf(s, t).buckets[s.home[p].1]);
      assert s.home[p] == (t, s.home[p].1);
    }
  }

  lemma ClearedHome(s: Sys, t: Thread)
    requires Inv(s)
    ensures forall p :: p in Cleared(s, t).home <==> p in s.home && s.home[p].0 != t
    ensures forall p :: p in Cleared(s, t).home ==> Cleared(s, t).home[p] == s.home[p]
    ensures forall p :: p in Cleared(s, t).heap <==> p in s.heap && (p in s.live || p in Cleared(s, t).home)
  {
    forall p ensures p in Joined(PoolOf(s, t).buckets) <==> p in s.home && s.home[p].0 == t {
      PoolMembers(s, t, p);
    }
  }

  lemma ClearedKeepsPool(s: Sys, e: Event, u: Thread)
    requires Inv(s) && (e.Clear? || e.Exit?)
    ensures PoolOk(Step(s, e), u)
  {
    var r := Step(s, e);
    assert PoolOk(s, u) && PoolOk(s, e.t);
    ClearedHome(s, e.t);
    forall b | 0 <= b < NUM_BUCKETS ensures BucketOk(r.home, u, b, PoolOf(r, u).buckets[b]) {
      if u != e.t {
        OtherBucket(s.home, r.home, u, b, PoolOf(s, u).buckets[b]);
      } else {
        assert PoolOf(r, u).buckets[b] == [];
      }
    }
  }

  lemma ClearedKeepsBlocks(s: Sys, e: Event)
    requires Inv(s) && (e.Clear? || e.Exit?)
    ensures BlocksOk(Step(s, e))
  {
    ClearedHome(s, e.t);
  }

  lemma StatsKeep(s: Sys, e: Event, u: Thread)
    requires Inv(s) && (e.DeallocateNull? || e.ResetStats?)
    ensures PoolOk(Step(s, e), u) && BlocksOk(Step(s, e))
  {
    assert PoolOk(s, u) && PoolOk(s, e.t);
  }

  lemma StepKeepsAt(s: Sys, e: Event, u: Thread)
    requires Inv(s)
    ensures PoolOk(Step(s, e), u) && BlocksOk(Step(s, e))
  {
    assert PoolOk(s, u) && PoolOk(s, e.t);
    match e
    case Allocate(t, size, block) =>
      AllocateKeepsPool(s, t, size, block, u);
      AllocateKeepsBlocks(s, t, size, block);
    case Deallocate(t, ptr, size) =>
      DeallocateKeepsPool(s, t, ptr, size, u);
    case DeallocateNull(_, _) => StatsKeep(s, e, u);
    case ResetStats(_) => StatsKeep(s, e, u);
    case Clear(_) =>
      ClearedKeepsPool(s, e, u);
      ClearedKeepsBlocks(s, e);
    case Exit(_) =>
      ClearedKeepsPool(s, e, u);
      ClearedKeepsBlocks(s, e);
  }

  lemma StepKeeps(s: Sys, e: Event)
    requires Inv(s)
    ensures Inv(Step(s, e))
  {
    StepKeepsAt(s, e, 0);
    forall u {
      StepKeepsAt(s, e, u);
    }
  }

  // ---------------------------------------------------------------------------
  // Main results
  // ---------------------------------------------------------------------------

  ghost function After(es: seq<Event>): Sys {
    Run(Step, INIT, es)
  }

  lemma Reachable(es: seq<Event>)
    ensures Inv(After(es))
  {
    forall s: Sys, e: Event | Inv(s) ensures Inv(Step(s, e)) {
      StepKeeps(s, e);
    }
    Invariant(Step, s => Inv(s), INIT, es);
  }

  /** With any number of threads, and blocks freed on other threads than they came from: a block is
      in use or in one bucket of one pool, once, and nothing else of the heap is kept; each bucket
      holds at most 64 blocks, all of its own size; and a pool's allocations are its hits, its
      misses and its oversized ones. */
  lemma BlocksAreConserved(es: seq<Event>, t: Thread, b: nat, u: Thread, c: nat, p: Ptr)
    requires b < NUM_BUCKETS && c < NUM_BUCKETS
    ensures var s := After(es);
            var bucket := PoolOf(s, t).buckets[b];
            && s.heap.Keys == s.live.Keys + s.home.Keys
            && (p in s.home <==> p in s.heap && p !in s.live)
            && (p in s.home ==> s.home[p].1 < NUM_BUCKETS && p in PoolOf(s, s.home[p].0).buckets[s.home[p].1])
            && (p in bucket ==> p in s.heap && p !in s.live && s.heap[p] == GetBucketSize(b))
            && (p in bucket && p in PoolOf(s, u).buckets[c] ==> (t, b) == (u, c))
            && NoDup(bucket) && |bucket| <= 64
            && var st := PoolOf(s, t).stats; st.allocations == st.hits + st.misses + st.oversized
  {
    Reachable(es);
    var s := After(es);
    assert PoolOk(s, t) && PoolOk(s, u);
    assert BucketOk(s.home, t, b, PoolOf(s, t).buckets[b]) && BucketOk(s.home, u, c, PoolOf(s, u).buckets[c]);
    if p in s.home {
      var (v, d) := s.home[p];
      assert PoolOk(s, v) && BucketOk(s.home, v, d, PoolOf(s, v).buckets[d]);
    }
  }

  /** Allocate never gives out a block that is in use, nor leaves it in any pool, and the block is
      large enough: exactly the size of its class, or of the request when that is too large to pool. */
  lemma AllocateGivesAFreeBlock(es: seq<Event>, t: Thread, size: nat, block: Ptr, u: Thread, b: nat)
    requires block !in After(es).heap && b < NUM_BUCKETS
    ensures var s := After(es);
            var ptr := OnAllocate(PoolOf(s, t), size, block).1;
            var r := Step(s, Allocate(t, size, block));
            && ptr !in s.live && ptr in r.live && ptr in r.heap
            && r.heap[ptr] == BlockSize(size) && BlockSize(size) >= size
            && ptr !in PoolOf(r, u).buckets[b]
  {
    Reachable(es);
    var s := After(es);
    var r := Step(s, Allocate(t, size, block));
    StepKeeps(s, Allocate(t, size, block));
    BucketIsBestFit(size);
    assert PoolOk(s, t) && PoolOk(r, u);
    assert BucketOk(r.home, u, b, PoolOf(r, u).buckets[b]);
    var ptr := OnAllocate(PoolOf(s, t), size, block).1;
    if ptr != block {
      assert BucketOk(s.home, t, GetBucket(size), PoolOf(s, t).buckets[GetBucket(size)]);
      assert ptr in PoolOf(s, t).buckets[GetBucket(size)];
    }
  }

  /** The blocks of t's pool that are of the class of a request; the last one is the top. */
  function Pooled(s: Sys, t: Thread, size: nat): seq<Ptr>
    requires size <= 2048
  {
    ClassesInNumbers(size);
    PoolOf(s, t).buckets[GetBucket(size)]
  }

  /** t's pool, with other blocks of the class of a request and other statistics, and nobody else's. */
  ghost predicate PoolChanged(s: Sys, r: Sys, t: Thread, size: nat, pooled: seq<Ptr>, stats: Stats)
    requires size <= 2048
  {
    ClassesInNumbers(size);
    PoolOf(r, t) == Pool(PoolOf(s, t).buckets[GetBucket(size) := pooled], stats) &&
    forall u :: u != t ==> PoolOf(r, u) == PoolOf(s, u)
  }

  ghost predicate OnlyCounted(s: Sys, r: Sys, t: Thread, stats: Stats) {
    PoolOf(r, t) == PoolOf(s, t).(stats := stats) && forall u :: u != t ==> PoolOf(r, u) == PoolOf(s, u)
  }

  /** What Allocate gives and what it counts: an oversized block from the system, else a hit, which is
      the top of the class, or a miss exactly if the class is empty. */
  lemma AllocateInNumbers(es: seq<Event>, t: Thread, size: nat, block: Ptr) returns (ptr: Ptr)
    requires block !in After(es).heap
    ensures var s := After(es);
            var r := After(es + [Allocate(t, size, block)]);
            var before := PoolOf(s, t).stats;
            var st := before.(allocations := before.allocations + 1);
            && ptr !in s.live && r.live == s.live[ptr := size]
            && (size > 2048 ==>
                  ptr == block && r.heap == s.heap[block := size] &&
                  OnlyCounted(s, r, t, st.(oversized := st.oversized + 1)))
            && (size <= 2048 && Pooled(s, t, size) == [] ==>
                  ptr == block && r.heap == s.heap[block := Doubled(GetBucket(size))] &&
                  OnlyCounted(s, r, t, st.(misses := st.misses + 1)))
            && (size <= 2048 && Pooled(s, t, size) != [] ==>
                  Pooled(s, t, size) == Pooled(r, t, size) + [ptr] && r.heap == s.heap &&
                  PoolChanged(s, r, t, size, Pooled(r, t, size), st.(hits := st.hits + 1)))
  {
    var s := After(es);
    ClassesInNumbers(size);
    AllocateGivesAFreeBlock(es, t, size, block, t, 0);
    assert (es + [Allocate(t, size, block)])[..|es|] == es;
    ptr := if size <= 2048 && Pooled(s, t, size) != [] then Pooled(s, t, size)[|Pooled(s, t, size)| - 1] else block;
  }

  /** What Deallocate does with a block in use and what it counts: the block becomes the top of its
      class if that has fewer than 64 blocks, and otherwise goes back to the system, as oversized ones do.
      Without a block the call is counted and does nothing else. */
  lemma DeallocateInNumbers(es: seq<Event>, t: Thread, ptr: Ptr, size: nat)
    requires ptr in After(es).live && GetBucket(size) == GetBucket(After(es).live[ptr])
    ensures var s := After(es);
            var r := After(es + [Deallocate(t, ptr, size)]);
            var before := PoolOf(s, t).stats;
            var st := before.(deallocations := before.deallocations + 1);
            && r.live == s.live - {ptr}
            && (size <= 2048 && |Pooled(s, t, size)| < 64 ==>
                  r.heap == s.heap && PoolChanged(s, r, t, size, Pooled(s, t, size) + [ptr], st))
            && (size > 2048 || |Pooled(s, t, size)| >= 64 ==>
                  r.heap == s.heap - {ptr} && OnlyCounted(s, r, t, st))
            && var x := After(es + [DeallocateNull(t, size)]);
               x.heap == s.heap && x.live == s.live && OnlyCounted(s, x, t, st)
  {
    ClassesInNumbers(size);
    assert (es + [Deallocate(t, ptr, size)])[..|es|] == es && (es + [DeallocateNull(t, size)])[..|es|] == es;
  }

  /** A block that was freed on a thread is the next one given out there for its class, unless the class
      was full; then the pool and the heap are as they were before. */
  lemma FreedIsReused(es: seq<Event>, t: Thread, ptr: Ptr, size: nat, again: nat, block: Ptr)
    requires ptr in After(es).live && GetBucket(size) == GetBucket(After(es).live[ptr]) == GetBucket(again)
    requires block !in After(es).heap && size <= 2048 && |Pooled(After(es), t, size)| < 64
    ensures var s := After(es);
            var r := After(es + [Deallocate(t, ptr, size)] + [Allocate(t, again, block)]);
            r.live == s.live[ptr := again] && r.heap == s.heap && PoolOf(r, t).buckets == PoolOf(s, t).buckets
  {
    ClassesInNumbers(again);
    DeallocateInNumbers(es, t, ptr, size);
    var freed := es + [Deallocate(t, ptr, size)];
    var given := AllocateInNumbers(freed, t, again, block);
    assert given == ptr;
    var b, pooled := GetBucket(size), Pooled(After(es), t, size);
    assert PoolOf(After(es), t).buckets[b := pooled + [ptr]][b := pooled] == PoolOf(After(es), t).buckets;
  }

  lemma {:induction false} JoinedOnce(buckets: seq<seq<Ptr>>)
    requires forall b :: 0 <= b < |buckets| ==> NoDup(buckets[b])
    requires forall b, c, p :: 0 <= b < c < |buckets| && p in buckets[b] ==> p !in buckets[c]
    ensures NoDup(Joined(buckets))
  {
    if buckets != [] {
      var n := |buckets| - 1;
      JoinedOnce(buckets[..n]);
      forall p | p in Joined(buckets[..n]) ensures p !in buckets[n] {
        JoinedMembers(buckets[..n], p);
      }
      assert forall i :: 0 <= i < |Joined(buckets[..n])| ==> Joined(buckets[..n])[i] !in buckets[n];
    }
  }

  lemma PoolOnce(s: Sys, t: Thread)
    requires PoolOk(s, t)
    ensures NoDup(Joined(PoolOf(s, t).buckets))
  {
    var buckets := PoolOf(s, t).buckets;
    assert forall b :: 0 <= b < NUM_BUCKETS ==> BucketOk(s.home, t, b, buckets[b]);
    JoinedOnce(buckets);
  }

  lemma GoneFromHeap(s: Sys, e: Event, p: Ptr)
    requires e.Clear? || e.Exit?
    ensures Step(s, e).live == s.live
    ensures p in Step(s, e).heap <==> p in s.heap && p !in Joined(PoolOf(s, e.t).buckets)
    ensures Step(s, e).heap == s.heap - Elements(Joined(PoolOf(s, e.t).buckets))
  {
  }

  /** Clear, and the end of a thread, give each block of the thread's pool back to the system once, and
      no other; the pool is empty afterwards and Clear keeps its statistics. */
  lemma ClearFreesThePool(es: seq<Event>, t: Thread, p: Ptr)
    ensures var s := After(es);
            var r := After(es + [Clear(t)]);
            var gone := OnClear(PoolOf(s, t)).1;
            && NoDup(gone) && (p in gone <==> exists b :: 0 <= b < NUM_BUCKETS && p in PoolOf(s, t).buckets[b])
            && (p in r.heap <==> p in s.heap && p !in gone) && r.live == s.live
            && PoolOf(r, t) == Pool([[], [], [], [], [], []], PoolOf(s, t).stats)
            && After(es + [Exit(t)]) == r.(pools := s.pools - {t})
  {
    Reachable(es);
    var s := After(es);
    PoolOnce(s, t);
    JoinedMembers(PoolOf(s, t).buckets, p);
    GoneFromHeap(s, Clear(t), p);
    assert (es + [Clear(t)])[..|es|] == es && (es + [Exit(t)])[..|es|] == es;
    assert After(es + [Clear(t)]) == Step(s, Clear(t)) && After(es + [Exit(t)]) == Step(s, Exit(t));
  }
}

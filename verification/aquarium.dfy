/** The block allocator (src/interpreter/aquarium.c): blocks of one size from a chain of
    pools; the free blocks of a pool form a list that is threaded through the blocks
    themselves. */
module Aquarium {
  import opened Sequences
  import opened Chains

  const LARGE_SIZE := 128
  const LARGE_COUNT := 100000

  /** A pool; its outlet is the first free block, when there is one. */
  datatype Pool = Pool(inlet: int, outlet: int, count: nat, free: nat, used: nat)

  /** The pointer at the start of a block; blocks hold whatever their users write. */
  type Memory = map<int, int>

  // ----- one pool -----

  predicate InRegion(p: Pool, a: int) {
    p.inlet <= a < p.inlet + p.count * LARGE_SIZE
  }

  predicate IsBlock(p: Pool, a: int) {
    InRegion(p, a) && (a - p.inlet) % LARGE_SIZE == 0
  }

  /** Following the outlet for as many links as there are free blocks gives l. */
  predicate Threaded(mem: Memory, outlet: int, l: seq<int>) {
    (l != [] ==> outlet == l[0]) && (forall b <- l :: b in mem)
    && forall i :: 0 <= i < |l| - 1 ==> l[i] in mem && mem[l[i]] == l[i + 1]
  }

  predicate PoolOk(mem: Memory, p: Pool, l: seq<int>) {
    |l| == p.free && p.used + p.free == p.count && Threaded(mem, p.outlet, l) && NoRepeats(l)
    && forall b <- l :: IsBlock(p, b)
  }

  predicate Apart(p: Pool, q: Pool) {
    p.inlet + p.count * LARGE_SIZE <= q.inlet || q.inlet + q.count * LARGE_SIZE <= p.inlet
  }

  function BlockAt(p: Pool, i: nat): int {
    p.inlet + i * LARGE_SIZE
  }

  lemma BlockIndex(p: Pool, a: int)
    requires IsBlock(p, a)
    ensures var i := (a - p.inlet) / LARGE_SIZE; 0 <= i < p.count && a == BlockAt(p, i)
  {}

  /** The numbers of some blocks of a pool. */
  function Numbers(p: Pool, l: seq<int>): seq<int> {
    seq(|l|, i requires 0 <= i < |l| => (l[i] - p.inlet) / LARGE_SIZE)
  }

  /** Different numbers below n are no more than n. */
  lemma {:induction false} NoMoreThan(l: seq<int>, n: nat)
    requires NoRepeats(l) && forall y <- l :: 0 <= y < n
    ensures |l| <= n
    decreases n
  {
    if l != [] {
      assert l[0] in l;
    }
    if n > 0 && n - 1 in l {
      var i :| 0 <= i < |l| && l[i] == n - 1;
      WithoutAt(l, i);
      forall y <- Without(l, i) ensures 0 <= y < n - 1 {
        var k :| 0 <= k < |l| - 1 && Without(l, i)[k] == y;
        var j := if k < i then k else k + 1;
        assert l[j] == y && l[j] in l && l[j] != l[i];
      }
      NoMoreThan(Without(l, i), n - 1);
    } else if n > 0 {
      NoMoreThan(l, n - 1);
    }
  }

  /** As many different numbers below n as there are: all of them. */
  lemma Pigeonhole(l: seq<int>, n: nat, x: int)
    requires NoRepeats(l) && |l| == n && 0 <= x < n && forall y <- l :: 0 <= y < n
    ensures x in l
  {
    if x !in l {
      NoMoreThan(l + [x], n);
    }
  }

  /** A pool without used blocks has all its blocks in the free list. */
  lemma AllFree(mem: Memory, p: Pool, l: seq<int>, b: int)
    requires PoolOk(mem, p, l) && p.used == 0 && IsBlock(p, b)
    ensures b in l
  {
    var ns, x := Numbers(p, l), (b - p.inlet) / LARGE_SIZE;
    forall i | 0 <= i < |l| ensures 0 <= ns[i] < p.count && l[i] == BlockAt(p, ns[i]) {
      BlockIndex(p, l[i]);
    }
    BlockIndex(p, b);
    Pigeonhole(ns, p.count, x);
    var i :| 0 <= i < |ns| && ns[i] == x;
    assert l[i] == b;
  }

  lemma Taken(mem: Memory, p: Pool, l: seq<int>)
    requires PoolOk(mem, p, l) && p.free > 0
    ensures p.outlet == l[0] && p.outlet in mem
    ensures PoolOk(mem, p.(outlet := mem[p.outlet], used := p.used + 1, free := p.free - 1), l[1..])
  {
    assert l[0] in l;
    var l' := l[1..];
    forall i | 0 <= i < |l'| ensures l'[i] == l[i + 1] && l'[i] in l {}
    if l' != [] {
      assert mem[l[0]] == l[1];
    }
  }

  lemma Given(mem: Memory, p: Pool, l: seq<int>, b: int)
    requires PoolOk(mem, p, l) && IsBlock(p, b) && b !in l && p.used > 0
    ensures PoolOk(mem[b := p.outlet], p.(outlet := b, used := p.used - 1, free := p.free + 1), [b] + l)
  {
    var mem', l' := mem[b := p.outlet], [b] + l;
    forall i | 0 <= i < |l'| - 1 ensures l'[i] in mem' && mem'[l'[i]] == l'[i + 1] {
      if i > 0 {
        assert l'[i] == l[i - 1] && l[i - 1] in l;
      }
    }
  }

  /** Words outside the free blocks do not matter. */
  lemma OtherWords(mem: Memory, mem': Memory, p: Pool, l: seq<int>)
    requires PoolOk(mem, p, l) && forall b <- l :: b in mem' && (b in mem ==> mem'[b] == mem[b])
    ensures PoolOk(mem', p, l)
  {
    forall i | 0 <= i < |l| - 1 ensures l[i] in mem' && mem'[l[i]] == l[i + 1] {
      var b := l[i];
      assert b in l;
    }
  }

  // ----- all pools -----

  predicate Owns(vals: seq<Pool>, lists: seq<seq<int>>, k: nat, b: int)
    requires |vals| == |lists|
  {
    k < |vals| && IsBlock(vals[k], b) && b !in lists[k]
  }

  /** The live blocks are the blocks of the pools that are not in a free list. */
  ghost predicate Sound(mem: Memory, vals: seq<Pool>, lists: seq<seq<int>>, live: set<int>) {
    |vals| == |lists|
    && (forall k :: 0 <= k < |vals| ==> PoolOk(mem, vals[k], lists[k]))
    && (forall j, k :: 0 <= j < k < |vals| ==> Apart(vals[j], vals[k]))
    && (forall b <- live :: exists k: nat :: Owns(vals, lists, k, b))
    && (forall k: nat, b: int :: Owns(vals, lists, k, b) ==> b in live)
  }

  /** An address is in one pool at most. */
  lemma OnePool(vals: seq<Pool>, j: nat, k: nat, a: int)
    requires forall j, k :: 0 <= j < k < |vals| ==> Apart(vals[j], vals[k])
    requires j < |vals| && k < |vals| && InRegion(vals[j], a) && InRegion(vals[k], a)
    ensures j == k
  {}

  lemma NotElsewhere(vals: seq<Pool>, j: nat, k: nat, a: int)
    requires forall j, k :: 0 <= j < k < |vals| ==> Apart(vals[j], vals[k])
    requires j < |vals| && k < |vals| && j != k && InRegion(vals[k], a)
    ensures !InRegion(vals[j], a)
  {}

  lemma SoundTaken(mem: Memory, vals: seq<Pool>, lists: seq<seq<int>>, live: set<int>, k: nat)
    requires Sound(mem, vals, lists, live) && k < |vals| && vals[k].free > 0
    ensures var p := vals[k];
            p.outlet in mem && p.outlet !in live && lists[k] != []
            && Sound(mem, vals[k := p.(outlet := mem[p.outlet], used := p.used + 1, free := p.free - 1)],
                     lists[k := lists[k][1..]], live + {p.outlet})
  {
    hide PoolOk;
    var p, l := vals[k], lists[k];
    Taken(mem, p, l);
    FreeList(mem, p, l);
    var vals' := vals[k := p.(outlet := mem[p.outlet], used := p.used + 1, free := p.free - 1)];
    var lists' := lists[k := l[1..]];
    forall j: nat, b: int ensures Owns(vals', lists', j, b) <==> Owns(vals, lists, j, b) || (j == k && b == l[0]) {
      if j == k {
        assert b in l <==> b == l[0] || b in l[1..];
      }
    }
    if p.outlet in live {
      var j: nat :| Owns(vals, lists, j, p.outlet);
      OnePool(vals, j, k, p.outlet);
    }
    assert Owns(vals', lists', k, l[0]);
    forall b <- live + {p.outlet} ensures exists j: nat :: Owns(vals', lists', j, b) {
      if b in live {
        var j: nat :| Owns(vals, lists, j, b);
        assert Owns(vals', lists', j, b);
      }
    }
  }

  lemma FreeList(mem: Memory, p: Pool, l: seq<int>)
    requires PoolOk(mem, p, l)
    ensures |l| == p.free && NoRepeats(l) && forall b <- l :: IsBlock(p, b) && b in mem
  {}

  lemma SoundGiven(mem: Memory, vals: seq<Pool>, lists: seq<seq<int>>, live: set<int>, k: nat, b: int)
    requires Sound(mem, vals, lists, live) && b in live && k < |vals| && InRegion(vals[k], b)
    ensures var p := vals[k];
            p.used > 0 && IsBlock(p, b)
            && Sound(mem[b := p.outlet], vals[k := p.(outlet := b, used := p.used - 1, free := p.free + 1)],
                     lists[k := [b] + lists[k]], live - {b})
  {
    hide PoolOk;
    var p, l := vals[k], lists[k];
    var k1: nat :| Owns(vals, lists, k1, b);
    OnePool(vals, k, k1, b);
    if p.used == 0 {
      AllFree(mem, p, l, b);
      assert false;
    }
    Given(mem, p, l, b);
    var mem' := mem[b := p.outlet];
    var vals' := vals[k := p.(outlet := b, used := p.used - 1, free := p.free + 1)];
    var lists' := lists[k := [b] + l];
    forall j | 0 <= j < |vals| && j != k ensures PoolOk(mem', vals'[j], lists'[j]) {
      FreeList(mem, vals[j], lists[j]);
      NotElsewhere(vals, j, k, b);
      OtherWords(mem, mem', vals[j], lists[j]);
    }
    forall j: nat, a: int ensures Owns(vals', lists', j, a) <==> Owns(vals, lists, j, a) && a != b {
      if j != k && j < |vals| {
        NotElsewhere(vals, j, k, b);
      }
    }
    forall a <- live - {b} ensures exists j: nat :: Owns(vals', lists', j, a) {
      var j: nat :| Owns(vals, lists, j, a);
      assert Owns(vals', lists', j, a);
    }
  }

  /** The list of a new pool: all its blocks in order. */
  function NewList(inlet: int, count: nat): seq<int> {
    seq(count, i requires 0 <= i < count => inlet + i * LARGE_SIZE)
  }

  lemma SoundNew(mem: Memory, mem': Memory, vals: seq<Pool>, lists: seq<seq<int>>, live: set<int>, p: Pool)
    requires Sound(mem, vals, lists, live) && p == Pool(p.inlet, p.inlet, p.count, p.count, 0)
    requires Threaded(mem', p.inlet, NewList(p.inlet, p.count))
    requires forall k :: 0 <= k < |vals| ==> Apart(vals[k], p)
    requires Kept(mem, mem', p)
    ensures Sound(mem', vals + [p], lists + [NewList(p.inlet, p.count)], live)
  {
    var l := NewList(p.inlet, p.count);
    forall b <- l ensures IsBlock(p, b) {
      var i :| 0 <= i < |l| && l[i] == b;
      MultipleOf(i);
    }
    assert PoolOk(mem', p, l);
    hide PoolOk, NewList;
    var vals', lists' := vals + [p], lists + [l];
    forall k | 0 <= k < |vals| ensures PoolOk(mem', vals[k], lists[k]) {
      FreeList(mem, vals[k], lists[k]);
      forall b <- lists[k] ensures b in mem' && mem'[b] == mem[b] {
        assert Apart(vals[k], p) && IsBlock(vals[k], b);
      }
      OtherWords(mem, mem', vals[k], lists[k]);
    }
    forall j: nat, a: int ensures Owns(vals', lists', j, a) <==> Owns(vals, lists, j, a) {
      if j == |vals| && IsBlock(p, a) {
        AllFree(mem', p, l, a);
      }
    }
    forall a <- live ensures exists j: nat :: Owns(vals', lists', j, a) {
      var j: nat :| Owns(vals, lists, j, a);
      assert Owns(vals', lists', j, a);
    }
  }

  lemma MultipleOf(i: nat)
    ensures i * LARGE_SIZE % LARGE_SIZE == 0
  {}

  /** A pool without used blocks can go. */
  lemma SoundDropped(mem: Memory, vals: seq<Pool>, lists: seq<seq<int>>, live: set<int>, k: nat)
    requires Sound(mem, vals, lists, live) && k < |vals| && vals[k].used == 0
    ensures Sound(mem, Without(vals, k), Without(lists, k), live)
  {
    hide PoolOk;
    var vals', lists' := Without(vals, k), Without(lists, k);
    WithoutAt(vals, k);
    WithoutAt(lists, k);
    forall a <- live ensures exists j: nat :: Owns(vals', lists', j, a) {
      var j: nat :| Owns(vals, lists, j, a);
      if j == k {
        AllFree(mem, vals[k], lists[k], a);
        assert false;
      }
      assert Owns(vals', lists', if j < k then j else j - 1, a);
    }
    forall j: nat, a: int | Owns(vals', lists', j, a) ensures a in live {
      assert Owns(vals, lists, if j < k then j else j + 1, a);
    }
  }

  lemma SoundNothing()
    ensures Sound(map[], [], [], {})
  {}

  lemma SoundLengths(mem: Memory, vals: seq<Pool>, lists: seq<seq<int>>, live: set<int>)
    requires Sound(mem, vals, lists, live)
    ensures |vals| == |lists|
    ensures forall k :: 0 <= k < |vals| ==> PoolOk(mem, vals[k], lists[k])
  {}

  /** The pool a live block is in. */
  lemma LiveSomewhere(mem: Memory, vals: seq<Pool>, lists: seq<seq<int>>, live: set<int>, b: int)
    requires Sound(mem, vals, lists, live) && b in live
    ensures exists p <- vals :: InRegion(p, b)
  {
    var k: nat :| Owns(vals, lists, k, b);
    assert vals[k] in vals;
  }

  /** A user writes into a live block, anywhere. */
  lemma SoundWritten(mem: Memory, vals: seq<Pool>, lists: seq<seq<int>>, live: set<int>, b: int, offset: nat, word: int)
    requires Sound(mem, vals, lists, live) && b in live && offset < LARGE_SIZE
    ensures Sound(mem[b + offset := word], vals, lists, live)
  {
    hide PoolOk;
    var mem' := mem[b + offset := word];
    var k: nat :| Owns(vals, lists, k, b);
    forall j | 0 <= j < |vals| ensures PoolOk(mem', vals[j], lists[j]) {
      FreeList(mem, vals[j], lists[j]);
      forall a <- lists[j] ensures a != b + offset {
        if a == b + offset {
          BlockIndex(vals[k], b);
          OnePool(vals, j, k, a);
        }
      }
      OtherWords(mem, mem', vals[j], lists[j]);
    }
  }

  /** Live blocks do not overlap. */
  lemma NoOverlap(mem: Memory, vals: seq<Pool>, lists: seq<seq<int>>, live: set<int>, a: int, b: int)
    requires Sound(mem, vals, lists, live) && a in live && b in live && a < b
    ensures a + LARGE_SIZE <= b
  {
    var j: nat :| Owns(vals, lists, j, a);
    var k: nat :| Owns(vals, lists, k, b);
    BlockIndex(vals[j], a);
    BlockIndex(vals[k], b);
  }

  /** The first pool of the chain with a free block. */
  function FirstOpen(vals: seq<Pool>): (k: nat)
    ensures k <= |vals|
  {
    if vals == [] || vals[0].free > 0 then 0 else 1 + FirstOpen(vals[1..])
  }

  lemma {:induction false} FirstOpenIs(vals: seq<Pool>, k: nat)
    requires k <= |vals| && (k < |vals| ==> vals[k].free > 0) && forall j :: 0 <= j < k ==> vals[j].free == 0
    ensures FirstOpen(vals) == k
    decreases k
  {
    if k > 0 {
      FirstOpenIs(vals[1..], k - 1);
    }
  }

  // ----- the allocator -----

  /** Outside the region of p memory is as before. */
  ghost predicate Kept(mem: Memory, mem': Memory, p: Pool) {
    forall a <- mem :: a in mem' && (mem'[a] == mem[a] || InRegion(p, a))
  }

  lemma KeptMore(mem: Memory, mem': Memory, p: Pool, i: nat, word: int)
    requires Kept(mem, mem', p) && i < p.count
    ensures Kept(mem, mem'[BlockAt(p, i) := word], p)
  {}

  lemma NewThreaded(mem: Memory, p: Pool)
    requires p.count > 0 && BlockAt(p, p.count - 1) in mem
    requires forall i :: 0 <= i < p.count - 1 ==> BlockAt(p, i) in mem && mem[BlockAt(p, i)] == BlockAt(p, i + 1)
    ensures Threaded(mem, p.inlet, NewList(p.inlet, p.count))
  {
    var l := NewList(p.inlet, p.count);
    forall i | 0 <= i < |l| ensures l[i] == BlockAt(p, i) && l[i] in mem {}
  }

  /** The threading of a new pool in aqua_init_pool; the last block keeps what malloc
      left there. */
  method ThreadBlocks(mem: Memory, ghost p: Pool, inlet: int, count: nat, junk: int) returns (mem': Memory)
    requires count > 0 && p.inlet == inlet && p.count == count
    ensures Threaded(mem', inlet, NewList(inlet, count)) && Kept(mem, mem', p)
  {
    hide Kept, Threaded, NewList;
    mem' := mem[inlet + (count - 1) * LARGE_SIZE := junk];
    KeptNothing(mem, p);
    KeptMore(mem, mem, p, count - 1, junk);
    var here := inlet;
    var i := 0;
    while i < count - 1
      invariant 0 <= i <= count - 1 && here == BlockAt(p, i) && BlockAt(p, count - 1) in mem' && Kept(mem, mem', p)
      invariant forall j :: 0 <= j < i ==> BlockAt(p, j) in mem' && mem'[BlockAt(p, j)] == BlockAt(p, j + 1)
    {
      var next := here + LARGE_SIZE;
      KeptMore(mem, mem', p, i, next);
      mem' := mem'[here := next];
      here := next;
      i := i + 1;
    }
    NewThreaded(mem', p);
  }

  lemma KeptNothing(mem: Memory, p: Pool)
    ensures Kept(mem, mem, p)
  {}

  class Allocator {
    var mem: Memory
    var pools: Store<Pool>
    var largePool: int
    ghost var nodes: seq<nat>
    ghost var vals: seq<Pool>
    ghost var lists: seq<seq<int>>
    ghost var live: set<int>
    ghost var freed: set<nat>

    /** The pools are chained from largePool on, none of them given back to the system,
        and in order. */
    ghost predicate Valid()
      reads this
    {
      Linked(pools, largePool, nodes, vals) && vals != [] && Sound(mem, vals, lists, live)
      && (forall n <- nodes :: n !in freed) && forall n <- freed :: n < |pools|
    }

    /** malloc gives memory that no pool lies in. */
    ghost predicate Unused(inlet: int)
      reads this
    {
      forall p <- vals :: Apart(p, NewPool(inlet))
    }

    /** aqua_init. */
    constructor (inlet: int, junk: int)
      ensures Valid() && live == {} && vals == [NewPool(inlet)]
    {
      var m := ThreadBlocks(map[], NewPool(inlet), inlet, LARGE_COUNT, junk);
      mem := m;
      pools, largePool := [Cell(NewPool(inlet), NULL)], 0;
      nodes, vals, lists, live, freed := [0], [NewPool(inlet)], [NewList(inlet, LARGE_COUNT)], {}, {};
      new;
      hide NewList;
      SoundNothing();
      SoundNew(map[], mem, [], [], {}, NewPool(inlet));
      assert [] + [NewPool(inlet)] == vals && [] + [NewList(inlet, LARGE_COUNT)] == lists;
      assert LinkAt(pools, nodes, vals, 0);
    }

    /** aqua_find_pool_of, with the pool before it in the chain. */
    method FindPoolOf(ptr: int) returns (pool: int, prev: int, ghost k: nat)
      requires Valid()
      ensures k <= |nodes| == |vals| && prev == if k > 0 then nodes[k - 1] else NULL
      ensures pool == Pointer(nodes, k)
      ensures if pool == NULL then forall p <- vals :: !InRegion(p, ptr) else InRegion(vals[k], ptr)
      ensures pool != NULL <==> exists p <- vals :: InRegion(p, ptr)
    {
      hide Linked, Sound;
      ChainLength(pools, largePool, nodes, vals);
      pool, prev, k := largePool, NULL, 0;
      while pool != NULL
        invariant 0 <= k <= |nodes| && pool == Pointer(nodes, k) && prev == if k > 0 then nodes[k - 1] else NULL
        invariant forall p <- vals[..k] :: !InRegion(p, ptr)
        decreases |nodes| - k
      {
        LinkedBounds(pools, largePool, nodes, vals, k);
        if InRegion(pools[pool].value, ptr) {
          return;
        }
        prev := pool;
        pool := pools[pool].next;
        k := k + 1;
      }
      assert vals[..k] == vals;
    }

    method IsManagedPointer(ptr: int) returns (managed: bool)
      requires Valid()
      ensures managed <==> exists p <- vals :: InRegion(p, ptr)
    {
      hide Linked, Sound;
      var pool, prev;
      ghost var k;
      pool, prev, k := FindPoolOf(ptr);
      managed := pool != NULL;
      assert managed ==> vals[k] in vals;
    }

    /** aqua_request_next_block: a block of the first pool that has one, most recently
        released first. `inlet` is what malloc answers should a new pool be needed, and
        `junk` what its last block holds. Too large a request ends the program. */
    method RequestNextBlock(size: nat, inlet: int, junk: int) returns (ptr: int, exited: bool)
      requires Valid() && Unused(inlet)
      modifies this
      ensures exited <==> size > LARGE_SIZE
      ensures exited ==> mem == old(mem) && pools == old(pools) && vals == old(vals) && live == old(live)
      ensures !exited ==> Valid() && ptr !in old(live) && live == old(live) + {ptr}
      ensures !exited && FirstOpen(old(vals)) < |old(vals)| ==>
                var k := FirstOpen(old(vals));
                |lists| == |vals| == |old(vals)| == |old(lists)| && old(lists)[k] != []
                && ptr == old(lists)[k][0] && lists == old(lists)[k := old(lists)[k][1..]]
                && vals[k].used == old(vals)[k].used + 1 && InRegion(vals[k], ptr)
      ensures !exited && FirstOpen(old(vals)) == |old(vals)| ==>
                |vals| == |old(vals)| + 1 && ptr == inlet && lists == old(lists) + [NewList(inlet, LARGE_COUNT)[1..]]
    {
      hide Linked, Sound, NewList, FirstOpen;
      if size > LARGE_SIZE {
        return 0, true;
      }
      exited := false;
      ChainLength(pools, largePool, nodes, vals);
      SoundLengths(mem, vals, lists, live);
      var pool, prev := largePool, NULL;
      ghost var k := 0;
      FirstPool();
      while pool != NULL && pools[pool].value.free == 0
        invariant 0 <= k <= |nodes| && pool == Pointer(nodes, k) && prev == if k > 0 then nodes[k - 1] else NULL
        invariant k < |nodes| ==> pool < |pools| && pools[pool] == Cell(vals[k], Pointer(nodes, k + 1))
        invariant forall j :: 0 <= j < k ==> vals[j].free == 0
        modifies {}
        decreases |nodes| - k
      {
        prev := pool;
        pool := pools[pool].next;
        k := k + 1;
        if k < |nodes| {
          LinkedBounds(pools, largePool, nodes, vals, k);
        }
      }
      FirstOpenIs(vals, k);
      if pool == NULL {
        pool := AddPool(prev, inlet, junk);
        NewListStart(inlet);
      }
      ptr := Take(pool, k);
    }

    lemma FirstPool()
      requires Valid()
      ensures |nodes| == |vals| > 0 && largePool == nodes[0] < |pools|
      ensures pools[largePool] == Cell(vals[0], Pointer(nodes, 1))
    {
      LinkedBounds(pools, largePool, nodes, vals, 0);
    }

    /** A new pool at the end of the chain, behind the pool `last`. */
    method AddPool(last: int, inlet: int, junk: int) returns (pool: int)
      requires Valid() && Unused(inlet) && nodes != [] && last == nodes[|nodes| - 1]
      modifies this
      ensures Valid() && live == old(live) && |nodes| == |vals| == |old(vals)| + 1 && pool == nodes[|nodes| - 1]
      ensures vals == old(vals) + [NewPool(inlet)] && lists == old(lists) + [NewList(inlet, LARGE_COUNT)]
    {
      hide Linked, Sound, NewList;
      ChainLength(pools, largePool, nodes, vals);
      LinkedAppended(pools, largePool, nodes, vals, NewPool(inlet));
      var mem' := ThreadBlocks(mem, NewPool(inlet), inlet, LARGE_COUNT, junk);
      SoundNew(mem, mem', vals, lists, live, NewPool(inlet));
      pool := |pools|;
      mem := mem';
      pools := pools + [Cell(NewPool(inlet), NULL)];
      pools := pools[last := Cell(pools[last].value, pool)];
      nodes, vals, lists := nodes + [pool], vals + [NewPool(inlet)], lists + [NewList(inlet, LARGE_COUNT)];
    }

    /** The first free block of a pool that has one. */
    method Take(pool: int, ghost k: nat) returns (ptr: int)
      requires Valid() && k < |nodes| == |vals| == |lists| && pool == nodes[k] && vals[k].free > 0
      modifies this
      ensures Valid() && nodes == old(nodes) && |vals| == |old(vals)| && ptr !in old(live) && live == old(live) + {ptr}
      ensures old(lists)[k] != [] && ptr == old(lists)[k][0] && lists == old(lists)[k := old(lists)[k][1..]]
      ensures vals[k].used == old(vals)[k].used + 1 && InRegion(vals[k], ptr)
    {
      hide Linked, Sound;
      LinkedBounds(pools, largePool, nodes, vals, k);
      SoundTaken(mem, vals, lists, live, k);
      ghost var p' := vals[k].(outlet := mem[vals[k].outlet], used := vals[k].used + 1, free := vals[k].free - 1);
      LinkedUpdated(pools, largePool, nodes, vals, k, p');
      SoundOutlet(mem, vals, lists, live, k);
      var p := pools[pool].value;
      ptr := p.outlet;
      pools := pools[pool := Cell(p.(outlet := mem[ptr], used := p.used + 1, free := p.free - 1), pools[pool].next)];
      vals, lists, live := vals[k := p'], lists[k := lists[k][1..]], live + {ptr};
    }

    /** The block is the first free one of the k-th pool, which has one more. */
    ghost predicate HasBack(was: seq<Pool>, wasLists: seq<seq<int>>, k: nat, block: int)
      reads this`vals, this`lists
    {
      k < |was| == |wasLists| && was[k].used > 0 && lists == wasLists[k := [block] + wasLists[k]]
      && vals == was[k := was[k].(outlet := block, used := was[k].used - 1, free := was[k].free + 1)]
    }

    /** The k-th pool is gone. */
    ghost predicate HasLost(was: seq<Pool>, wasLists: seq<seq<int>>, k: nat)
      reads this`vals, this`lists
    {
      k < |was| == |wasLists| && vals == Without(was, k) && lists == Without(wasLists, k)
    }

    /** aqua_release. A pool that has no used block left goes back to the system. When
        that is the first pool, nothing is left to start from: the allocator stays in
        order exactly when the block is not the last used one of the first pool. */
    method Release(block: int) returns (exited: bool)
      requires Valid() && (block in live || forall p <- vals :: !InRegion(p, block))
      modifies this
      ensures exited <==> block !in old(live)
      ensures exited ==> mem == old(mem) && pools == old(pools) && vals == old(vals) && live == old(live)
      ensures !exited ==> live == old(live) - {block}
      ensures !exited ==>
                forall k: nat :: k < |old(vals)| && InRegion(old(vals)[k], block) ==>
                  k < |old(nodes)| && if old(vals)[k].used == 1
                                      then freed == old(freed) + {old(nodes)[k]}
                                        && (k > 0 ==> HasLost(old(vals), old(lists), k))
                                      else freed == old(freed) && HasBack(old(vals), old(lists), k, block)
      ensures !exited ==> (Valid() <==> !(InRegion(old(vals)[0], block) && old(vals)[0].used == 1))
    {
      hide Linked, Sound;
      FirstPool();
      var pool, prev;
      ghost var k;
      pool, prev, k := FindPoolOf(block);
      if pool == NULL {
        if block in live {
          LiveSomewhere(mem, vals, lists, live, block);
        }
        return true;
      }
      assert vals[k] in vals;
      exited := false;
      FirstOnly(mem, vals, lists, live, k, block);
      OneOnly(mem, vals, lists, live, k, block);
      ghost var was, wasLists := vals, lists;
      Give(block, pool, k);
      WithoutSame(was, k, vals[k]);
      WithoutSame(wasLists, k, lists[k]);
      if pools[pool].value.used == 0 {
        Drop(pool, prev, k);
      }
    }

    /** The block becomes the first free one of its pool. */
    method Give(block: int, pool: int, ghost k: nat)
      requires Valid() && block in live && k < |nodes| == |vals| && pool == nodes[k] && InRegion(vals[k], block)
      modifies this
      ensures Valid() && nodes == old(nodes) && freed == old(freed) && live == old(live) - {block}
      ensures HasBack(old(vals), old(lists), k, block) && pool < |pools| && pools[pool].value == vals[k]
    {
      hide Linked, Sound;
      LinkedBounds(pools, largePool, nodes, vals, k);
      SoundLengths(mem, vals, lists, live);
      SoundGiven(mem, vals, lists, live, k, block);
      ghost var p' := vals[k].(outlet := block, used := vals[k].used - 1, free := vals[k].free + 1);
      LinkedUpdated(pools, largePool, nodes, vals, k, p');
      var p := pools[pool].value;
      mem := mem[block := p.outlet];
      pools := pools[pool := Cell(p.(outlet := block, used := p.used - 1, free := p.free + 1), pools[pool].next)];
      vals, lists, live := vals[k := p'], lists[k := [block] + lists[k]], live - {block};
    }

    /** An empty pool is given back; the pointer to it is only redirected when it is the
        one of another pool. */
    method Drop(pool: int, prev: int, ghost k: nat)
      requires Valid() && k < |nodes| == |vals| == |lists| && pool == nodes[k] && vals[k].used == 0
      requires prev == if k > 0 then nodes[k - 1] else NULL
      modifies this
      ensures live == old(live) && (Valid() <==> k > 0) && freed == old(freed) + {pool}
      ensures k > 0 ==> HasLost(old(vals), old(lists), k)
    {
      hide Linked, Sound;
      LinkedBounds(pools, largePool, nodes, vals, k);
      var next := pools[pool].next;
      freed := freed + {pool};
      if prev != NULL {
        LinkedCut(pools, largePool, nodes, vals, k);
        SoundDropped(mem, vals, lists, live, k);
        CutNode(pools, largePool, nodes, vals, k);
        pools := pools[prev := Cell(pools[prev].value, next)];
        WithoutAt(nodes, k);
        WithoutAt(vals, k);
        nodes, vals, lists := Without(nodes, k), Without(vals, k), Without(lists, k);
      } else {
        assert nodes[0] in nodes;
      }
    }

    /** A user of a live block writes into it. */
    method Write(block: int, offset: nat, word: int)
      requires Valid() && block in live && offset < LARGE_SIZE
      modifies this`mem
      ensures Valid()
    {
      hide Linked, Sound;
      SoundWritten(mem, vals, lists, live, block, offset, word);
      mem := mem[block + offset := word];
    }
  }

  /** One block requested and released again: the allocator starts from memory that it has
      given back. */
  method ReleaseFirst(inlet: int, junk: int) returns (aq: Allocator)
    ensures fresh(aq) && aq.live == {} && !aq.Valid()
  {
    hide Linked, Sound, FirstOpen, Allocator.Valid;
    aq := new Allocator(inlet, junk);
    NewIsOpen(inlet);
    var ptr, refused := aq.RequestNextBlock(LARGE_SIZE, inlet + LARGE_COUNT * LARGE_SIZE, junk);
    var exited := aq.Release(ptr);
  }

  lemma NewIsOpen(inlet: int)
    ensures FirstOpen([NewPool(inlet)]) == 0
  {}

  function NewPool(inlet: int): Pool {
    Pool(inlet, inlet, LARGE_COUNT, LARGE_COUNT, 0)
  }

  lemma NewListStart(inlet: int)
    ensures |NewList(inlet, LARGE_COUNT)| == LARGE_COUNT && NewList(inlet, LARGE_COUNT)[0] == inlet
  {}

  lemma SoundOutlet(mem: Memory, vals: seq<Pool>, lists: seq<seq<int>>, live: set<int>, k: nat)
    requires Sound(mem, vals, lists, live) && k < |vals| && vals[k].free > 0
    ensures lists[k] != [] && vals[k].outlet == lists[k][0] && InRegion(vals[k], vals[k].outlet)
  {
    assert PoolOk(mem, vals[k], lists[k]) && lists[k][0] in lists[k];
  }

  lemma OneOnly(mem: Memory, vals: seq<Pool>, lists: seq<seq<int>>, live: set<int>, k: nat, b: int)
    requires Sound(mem, vals, lists, live) && k < |vals| && InRegion(vals[k], b)
    ensures forall j: nat :: j < |vals| && InRegion(vals[j], b) ==> j == k
  {
    forall j: nat | j < |vals| && InRegion(vals[j], b) ensures j == k {
      OnePool(vals, j, k, b);
    }
  }

  lemma WithoutSame<T>(s: seq<T>, k: nat, x: T)
    requires k < |s|
    ensures Without(s[k := x], k) == Without(s, k)
  {}

  /** The block is in the first pool exactly when its pool is the first one. */
  lemma FirstOnly(mem: Memory, vals: seq<Pool>, lists: seq<seq<int>>, live: set<int>, k: nat, b: int)
    requires Sound(mem, vals, lists, live) && k < |vals| && InRegion(vals[k], b)
    ensures InRegion(vals[0], b) <==> k == 0
  {
    if InRegion(vals[0], b) {
      OnePool(vals, 0, k, b);
    }
  }
}

/** The collector (src/interpreter/lky_gc.c): mark everything the program can still
    reach, then free the rest of the pool. */
module Gc {
  import opened Sequences
  import opened GcHeap
  import opened GcHashsets
  import opened GcMarking

  // ----- roots -----

  /** What the collector reads of a frame: the stack and the locals are buffers whose
      unused slots are empty. */
  datatype StackFrame = StackFrame(bucket: LkyObject, dataStack: seq<Slot>, locals: seq<Slot>, parents: seq<LkyObject>)

  /** A buffer is looked at up to its first empty slot. */
  function Scanned(stack: seq<Slot>): seq<Slot> {
    if stack == [] || stack[0].Empty? then [] else [stack[0]] + Scanned(stack[1..])
  }

  function FrameSlots(f: StackFrame): seq<Slot> {
    [Holding(f.bucket)] + Scanned(f.dataStack) + Scanned(f.locals) + All(f.parents)
  }

  function FramesSlots(fs: seq<StackFrame>): seq<Slot> {
    if fs == [] then [] else FrameSlots(fs[0]) + FramesSlots(fs[1..])
  }

  lemma {:induction false} ScannedPrefix(stack: seq<Slot>, k: nat)
    requires k <= |stack| && (k < |stack| ==> stack[k].Empty?) && forall j :: 0 <= j < k ==> !stack[j].Empty?
    ensures Scanned(stack) == stack[..k]
    decreases k
  {
    if k > 0 {
      ScannedPrefix(stack[1..], k - 1);
      assert stack[..k] == [stack[0]] + stack[1..][..k - 1];
    }
  }

  /** A slot counts exactly when no slot before it is empty: a local behind a hole
      does not protect its object. */
  lemma {:induction false} ScannedExactly(stack: seq<Slot>, i: nat)
    requires i < |stack| && stack[i].Holding? && forall j :: 0 <= j < |stack| && j != i ==> stack[j] != stack[i]
    ensures stack[i] in Scanned(stack) <==> forall j :: 0 <= j < i ==> !stack[j].Empty?
    decreases i
  {
    if !stack[0].Empty? && i > 0 {
      var rest := stack[1..];
      forall j | 0 <= j < |rest| && j != i - 1 ensures rest[j] != stack[i] {
        assert rest[j] == stack[j + 1];
      }
      ScannedExactly(rest, i - 1);
      forall j | 0 <= j < i - 1 ensures rest[j] == stack[j + 1] {}
      if forall j :: 0 <= j < i - 1 ==> !rest[j].Empty? {
        forall j | 0 <= j < i ensures !stack[j].Empty? {
          assert j > 0 ==> stack[j] == rest[j - 1];
        }
      }
    } else {
      assert stack[i] == stack[0] || i > 0;
    }
  }

  // ----- sizes -----

  ghost function Total(os: set<LkyObject>): nat {
    if os == {} then 0 else var o :| o in os; o.size + Total(os - {o})
  }

  lemma {:induction false} TotalWithout(os: set<LkyObject>, x: LkyObject)
    requires x in os
    ensures Total(os) == x.size + Total(os - {x})
    decreases os
  {
    var o :| o in os && Total(os) == o.size + Total(os - {o});
    if o != x {
      TotalWithout(os - {o}, x);
      TotalWithout(os - {x}, o);
      assert os - {o} - {x} == os - {x} - {o};
    }
  }

  lemma TotalNothing()
    ensures Total({}) == 0
  {}

  lemma AllRest(p0: set<LkyObject>, objs: seq<LkyObject>)
    requires forall o :: o in objs <==> o in p0
    ensures p0 == SetOf(objs[..|objs|])
  {
    assert objs[..|objs|] == objs;
  }

  lemma RestOne(p0: set<LkyObject>, seen: set<LkyObject>, objs: seq<LkyObject>, i: nat)
    requires NoRepeats(objs) && i < |objs| && p0 - seen == SetOf(objs[..i + 1])
    ensures objs[i] in p0 - seen && p0 - (seen + {objs[i]}) == SetOf(objs[..i])
  {
    assert objs[..i + 1] == objs[..i] + [objs[i]];
    assert p0 - (seen + {objs[i]}) == p0 - seen - {objs[i]};
  }

  lemma MarkedIs(heap: set<LkyObject>, o: LkyObject)
    requires o in heap
    ensures o.memCount != 0 <==> o in Marked(heap)
  {}

  lemma NoRest(objs: seq<LkyObject>)
    ensures SetOf(objs[..0]) == {}
  {}

  /** The pool and the marks when the objects `seen` of the pool p0 are swept. */
  ghost predicate Swept(p0: set<LkyObject>, m0: set<LkyObject>, seen: set<LkyObject>, p: set<LkyObject>,
                        m: set<LkyObject>) {
    p == (p0 - seen) + (seen * m0) && m == m0 - seen
  }

  lemma SweptNothing(p0: set<LkyObject>, m0: set<LkyObject>)
    ensures Swept(p0, m0, {}, p0, m0)
  {}

  lemma SweptAll(p0: set<LkyObject>, m0: set<LkyObject>, p: set<LkyObject>, m: set<LkyObject>)
    requires Swept(p0, m0, p0, p, m)
    ensures p == p0 * m0 && m == m0 - p0
  {}

  lemma SweptOne(p0: set<LkyObject>, m0: set<LkyObject>, seen: set<LkyObject>, p: set<LkyObject>, m: set<LkyObject>,
                 o: LkyObject)
    requires Swept(p0, m0, seen, p, m) && o in p0 && o !in seen
    ensures o in p && (o in m <==> o in m0)
    ensures Swept(p0, m0, seen + {o}, p - (if o in m0 then {} else {o}), m - {o})
    ensures Total((seen + {o}) * m0) == Total(seen * m0) + if o in m0 then o.size else 0
  {
    if o in m0 {
      TotalWithout((seen + {o}) * m0, o);
      assert (seen + {o}) * m0 - {o} == seen * m0;
    } else {
      assert (seen + {o}) * m0 == seen * m0;
    }
  }

  // ----- the collector -----

  class Collector {
    var pool: GcHashset
    var roots: seq<LkyObject>
    var functionStacks: seq<StackFrame>
    var moduleTables: seq<LkyObject>
    var maxSize: int
    var curSize: int
    var growthSize: int
    var markedSize: int
    var started: bool
    var paused: bool
    ghost var heap: set<LkyObject>

    function RootSlots(): seq<Slot>
      reads this`roots, this`functionStacks, this`moduleTables
    {
      All(roots) + FramesSlots(functionStacks) + All(moduleTables)
    }

    /** Everything the roots lead to is in the heap. */
    ghost predicate Grounded()
      reads this`roots, this`functionStacks, this`moduleTables, this`heap, heap`kind, heap`members
    {
      ClosedHeap(heap) && forall s <- RootSlots() :: !s.Empty? && (s.Holding? ==> s.o in heap)
    }

    ghost predicate Valid()
      reads this, pool, pool.buckets, heap`kind, heap`members
    {
      pool.Valid() && pool.elems <= heap && Grounded() && curSize == Total(pool.elems)
    }

    /** What the program can still reach, and what carries a mark already. */
    ghost function Live(): set<LkyObject>
      reads this`roots, this`functionStacks, this`moduleTables, this`heap, heap
    {
      set o | o in heap && (o.memCount != 0 || Leads(heap, Held(RootSlots()), Marked(heap), o))
    }

    /** gc_init. */
    constructor ()
      ensures Valid() && pool.elems == {} && heap == {} && roots == [] && functionStacks == [] && moduleTables == []
      ensures started && !paused && curSize == markedSize == 0 && maxSize == growthSize == 1600000
      ensures fresh(pool) && fresh(pool.buckets)
    {
      pool := new GcHashset(8);
      roots, functionStacks, moduleTables, heap := [], [], [], {};
      growthSize, markedSize, maxSize, curSize := 1600000, 0, 1600000, 0;
      started, paused := true, false;
    }

    method AddRootObject(obj: LkyObject)
      modifies this`roots
      ensures roots == if started then [obj] + old(roots) else old(roots)
    {
      if started {
        roots := [obj] + roots;
      }
    }

    /** The first occurrence is unlinked. */
    method RemoveRootObject(obj: LkyObject)
      modifies this`roots
      ensures if obj !in old(roots) then roots == old(roots)
              else exists i :: 0 <= i < |old(roots)| && old(roots)[i] == obj && obj !in old(roots)[..i]
                               && roots == old(roots)[..i] + old(roots)[i + 1..]
    {
      var i := 0;
      while i < |roots|
        invariant 0 <= i <= |roots| && roots == old(roots) && obj !in roots[..i]
      {
        if roots[i] == obj {
          roots := roots[..i] + roots[i + 1..];
          return;
        }
        i := i + 1;
      }
    }

    /** A new object enters the pool; its size is counted even when it is there already. */
    method AddObject(obj: LkyObject)
      requires Valid() && obj in heap && obj !in pool.elems
      modifies this`curSize, pool, pool.buckets
      ensures Valid() && pool.elems == old(pool.elems) + if started then {obj} else {}
      ensures pool.buckets == old(pool.buckets) || fresh(pool.buckets)
    {
      hide GcHashset.Valid, Grounded, Total;
      if !started {
        return;
      }
      pool.Add(obj);
      curSize := curSize + obj.size;
      TotalWithout(pool.elems, obj);
      assert pool.elems - {obj} == old(pool.elems);
    }

    /** Without stale marks, live is what the roots lead to. */
    lemma LiveIsReachable(o: LkyObject)
      requires Marked(heap) == {} && o in heap
      ensures o in Live() <==> Leads(heap, Held(RootSlots()), {}, o)
    {
      hide Leads;
      assert o.memCount != 0 ==> o in Marked(heap);
    }

    // ----- mark -----

    method MarkStack(stack: seq<Slot>)
      requires ClosedHeap(heap) && forall s <- Scanned(stack) :: !s.Empty? && (s.Holding? ==> s.o in heap)
      modifies heap`memCount
      ensures Spreads(heap, old(Marked(heap)), Marked(heap), Held(Scanned(stack)))
    {
      hide Spreads, Points;
      var i := 0;
      SpreadsNothing(heap, Marked(heap));
      assert Held(stack[..0]) == {};
      while i < |stack| && !stack[i].Empty?
        invariant 0 <= i <= |stack| && forall j :: 0 <= j < i ==> !stack[j].Empty?
        invariant Spreads(heap, old(Marked(heap)), Marked(heap), Held(stack[..i]))
      {
        ghost var m1 := Marked(heap);
        InScanned(stack, i);
        MarkObject(stack[i], heap);
        SpreadsMore(heap, old(Marked(heap)), m1, Held(stack[..i]), Marked(heap), Held([stack[i]]));
        assert Held(stack[..i + 1]) == Held(stack[..i]) + Held([stack[i]]);
        i := i + 1;
      }
      ScannedPrefix(stack, i);
    }

    method MarkFunctionStack(f: StackFrame)
      requires ClosedHeap(heap) && forall s <- FrameSlots(f) :: !s.Empty? && (s.Holding? ==> s.o in heap)
      modifies heap`memCount
      ensures Spreads(heap, old(Marked(heap)), Marked(heap), Held(FrameSlots(f)))
    {
      hide Spreads, Points, Scanned;
      ghost var m0 := Marked(heap);
      MarkObject(Holding(f.bucket), heap);
      ghost var m1 := Marked(heap);
      MarkStack(f.dataStack);
      ghost var m2 := Marked(heap);
      MarkStack(f.locals);
      ghost var m3 := Marked(heap);
      MarkAll(All(f.parents), heap);
      ghost var h1, h2, h3, h4 := Held([Holding(f.bucket)]), Held(Scanned(f.dataStack)), Held(Scanned(f.locals)),
                                  Held(All(f.parents));
      SpreadsMore(heap, m0, m1, h1, m2, h2);
      SpreadsMore(heap, m0, m2, h1 + h2, m3, h3);
      SpreadsMore(heap, m0, m3, h1 + h2 + h3, Marked(heap), h4);
      HeldPlus([Holding(f.bucket)], Scanned(f.dataStack));
      HeldPlus([Holding(f.bucket)] + Scanned(f.dataStack), Scanned(f.locals));
      HeldPlus([Holding(f.bucket)] + Scanned(f.dataStack) + Scanned(f.locals), All(f.parents));
    }

    method MarkFrames()
      requires ClosedHeap(heap) && forall s <- FramesSlots(functionStacks) :: !s.Empty? && (s.Holding? ==> s.o in heap)
      modifies heap`memCount
      ensures Spreads(heap, old(Marked(heap)), Marked(heap), Held(FramesSlots(functionStacks)))
    {
      hide Spreads, Points, FrameSlots;
      SpreadsNothing(heap, Marked(heap));
      var i := 0;
      assert FramesSlots(functionStacks[..0]) == [] && Held([]) == {};
      while i < |functionStacks|
        invariant 0 <= i <= |functionStacks|
        invariant Spreads(heap, old(Marked(heap)), Marked(heap), Held(FramesSlots(functionStacks[..i])))
      {
        ghost var m1, f := Marked(heap), functionStacks[i];
        FrameIn(functionStacks, i);
        MarkFunctionStack(functionStacks[i]);
        SpreadsMore(heap, old(Marked(heap)), m1, Held(FramesSlots(functionStacks[..i])), Marked(heap),
                    Held(FrameSlots(f)));
        FramesSnoc(functionStacks[..i], f);
        assert functionStacks[..i + 1] == functionStacks[..i] + [f];
        HeldPlus(FramesSlots(functionStacks[..i]), FrameSlots(f));
        i := i + 1;
      }
      assert functionStacks[..i] == functionStacks;
    }

    /** gc_mark. */
    method Mark()
      requires Valid()
      modifies heap`memCount
      ensures Valid() && Marked(heap) == old(Live())
    {
      hide Spreads, Points, FramesSlots;
      ghost var m0 := Marked(heap);
      RootParts();
      MarkAll(All(roots), heap);
      ghost var m1 := Marked(heap);
      MarkFrames();
      ghost var m2 := Marked(heap);
      MarkAll(All(moduleTables), heap);
      ghost var m3 := Marked(heap);
      ghost var h1, h2, h3 := Held(All(roots)), Held(FramesSlots(functionStacks)), Held(All(moduleTables));
      SpreadsMore(heap, m0, m1, h1, m2, h2);
      SpreadsMore(heap, m0, m2, h1 + h2, m3, h3);
      HeldPlus(All(roots), FramesSlots(functionStacks));
      HeldPlus(All(roots) + FramesSlots(functionStacks), All(moduleTables));
      SpreadsGrows(heap, m0, m3, Held(RootSlots()));
      forall x | x in heap ensures x in m3 <==> x in m0 || Leads(heap, Held(RootSlots()), m0, x) {
        SpreadsExactly(heap, m0, m3, Held(RootSlots()), x);
      }
    }

    lemma RootParts()
      requires Valid()
      ensures forall s <- All(roots) :: !s.Empty? && (s.Holding? ==> s.o in heap)
      ensures forall s <- FramesSlots(functionStacks) :: !s.Empty? && (s.Holding? ==> s.o in heap)
      ensures forall s <- All(moduleTables) :: !s.Empty? && (s.Holding? ==> s.o in heap)
    {
      forall s <- All(roots) ensures s in RootSlots() {}
      forall s <- FramesSlots(functionStacks) ensures s in RootSlots() {}
      forall s <- All(moduleTables) ensures s in RootSlots() {}
    }

    // ----- sweep -----

    /** One turn of the sweep. */
    method Sweep(o: LkyObject)
      requires Valid() && o in pool.elems
      modifies this`curSize, this`markedSize, pool, pool.buckets, o`memCount
      ensures Valid() && pool.buckets == old(pool.buckets)
      ensures pool.elems == old(pool.elems) - if old(o.memCount) == 0 then {o} else {}
      ensures markedSize == old(markedSize) + if old(o.memCount) == 0 then 0 else o.size
      ensures Marked(heap) == old(Marked(heap)) - {o}
    {
      hide GcHashset.Valid, Grounded, Total;
      TotalWithout(pool.elems, o);
      if o.memCount == 0 {
        curSize := curSize - o.size;
        pool.Remove(o);
      } else {
        markedSize := markedSize + o.size;
        o.memCount := 0;
      }
    }

    /** gc_collect: unmarked objects leave the pool, marked ones lose their mark. */
    method Collect()
      requires Valid()
      modifies this`curSize, this`markedSize, pool, pool.buckets, heap`memCount
      ensures Valid() && pool.elems == old(pool.elems) * old(Marked(heap)) && pool.buckets == old(pool.buckets)
      ensures Marked(heap) == old(Marked(heap)) - old(pool.elems)
      ensures markedSize == curSize
    {
      hide GcHashset.Valid, Grounded, Total, NoRepeats, SetOf, Marked;
      markedSize := 0;
      var objs := pool.ToList();
      pool.CountSize();
      AllRest(pool.elems, objs);
      SweepAll(objs);
    }

    /** From the last object of the list to the first. */
    method SweepAll(objs: seq<LkyObject>)
      requires Valid() && NoRepeats(objs) && pool.elems == SetOf(objs[..|objs|]) && markedSize == 0
      modifies this`curSize, this`markedSize, pool, pool.buckets, heap`memCount
      ensures Valid() && pool.elems == old(pool.elems) * old(Marked(heap)) && pool.buckets == old(pool.buckets)
      ensures Marked(heap) == old(Marked(heap)) - old(pool.elems)
      ensures markedSize == Total(pool.elems)
    {
      hide GcHashset.Valid, Grounded, Total, NoRepeats, Swept, SetOf, Marked;
      ghost var p0, m0, seen: set<LkyObject> := pool.elems, Marked(heap), {};
      TotalNothing();
      SweptNothing(p0, m0);
      assert seen * m0 == {};
      var i := |objs| - 1;
      while i >= 0
        invariant -1 <= i < |objs| && Valid() && pool.buckets == old(pool.buckets)
        invariant seen <= p0 && p0 - seen == SetOf(objs[..i + 1])
        invariant Swept(p0, m0, seen, pool.elems, Marked(heap)) && markedSize == Total(seen * m0)
      {
        var o := objs[i];
        RestOne(p0, seen, objs, i);
        MarkedIs(heap, o);
        SweptOne(p0, m0, seen, pool.elems, Marked(heap), o);
        Sweep(o);
        seen := seen + {o};
        i := i - 1;
      }
      NoRest(objs);
      assert seen == p0;
      SweptAll(p0, m0, pool.elems, Marked(heap));
    }

    /** gc_gc. One collection leaves in the pool what was live, clears the marks of all of
        it, and counts its sizes; what is live but not pooled keeps its mark. */
    method GcGc()
      requires Valid()
      modifies this`curSize, this`markedSize, this`maxSize, pool, pool.buckets, heap`memCount
      ensures Valid() && pool.buckets == old(pool.buckets)
      ensures if old(curSize) < old(maxSize) || paused then
                pool.elems == old(pool.elems) && Marked(heap) == old(Marked(heap)) && maxSize == old(maxSize)
              else
                pool.elems == old(pool.elems) * old(Live()) && Marked(heap) == old(Live()) - old(pool.elems)
                && markedSize == curSize == Total(pool.elems) && maxSize == markedSize + growthSize
    {
      hide GcHashset.Valid, Grounded, Total, Live;
      if curSize < maxSize {
        return;
      }
      if paused {
        return;
      }
      Mark();
      Collect();
      maxSize := markedSize + growthSize;
    }
  }

  /** A mark that was never cleared hides what lies behind it. Marks are cleared in the
      pool only, and objects made while the collector is paused are not pooled: such an
      object a, kept by a root through one collection, no longer protects b in the next. */
  lemma StaleMark(heap: set<LkyObject>, a: LkyObject, b: LkyObject)
    requires a in heap && b in heap && a != b && Points(a, b)
    requires forall y <- heap :: Points(y, b) ==> y == a
    ensures Leads(heap, {a}, {}, b) && !Leads(heap, {a}, {a}, b)
  {
    LeadsStart(heap, {a}, {}, a);
    LeadsStep(heap, {a}, {}, a, b);
    forall n: nat ensures !LeadsIn(heap, {a}, {a}, b, n) {}
  }

  lemma RootOnly(gc: Collector, a: LkyObject)
    requires gc.roots == [a] && gc.functionStacks == [] && gc.moduleTables == []
    ensures gc.RootSlots() == [Holding(a)] && Held(gc.RootSlots()) == {a}
  {}

  lemma TotalOne(b: LkyObject)
    ensures Total({b}) == b.size
  {
    TotalWithout({b}, b);
    assert {b} - {b} == {};
  }

  /** The root a alone points to anything, namely to b. */
  ghost predicate Scene(gc: Collector, a: LkyObject, b: LkyObject, c: LkyObject)
    reads gc, gc.pool, gc.pool.buckets, gc.heap
  {
    gc.Valid() && gc.heap == {a, b, c} && a != b && a != c && b != c && !gc.paused && gc.started
    && gc.roots == [a] && gc.functionStacks == [] && gc.moduleTables == []
    && Points(a, b) && forall y <- gc.heap, x <- gc.heap :: Points(y, x) ==> y == a && x == b
  }

  ghost predicate Furnished(gc: Collector, a: LkyObject, b: LkyObject, c: LkyObject)
    reads gc, gc.pool, gc.pool.buckets, gc.heap, a, b, c
  {
    gc.Valid() && gc.heap == {a, b, c} && a != b && a != c && b != c && !gc.paused && gc.started
    && gc.roots == [] && gc.functionStacks == [] && gc.moduleTables == [] && gc.pool.elems == {}
    && a.kind == b.kind == c.kind == Plain && a.members == [Holding(b)] && b.members == c.members == []
  }

  method ThreeObjects() returns (a: LkyObject, b: LkyObject, c: LkyObject)
    ensures fresh(a) && fresh(b) && fresh(c) && a != b && a != c && b != c && c.size == b.size == 1600000
    ensures a.kind == b.kind == c.kind == Plain && a.members == [Holding(b)] && b.members == c.members == []
    ensures Marked({a, b, c}) == {}
  {
    b := new LkyObject(0, 1600000, Plain, []);
    a := new LkyObject(1, 8, Plain, [Holding(b)]);
    c := new LkyObject(2, 1600000, Plain, []);
    NoMarks(a, b, c);
  }

  method Furnish() returns (gc: Collector, a: LkyObject, b: LkyObject, c: LkyObject)
    ensures fresh(gc) && fresh(gc.pool) && fresh(gc.pool.buckets) && fresh(a) && fresh(b) && fresh(c)
    ensures Furnished(gc, a, b, c) && Marked({a, b, c}) == {}
            && c.size == b.size == gc.maxSize == gc.growthSize == 1600000
  {
    hide GcHashset.Valid, Collector.Grounded, Total, Marked;
    a, b, c := ThreeObjects();
    gc := new Collector();
    TotalNothing();
    gc.heap := {a, b, c};
    ScenePoints(gc, a, b, c);
  }

  lemma NoMarks(a: LkyObject, b: LkyObject, c: LkyObject)
    requires a.memCount == b.memCount == c.memCount == 0
    ensures Marked({a, b, c}) == {}
  {}

  /** b is made while the collector runs, a while it is paused. */
  method Enroll(gc: Collector, a: LkyObject, b: LkyObject, c: LkyObject)
    requires Furnished(gc, a, b, c)
    modifies gc, gc.pool, gc.pool.buckets
    ensures Scene(gc, a, b, c) && gc.pool.elems == {b} && gc.curSize == b.size && gc.pool == old(gc.pool)
    ensures gc.pool.buckets == old(gc.pool.buckets) || fresh(gc.pool.buckets)
    ensures gc.maxSize == old(gc.maxSize) && gc.growthSize == old(gc.growthSize)
  {
    hide GcHashset.Valid, Collector.Grounded, Total, Points;
    gc.AddObject(b);
    gc.started := false;
    gc.AddObject(a);
    gc.started := true;
    gc.AddRootObject(a);
    ScenePoints(gc, a, b, c);
    TotalOne(b);
  }

  lemma ScenePoints(gc: Collector, a: LkyObject, b: LkyObject, c: LkyObject)
    requires gc.heap == {a, b, c} && (gc.roots == [] || gc.roots == [a]) && gc.functionStacks == []
             && gc.moduleTables == []
    requires a.kind == b.kind == c.kind == Plain && a.members == [Holding(b)] && b.members == c.members == []
    ensures gc.Grounded()
    ensures Points(a, b) && forall y <- gc.heap, x <- gc.heap :: Points(y, x) ==> y == a && x == b
  {
    assert a.Children() == [Holding(b)] && b.Children() == [] && c.Children() == [];
  }

  lemma SceneLive(gc: Collector, a: LkyObject, b: LkyObject, c: LkyObject)
    requires Scene(gc, a, b, c)
    ensures Leads(gc.heap, Held(gc.RootSlots()), {}, b)
    ensures Marked(gc.heap) == {} ==> gc.Live() == {a, b}
    ensures Marked(gc.heap) == {a} ==> gc.Live() == {a}
  {
    hide Collector.Valid, Points;
    var heap := gc.heap;
    RootOnly(gc, a);
    StaleMark(heap, a, b);
    LeadsStart(heap, {a}, {}, a);
    forall m: set<LkyObject>, n: nat ensures !LeadsIn(heap, {a}, m, c, n) {}
    assert a.memCount != 0 <==> a in Marked(heap);
    assert b.memCount != 0 <==> b in Marked(heap);
    assert c.memCount != 0 <==> c in Marked(heap);
  }

  /** b stays, and a keeps its mark. */
  method FirstCollection(gc: Collector, a: LkyObject, b: LkyObject, c: LkyObject)
    requires Scene(gc, a, b, c) && Marked(gc.heap) == {} && gc.pool.elems == {b} && gc.curSize >= gc.maxSize
    modifies gc`curSize, gc`markedSize, gc`maxSize, gc.pool, gc.pool.buckets, gc.heap`memCount
    ensures Scene(gc, a, b, c) && Marked(gc.heap) == {a} && gc.pool.elems == {b}
            && gc.pool.buckets == old(gc.pool.buckets)
    ensures gc.curSize == b.size && gc.maxSize == b.size + gc.growthSize
  {
    hide GcHashset.Valid, Leads, Points, Marked, Collector.Live, Collector.Grounded, Total, Collector.RootSlots;
    SceneLive(gc, a, b, c);
    gc.GcGc();
    TotalOne(b);
    assert gc.pool.elems == {b};
  }

  /** b goes, for nothing marks it. */
  method SecondCollection(gc: Collector, a: LkyObject, b: LkyObject, c: LkyObject)
    requires Scene(gc, a, b, c) && Marked(gc.heap) == {a} && gc.pool.elems == {b} && c.size >= gc.growthSize
    requires gc.curSize == b.size && gc.maxSize == b.size + gc.growthSize
    modifies gc`curSize, gc`markedSize, gc`maxSize, gc.pool, gc.pool.buckets, gc.heap`memCount
    ensures Scene(gc, a, b, c) && b !in gc.pool.elems
  {
    hide GcHashset.Valid, Leads, Points, Marked, Collector.Live, Collector.Grounded, Total, Collector.RootSlots;
    TotalOne(b);
    gc.AddObject(c);
    TotalWithout({b, c}, c);
    assert {b, c} - {c} == {b} && gc.pool.elems == {b, c};
    SceneLive(gc, a, b, c);
    gc.GcGc();
  }

  /** Two collections of such a heap: b, which the root a leads to, is gone from the pool.
      The third object only makes the pool large enough for the second collection. */
  method StaleMarkLoses() returns (gc: Collector, a: LkyObject, b: LkyObject)
    ensures fresh(gc) && fresh(a) && fresh(b) && gc.Valid() && gc.roots == [a] && b in gc.heap
    ensures Leads(gc.heap, Held(gc.RootSlots()), {}, b) && b !in gc.pool.elems
  {
    var c;
    gc, a, b, c := Furnish();
    assert gc.heap == {a, b, c} && gc.maxSize <= b.size;
    hide Furnished, GcHashset.Valid, Leads, Points, Marked, Collector.Live, Collector.Grounded, Total,
         Collector.RootSlots;
    Enroll(gc, a, b, c);
    FirstCollection(gc, a, b, c);
    SecondCollection(gc, a, b, c);
    SceneLive(gc, a, b, c);
  }

  /** Stale marks do no harm exactly if whatever a reachable object with such a mark points
      to is stale itself or can be reached around them. */
  lemma StaleMarksMiss(heap: set<LkyObject>, roots: set<LkyObject>, stale: set<LkyObject>)
    requires stale <= heap
    ensures (forall x <- heap :: Leads(heap, roots, {}, x) ==> x in stale || Leads(heap, roots, stale, x))
            <==> (forall y <- stale, c <- heap ::
                    Leads(heap, roots, {}, y) && Points(y, c) && c !in stale ==> Leads(heap, roots, stale, c))
  {
    hide Leads, Points;
    if forall x <- heap :: Leads(heap, roots, {}, x) ==> x in stale || Leads(heap, roots, stale, x) {
      forall y <- stale, c <- heap | Leads(heap, roots, {}, y) && Points(y, c) && c !in stale
        ensures Leads(heap, roots, stale, c)
      {
        LeadsStep(heap, roots, {}, y, c);
      }
    }
    if forall y <- stale, c <- heap ::
         Leads(heap, roots, {}, y) && Points(y, c) && c !in stale ==> Leads(heap, roots, stale, c) {
      forall x <- heap | Leads(heap, roots, {}, x)
        ensures x in stale || Leads(heap, roots, stale, x)
      {
        var n := StepsTo(heap, roots, {}, x);
        Around(heap, roots, stale, x, n);
      }
    }
  }

  lemma StepsTo(heap: set<LkyObject>, roots: set<LkyObject>, blocked: set<LkyObject>, x: LkyObject) returns (n: nat)
    requires Leads(heap, roots, blocked, x)
    ensures LeadsIn(heap, roots, blocked, x, n)
  {
    n :| LeadsIn(heap, roots, blocked, x, n);
  }

  lemma {:induction false} Around(heap: set<LkyObject>, roots: set<LkyObject>, stale: set<LkyObject>, x: LkyObject,
                                  n: nat)
    requires LeadsIn(heap, roots, {}, x, n)
    requires forall y <- stale, c <- heap ::
               Leads(heap, roots, {}, y) && Points(y, c) && c !in stale ==> Leads(heap, roots, stale, c)
    ensures x in stale || Leads(heap, roots, stale, x)
    decreases n
  {
    hide Points, Leads;
    if x !in stale {
      if n == 0 {
        LeadsStart(heap, roots, stale, x);
      } else {
        var z :| z in heap && LeadsIn(heap, roots, {}, z, n - 1) && Points(z, x);
        InSteps(heap, roots, {}, z, n - 1);
        Around(heap, roots, stale, z, n - 1);
        if z !in stale {
          LeadsStep(heap, roots, stale, z, x);
        }
      }
    }
  }

  lemma HeldPlus(a: seq<Slot>, b: seq<Slot>)
    ensures Held(a + b) == Held(a) + Held(b)
  {}

  lemma {:induction false} FramesSnoc(fs: seq<StackFrame>, f: StackFrame)
    ensures FramesSlots(fs + [f]) == FramesSlots(fs) + FrameSlots(f)
  {
    hide FrameSlots;
    if fs == [] {
      assert fs + [f] == [f] && [f][1..] == [];
    } else {
      assert (fs + [f])[1..] == fs[1..] + [f];
      FramesSnoc(fs[1..], f);
    }
  }

  lemma {:induction false} FrameIn(fs: seq<StackFrame>, i: nat)
    requires i < |fs|
    ensures forall s <- FrameSlots(fs[i]) :: s in FramesSlots(fs)
    decreases fs
  {
    hide FrameSlots;
    if i > 0 {
      FrameIn(fs[1..], i - 1);
    }
  }

  lemma {:induction false} InScanned(stack: seq<Slot>, i: nat)
    requires i < |stack| && !stack[i].Empty? && forall j :: 0 <= j < i ==> !stack[j].Empty?
    ensures stack[i] in Scanned(stack)
    decreases i
  {
    if i > 0 {
      InScanned(stack[1..], i - 1);
    }
  }
}

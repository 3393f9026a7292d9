/** Marking (src/interpreter/lky_gc.c:218-332): what one call, and one round over all
    roots, adds to the marks. */
module GcMarking {
  import opened GcHeap

  ghost predicate Points(o: LkyObject, c: LkyObject)
    reads o`kind, o`members
  {
    Holding(c) in o.Children()
  }

  /** Everything the objects of the heap lead to is in it. */
  ghost predicate ClosedHeap(heap: set<LkyObject>)
    reads heap`kind, heap`members
  {
    forall o <- heap, s <- o.Children() :: !s.Empty? && (s.Holding? ==> s.o in heap)
  }

  ghost function Marked(heap: set<LkyObject>): set<LkyObject>
    reads heap`memCount
  {
    set o | o in heap && o.memCount != 0
  }

  /** x can be reached from one of `from` in n steps, over objects not in `blocked`. */
  ghost predicate LeadsIn(heap: set<LkyObject>, from: set<LkyObject>, blocked: set<LkyObject>, x: LkyObject, n: nat)
    reads heap`kind, heap`members
  {
    x in heap && x !in blocked
    && if n == 0 then x in from else exists y <- heap :: LeadsIn(heap, from, blocked, y, n - 1) && Points(y, x)
  }

  ghost predicate Leads(heap: set<LkyObject>, from: set<LkyObject>, blocked: set<LkyObject>, x: LkyObject)
    reads heap`kind, heap`members
  {
    exists n: nat :: LeadsIn(heap, from, blocked, x, n)
  }

  lemma {:induction false} LeadsFrom(heap: set<LkyObject>, from: set<LkyObject>, from2: set<LkyObject>,
                                     blocked: set<LkyObject>, blocked2: set<LkyObject>, x: LkyObject, n: nat)
    requires LeadsIn(heap, from, blocked, x, n) && blocked2 <= blocked
    requires forall y <- from :: y in heap && y !in blocked ==> Leads(heap, from2, blocked2, y)
    ensures Leads(heap, from2, blocked2, x)
    decreases n
  {
    if n > 0 {
      var y :| y in heap && LeadsIn(heap, from, blocked, y, n - 1) && Points(y, x);
      LeadsFrom(heap, from, from2, blocked, blocked2, y, n - 1);
      hide LeadsIn;
      LeadsStep(heap, from2, blocked2, y, x);
    }
  }

  lemma LeadsStart(heap: set<LkyObject>, from: set<LkyObject>, blocked: set<LkyObject>, x: LkyObject)
    requires x in heap && x in from && x !in blocked
    ensures Leads(heap, from, blocked, x)
  {
    assert LeadsIn(heap, from, blocked, x, 0);
  }

  lemma InSteps(heap: set<LkyObject>, from: set<LkyObject>, blocked: set<LkyObject>, x: LkyObject, n: nat)
    requires LeadsIn(heap, from, blocked, x, n)
    ensures Leads(heap, from, blocked, x)
  {}

  lemma LeadsStep(heap: set<LkyObject>, from: set<LkyObject>, blocked: set<LkyObject>, y: LkyObject, x: LkyObject)
    requires Leads(heap, from, blocked, y) && y in heap && x in heap && Points(y, x) && x !in blocked
    ensures Leads(heap, from, blocked, x)
  {
    var n: nat :| LeadsIn(heap, from, blocked, y, n);
    assert LeadsIn(heap, from, blocked, x, n + 1);
  }

  /** Marking has gone from m0 to m1 by calls for the objects `from`: they are marked,
      with all their new children, and nothing is marked without need. */
  ghost predicate Spreads(heap: set<LkyObject>, m0: set<LkyObject>, m1: set<LkyObject>, from: set<LkyObject>)
    reads heap`kind, heap`members
  {
    m0 <= m1 <= heap && from <= m1
    && (forall x <- m1 - m0, c <- heap :: Points(x, c) ==> c in m1)
    && (forall x <- m1 - m0 :: Leads(heap, from, m0, x))
  }

  lemma SpreadsNothing(heap: set<LkyObject>, m: set<LkyObject>)
    requires m <= heap
    ensures Spreads(heap, m, m, {})
  {}

  lemma SpreadsGrows(heap: set<LkyObject>, m0: set<LkyObject>, m1: set<LkyObject>, from: set<LkyObject>)
    requires Spreads(heap, m0, m1, from)
    ensures m0 <= m1 <= heap
  {}

  lemma SpreadsMore(heap: set<LkyObject>, m0: set<LkyObject>, m1: set<LkyObject>, from: set<LkyObject>,
                    m2: set<LkyObject>, from2: set<LkyObject>)
    requires Spreads(heap, m0, m1, from) && Spreads(heap, m1, m2, from2)
    ensures Spreads(heap, m0, m2, from + from2)
  {
    forall x <- m2 - m0 ensures Leads(heap, from + from2, m0, x) {
      if x in m1 {
        Widen(heap, from, from + from2, m0, m0, x);
      } else {
        Widen(heap, from2, from + from2, m1, m0, x);
      }
    }
  }

  lemma Widen(heap: set<LkyObject>, from: set<LkyObject>, from2: set<LkyObject>, blocked: set<LkyObject>,
              blocked2: set<LkyObject>, x: LkyObject)
    requires Leads(heap, from, blocked, x) && from <= from2 && blocked2 <= blocked
    ensures Leads(heap, from2, blocked2, x)
  {
    forall y <- from | y in heap && y !in blocked ensures Leads(heap, from2, blocked2, y) {
      LeadsStart(heap, from2, blocked2, y);
    }
    var n: nat :| LeadsIn(heap, from, blocked, x, n);
    LeadsFrom(heap, from, from2, blocked, blocked2, x, n);
  }

  /** An object is marked, then its children are dealt with. */
  lemma SpreadsObject(heap: set<LkyObject>, m0: set<LkyObject>, o: LkyObject, m1: set<LkyObject>,
                      children: set<LkyObject>)
    requires o in heap && o !in m0 && Spreads(heap, m0 + {o}, m1, children)
    requires forall c <- heap :: c in children <==> Points(o, c)
    requires children <= heap
    ensures Spreads(heap, m0, m1, {o})
  {
    forall x <- m1 - m0 ensures Leads(heap, {o}, m0, x) {
      LeadsStart(heap, {o}, m0, o);
      if x != o {
        assert x in m1 - (m0 + {o});
        forall y <- children | y in heap && y !in m0 + {o} ensures Leads(heap, {o}, m0, y) {
          LeadsStep(heap, {o}, m0, o, y);
        }
        var n: nat :| LeadsIn(heap, children, m0 + {o}, x, n);
        LeadsFrom(heap, children, {o}, m0 + {o}, m0, x, n);
      }
    }
  }

  /** The objects among some slots. */
  function Held(slots: seq<Slot>): set<LkyObject> {
    set s | s in slots && s.Holding? :: s.o
  }

  /** gc_mark_object. The recursion ends because unmarked objects grow fewer. */
  method MarkObject(s: Slot, ghost heap: set<LkyObject>)
    requires ClosedHeap(heap) && (s.Holding? ==> s.o in heap) && !s.Empty?
    modifies heap`memCount
    ensures Spreads(heap, old(Marked(heap)), Marked(heap), Held([s]))
    decreases heap - Marked(heap), 1
  {
    if s.TaggedInt? || s.o.memCount != 0 {
      SpreadsNothing(heap, Marked(heap));
      assert Held([s]) <= Marked(heap);
      return;
    }
    var o := s.o;
    ghost var m0 := Marked(heap);
    o.memCount := 1;
    assert Marked(heap) == m0 + {o};
    MarkAll(o.Children(), heap);
    SpreadsObject(heap, m0, o, Marked(heap), Held(o.Children()));
    assert Held([s]) == {o};
  }

  /** gc_mark_object for one after the other. */
  method MarkAll(slots: seq<Slot>, ghost heap: set<LkyObject>)
    requires ClosedHeap(heap) && forall s <- slots :: !s.Empty? && (s.Holding? ==> s.o in heap)
    modifies heap`memCount
    ensures Spreads(heap, old(Marked(heap)), Marked(heap), Held(slots))
    decreases heap - Marked(heap), 2
  {
    hide Spreads, Points;
    SpreadsNothing(heap, Marked(heap));
    var i := 0;
    assert Held(slots[..0]) == {};
    while i < |slots|
      invariant 0 <= i <= |slots| && Spreads(heap, old(Marked(heap)), Marked(heap), Held(slots[..i]))
    {
      ghost var m1 := Marked(heap);
      SpreadsGrows(heap, old(Marked(heap)), m1, Held(slots[..i]));
      MarkObject(slots[i], heap);
      SpreadsMore(heap, old(Marked(heap)), m1, Held(slots[..i]), Marked(heap), Held([slots[i]]));
      assert Held(slots[..i + 1]) == Held(slots[..i]) + Held([slots[i]]);
      i := i + 1;
    }
    assert slots[..|slots|] == slots;
  }

  // ----- the whole round -----

  /** What is marked when every root has been dealt with: what was marked already, and
      what the roots lead to without passing it. */
  lemma SpreadsExactly(heap: set<LkyObject>, m0: set<LkyObject>, m1: set<LkyObject>, roots: set<LkyObject>,
                       x: LkyObject)
    requires Spreads(heap, m0, m1, roots)
    ensures x in m1 <==> x in m0 || Leads(heap, roots, m0, x)
  {
    if Leads(heap, roots, m0, x) {
      var n: nat :| LeadsIn(heap, roots, m0, x, n);
      AllMarked(heap, m0, m1, roots, x, n);
    }
  }

  lemma {:induction false} AllMarked(heap: set<LkyObject>, m0: set<LkyObject>, m1: set<LkyObject>,
                                     roots: set<LkyObject>, x: LkyObject, n: nat)
    requires Spreads(heap, m0, m1, roots) && LeadsIn(heap, roots, m0, x, n)
    ensures x in m1
    decreases n
  {
    hide Spreads, Points;
    if n == 0 {
      SpreadsRoots(heap, m0, m1, roots);
    } else {
      var y :| y in heap && LeadsIn(heap, roots, m0, y, n - 1) && Points(y, x);
      hide LeadsIn;
      NotBlocked(heap, roots, m0, y, n - 1);
      NotBlocked(heap, roots, m0, x, n);
      AllMarked(heap, m0, m1, roots, y, n - 1);
      SpreadsChild(heap, m0, m1, roots, y, x);
    }
  }

  lemma SpreadsRoots(heap: set<LkyObject>, m0: set<LkyObject>, m1: set<LkyObject>, roots: set<LkyObject>)
    requires Spreads(heap, m0, m1, roots)
    ensures roots <= m1
  {}

  lemma SpreadsChild(heap: set<LkyObject>, m0: set<LkyObject>, m1: set<LkyObject>, roots: set<LkyObject>,
                     y: LkyObject, x: LkyObject)
    requires Spreads(heap, m0, m1, roots) && y in m1 && y !in m0 && x in heap && Points(y, x)
    ensures x in m1
  {}

  lemma NotBlocked(heap: set<LkyObject>, from: set<LkyObject>, blocked: set<LkyObject>, x: LkyObject, n: nat)
    requires LeadsIn(heap, from, blocked, x, n)
    ensures x !in blocked && x in heap
  {}
}

/** The pool of objects (src/interpreter/gc_hashset.c): a chained hash set on addresses
    that rebuilds itself three times as large when it is two thirds full. */
module GcHashsets {
  import opened Sequences
  import opened GcHeap
  import opened Chains

  // ----- the set -----

  /** What the buckets hold: every element once, in the bucket of its address. */
  ghost predicate Spread(vals: seq<seq<LkyObject>>, elems: set<LkyObject>) {
    |vals| > 0
    && (forall i, k :: 0 <= i < |vals| && 0 <= k < |vals[i]| ==>
          vals[i][k] in elems && vals[i][k].address % |vals| == i)
    && (forall i, k, l :: 0 <= i < |vals| && 0 <= k < l < |vals[i]| ==> vals[i][k] != vals[i][l])
    && (forall o <- elems :: o in vals[o.address % |vals|])
  }

  lemma SpreadAdd(vals: seq<seq<LkyObject>>, elems: set<LkyObject>, obj: LkyObject)
    requires Spread(vals, elems)
    ensures var hash := obj.address % |vals|;
            if obj in vals[hash] then obj in elems
            else obj !in elems && Spread(vals[hash := vals[hash] + [obj]], elems + {obj})
  {
    var hash := obj.address % |vals|;
    var vals' := vals[hash := vals[hash] + [obj]];
    if obj !in vals[hash] {
      forall o <- elems + {obj} ensures o in vals'[o.address % |vals|] {
        if o == obj {
          assert vals'[hash][|vals[hash]|] == obj;
        }
      }
    }
  }

  lemma SpreadRemove(vals: seq<seq<LkyObject>>, elems: set<LkyObject>, obj: LkyObject, k: nat)
    requires Spread(vals, elems) && k < |vals[obj.address % |vals|]| && vals[obj.address % |vals|][k] == obj
    ensures var hash := obj.address % |vals|;
            Spread(vals[hash := Without(vals[hash], k)], elems - {obj})
  {
    var hash := obj.address % |vals|;
    var chain := vals[hash];
    var chain' := Without(chain, k);
    WithoutAt(chain, k);
    forall o <- elems - {obj} ensures o in vals[hash := chain'][o.address % |vals|] {
      if o.address % |vals| == hash {
        var j :| 0 <= j < |chain| && chain[j] == o;
        assert chain'[if j < k then j else j - 1] == o;
      }
    }
  }

  lemma SpreadMember(vals: seq<seq<LkyObject>>, elems: set<LkyObject>, obj: LkyObject)
    requires Spread(vals, elems)
    ensures |vals| > 0 && (obj in elems <==> obj in vals[obj.address % |vals|])
  {}

  lemma NoneOf(list: seq<LkyObject>)
    ensures SetOf(list[..0]) == {}
  {}

  lemma AllOf(list: seq<LkyObject>, elems: set<LkyObject>)
    requires forall o :: o in list <==> o in elems
    ensures SetOf(list[..|list|]) == elems
  {
    assert list[..|list|] == list;
  }

  lemma TableSizes(store: Store<LkyObject>, buckets: seq<int>, t: Layout<LkyObject>, elems: set<LkyObject>)
    requires Table(store, buckets, t) && Spread(t.vals, elems)
    ensures |buckets| == |t.chains| == |t.vals| > 0
  {}

  function SetOf(list: seq<LkyObject>): set<LkyObject> {
    set o | o in list
  }

  lemma {:induction false} ConcatPart(vals: seq<seq<LkyObject>>, i: nat)
    requires i < |vals|
    ensures |Concat(vals[..i])| + |vals[i]| <= |Concat(vals)|
    decreases |vals|
  {
    var n := |vals| - 1;
    if i < n {
      ConcatPart(vals[..n], i);
      assert vals[..n][..i] == vals[..i];
    }
  }

  lemma {:induction false} ConcatPrefix(vals: seq<seq<LkyObject>>, elems: set<LkyObject>, n: nat)
    requires Spread(vals, elems) && n <= |vals|
    ensures NoRepeats(Concat(vals[..n]))
    ensures forall o :: o in Concat(vals[..n]) <==> o in elems && o.address % |vals| < n
  {
    if n > 0 {
      ConcatPrefix(vals, elems, n - 1);
      assert vals[..n][..n - 1] == vals[..n - 1];
      var front, chain := Concat(vals[..n - 1]), vals[n - 1];
      assert Concat(vals[..n]) == front + chain;
      forall o ensures o in front + chain <==> o in elems && o.address % |vals| < n {
        SpreadMember(vals, elems, o);
      }
    }
  }

  lemma SetSize(list: seq<LkyObject>, elems: set<LkyObject>)
    requires NoRepeats(list) && forall o :: o in list <==> o in elems
    ensures |list| == |elems|
    decreases list
  {
    if list != [] {
      var n := |list| - 1;
      forall o ensures o in list[..n] <==> o in elems - {list[n]} {
        assert o in list <==> o in list[..n] || o == list[n];
      }
      SetSize(list[..n], elems - {list[n]});
    } else {
      assert elems == {};
    }
  }

  lemma ConcatElems(vals: seq<seq<LkyObject>>, elems: set<LkyObject>)
    requires Spread(vals, elems)
    ensures |vals| > 0 && NoRepeats(Concat(vals)) && |Concat(vals)| == |elems|
    ensures forall o :: o in Concat(vals) <==> o in elems
  {
    ConcatPrefix(vals, elems, |vals|);
    assert vals[..|vals|] == vals;
    SetSize(Concat(vals), elems);
  }

  lemma SetOfPrefix(data: seq<LkyObject>, i: nat)
    requires i < |data| && NoRepeats(data)
    ensures SetOf(data[..i + 1]) == SetOf(data[..i]) + {data[i]} && |SetOf(data[..i])| == i
  {
    SetSize(data[..i], SetOf(data[..i]));
    assert data[..i + 1] == data[..i] + [data[i]];
  }

  class GcHashset {
    var buckets: array<int>
    var store: Store<LkyObject>
    var hashSize: nat
    var count: nat
    ghost var layout: Layout<LkyObject>
    ghost var elems: set<LkyObject>

    ghost predicate Sound()
      reads this, buckets
    {
      buckets.Length == hashSize && Table(store, buckets[..], layout) && Spread(layout.vals, elems) && count == |elems|
    }

    /** The set is in order, and never fuller than one above two thirds. */
    ghost predicate Valid()
      reads this, buckets
    {
      Sound() && 3 * count <= 2 * hashSize + 3
    }

    constructor (hashSize: nat)
      requires hashSize > 0
      ensures Valid() && fresh(buckets) && elems == {} && this.hashSize == hashSize
    {
      this.hashSize, count, store := hashSize, 0, [];
      buckets := new int[hashSize](_ => NULL);
      layout := Layout(seq(hashSize, _ => []), seq(hashSize, _ => []), []);
      elems := {};
      new;
      assert forall i: nat :: i < hashSize ==> ChainOf(store, buckets[..], layout, i);
    }

    function Hash(obj: LkyObject): nat
      requires hashSize > 0
      reads this
    {
      obj.address % hashSize
    }

    /** The walk along a chain that add, contains and remove share: to the cell of obj,
        or off the end. */
    method Walk(obj: LkyObject) returns (n: int, prev: int, ghost i: nat)
      requires Sound()
      ensures |layout.vals| == |layout.chains| == hashSize > 0
              && i <= |layout.chains[Hash(obj)]| == |layout.vals[Hash(obj)]|
      ensures n == Pointer(layout.chains[Hash(obj)], i)
      ensures prev == if i > 0 then layout.chains[Hash(obj)][i - 1] else NULL
      ensures if n == NULL then obj !in elems && i == |layout.chains[Hash(obj)]|
              else obj in elems && i < |layout.vals[Hash(obj)]| && layout.vals[Hash(obj)][i] == obj
                   && n < |store| && store[n].next == Pointer(layout.chains[Hash(obj)], i + 1)
    {
      hide Linked, AtHome, Spread, Table;
      TableSizes(store, buckets[..], layout, elems);
      SpreadMember(layout.vals, elems, obj);
      var hash := Hash(obj);
      ghost var nodes, vals := layout.chains[hash], layout.vals[hash];
      TableChain(store, buckets[..], layout, hash);
      n, prev, i := buckets[hash], NULL, 0;
      while n != NULL
        invariant 0 <= i <= |nodes| && n == Pointer(nodes, i) && prev == (if i > 0 then nodes[i - 1] else NULL)
        invariant obj !in vals[..i]
        decreases |nodes| - i
      {
        LinkedBounds(store, buckets[hash], nodes, vals, i);
        if store[n].value == obj {
          return;
        }
        prev := n;
        n := store[n].next;
        i := i + 1;
      }
      assert vals[..i] == vals;
    }

    method Contains(obj: LkyObject) returns (found: bool)
      requires Valid()
      ensures found <==> obj in elems
    {
      var n, prev;
      ghost var i;
      n, prev, i := Walk(obj);
      found := n != NULL;
    }

    /** gchs_add behind its resizing. */
    method Append(obj: LkyObject)
      requires Valid()
      modifies this, buckets
      ensures Sound() && buckets == old(buckets) && elems == old(elems) + {obj} && hashSize == old(hashSize)
    {
      hide Linked, AtHome, Spread, Table;
      var n, prev;
      ghost var i;
      n, prev, i := Walk(obj);
      if n != NULL {
        return;
      }
      SpreadAdd(layout.vals, elems, obj);
      SpreadMember(layout.vals, elems, obj);
      var hash := Hash(obj);
      TableAppended(store, buckets[..], layout, hash, obj);
      TableChain(store, buckets[..], layout, hash);
      var m := |store|;
      store := store + [Cell(obj, NULL)];
      if buckets[hash] == NULL {
        buckets[hash] := m;
        assert buckets[..] == old(buckets[..])[hash := m];
      } else {
        store := store[prev := Cell(store[prev].value, m)];
      }
      layout := Chains.Grown(layout, hash, m, obj);
      count, elems := count + 1, elems + {obj};
    }

    method Remove(obj: LkyObject)
      requires Valid()
      modifies this, buckets
      ensures Valid() && buckets == old(buckets) && elems == old(elems) - {obj} && hashSize == old(hashSize)
    {
      hide Linked, AtHome, Spread, Table;
      var n, prev;
      ghost var i;
      n, prev, i := Walk(obj);
      if n == NULL {
        return;
      }
      var hash := Hash(obj);
      TableCut(store, buckets[..], layout, hash, i);
      SpreadRemove(layout.vals, elems, obj, i);
      var next := store[n].next;
      if prev != NULL {
        store := store[prev := Cell(store[prev].value, next)];
      } else {
        buckets[hash] := next;
        assert buckets[..] == old(buckets[..])[hash := next];
      }
      layout := Shrunk(layout, hash, i);
      count, elems := count - 1, elems - {obj};
    }

    /** The elements, each once; the buffer of `count` places is filled exactly. */
    method ToList() returns (list: seq<LkyObject>)
      requires Valid()
      ensures |list| == count && NoRepeats(list) && forall o :: o in list <==> o in elems
    {
      hide Linked, AtHome, Spread;
      ConcatElems(layout.vals, elems);
      list := [];
      var i := 0;
      while i < hashSize
        invariant 0 <= i <= hashSize && list == Concat(layout.vals[..i])
      {
        var n := buckets[i];
        ghost var nodes, vals, k := layout.chains[i], layout.vals[i], 0;
        assert ChainOf(store, buckets[..], layout, i);
        ChainLength(store, buckets[i], nodes, vals);
        while n != NULL
          invariant 0 <= k <= |nodes| && n == Pointer(nodes, k) && list == Concat(layout.vals[..i]) + vals[..k]
          decreases |nodes| - k
        {
          LinkedBounds(store, buckets[i], nodes, vals, k);
          ConcatPart(layout.vals, i);
          assert |list| < count;
          list := list + [store[n].value];
          n := store[n].next;
          k := k + 1;
        }
        assert layout.vals[..i + 1][..i] == layout.vals[..i];
        i := i + 1;
      }
      assert layout.vals[..hashSize] == layout.vals;
      ConcatElems(layout.vals, elems);
    }

    /** gchs_add. The set that a rebuild fills is never rebuilt in turn. */
    method Add(obj: LkyObject)
      requires Valid()
      modifies this, buckets
      ensures Valid() && (buckets == old(buckets) || fresh(buckets)) && elems == old(elems) + {obj}
      ensures hashSize == if old(3 * count > 2 * hashSize) then 3 * old(hashSize) else old(hashSize)
      decreases if 3 * count > 2 * hashSize then 1 else 0, 1
    {
      hide Sound;
      SoundSize();
      if 3 * count > 2 * hashSize {
        var next := Rebuilt();
        next.SoundSize();
        next.Add(obj);
        buckets, store, hashSize, count := next.buckets, next.store, next.hashSize, next.count;
        layout, elems := next.layout, next.elems;
        SameSound(next);
      } else {
        Append(obj);
        SoundSize();
      }
    }

    /** The same elements in three times as many buckets. */
    method Rebuilt() returns (next: GcHashset)
      requires Valid() && 3 * count > 2 * hashSize
      ensures next.Valid() && fresh(next) && fresh(next.buckets)
      ensures next.elems == elems && next.hashSize == 3 * hashSize
      decreases 1, 0
    {
      hide Sound, SetOf, NoRepeats;
      SoundSize();
      var data := ToList();
      next := new GcHashset(hashSize * 3);
      NoneOf(data);
      var i := 0;
      while i < count
        invariant 0 <= i <= count == |data| && Valid() && next.Valid() && next.hashSize == 3 * hashSize
        invariant fresh(next) && fresh(next.buckets) && next.elems == SetOf(data[..i])
      {
        SetOfPrefix(data, i);
        next.SoundSize();
        next.Add(data[i]);
        i := i + 1;
      }
      AllOf(data, elems);
    }

    lemma CountSize()
      requires Valid()
      ensures count == |elems|
    {}

    lemma SoundSize()
      requires Sound()
      ensures count == |elems| && hashSize > 0
    {}

    lemma SameSound(other: GcHashset)
      requires other.Sound() && buckets == other.buckets && store == other.store && hashSize == other.hashSize
      requires count == other.count && layout == other.layout && elems == other.elems
      ensures Sound()
    {}
  }
}

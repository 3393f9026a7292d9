/** The chained hash table (src/stdlib/hashtable.c) as a finite map. */
module Hashtables {
  import opened Sequences
  import opened Chains

  /** A node without its pointer; it keeps the hash of its key. */
  datatype Entry<K, V> = Entry(hash: nat, key: K, val: V)

  // ----- what the chains hold -----

  ghost predicate Placed<K, V>(hashOf: K -> nat, m: map<K, V>, e: Entry<K, V>, size: nat, i: nat) {
    size > 0 && e.hash == hashOf(e.key) && e.hash % size == i && e.key in m && m[e.key] == e.val
  }

  predicate HasKey<K(==), V>(chain: seq<Entry<K, V>>, key: K) {
    exists k :: 0 <= k < |chain| && chain[k].key == key
  }

  ghost predicate OneEach<K, V>(chain: seq<Entry<K, V>>) {
    forall k, l :: 0 <= k < l < |chain| ==> chain[k].key != chain[l].key
  }

  ghost predicate ChainFits<K, V>(hashOf: K -> nat, m: map<K, V>, chain: seq<Entry<K, V>>, size: nat, i: nat) {
    OneEach(chain) && forall k :: 0 <= k < |chain| ==> Placed(hashOf, m, chain[k], size, i)
  }

  /** Every key of the map is in the chain of its hash, once, with its value, and
      nothing else is anywhere. */
  ghost predicate Represents<K, V>(hashOf: K -> nat, m: map<K, V>, vals: seq<seq<Entry<K, V>>>) {
    |vals| > 0 && (forall i: nat :: i < |vals| ==> ChainFits(hashOf, m, vals[i], |vals|, i))
    && forall key <- m :: HasKey(vals[hashOf(key) % |vals|], key)
  }

  lemma RepresentsSome<K, V>(hashOf: K -> nat, m: map<K, V>, vals: seq<seq<Entry<K, V>>>)
    requires Represents(hashOf, m, vals)
    ensures |vals| > 0
  {}

  lemma KeyThere<K, V>(hashOf: K -> nat, m: map<K, V>, vals: seq<seq<Entry<K, V>>>, key: K)
    requires Represents(hashOf, m, vals)
    ensures |vals| > 0 && (key in m <==> HasKey(vals[hashOf(key) % |vals|], key))
  {
    var i := hashOf(key) % |vals|;
    assert ChainFits(hashOf, m, vals[i], |vals|, i);
    if HasKey(vals[i], key) {
      var k :| 0 <= k < |vals[i]| && vals[i][k].key == key;
      assert Placed(hashOf, m, vals[i][k], |vals|, i);
    }
  }

  lemma EntryThere<K, V>(hashOf: K -> nat, m: map<K, V>, vals: seq<seq<Entry<K, V>>>, i: nat, k: nat)
    requires Represents(hashOf, m, vals) && i < |vals| && k < |vals[i]|
    ensures Placed(hashOf, m, vals[i][k], |vals|, i)
  {
    assert ChainFits(hashOf, m, vals[i], |vals|, i);
  }

  /** Chains of other keys do not mind a changed binding. */
  lemma ChainKeeps<K, V>(hashOf: K -> nat, m: map<K, V>, m2: map<K,
                         V>, chain: seq<Entry<K, V>>, size: nat, i: nat, key: K)
    requires ChainFits(hashOf, m, chain, size, i) && !HasKey(chain, key)
    requires forall o <- m :: o != key ==> o in m2 && m2[o] == m[o]
    ensures ChainFits(hashOf, m2, chain, size, i)
  {
    forall k | 0 <= k < |chain| ensures Placed(hashOf, m2, chain[k], size, i) {
      assert Placed(hashOf, m, chain[k], size, i);
    }
  }

  lemma OnlyThere<K, V>(hashOf: K -> nat, m: map<K, V>, chain: seq<Entry<K, V>>, size: nat, i: nat, key: K)
    requires ChainFits(hashOf, m, chain, size, i) && size > 0 && hashOf(key) % size != i
    ensures !HasKey(chain, key)
  {
    forall k | 0 <= k < |chain| ensures chain[k].key != key {
      assert Placed(hashOf, m, chain[k], size, i);
    }
  }

  lemma PutNew<K, V>(hashOf: K -> nat, m: map<K, V>, vals: seq<seq<Entry<K, V>>>, key: K, val: V)
    requires Represents(hashOf, m, vals) && key !in m
    ensures var i := hashOf(key) % |vals|;
            Represents(hashOf, m[key := val], vals[i := vals[i] + [Entry(hashOf(key), key, val)]])
  {
    var i, e := hashOf(key) % |vals|, Entry(hashOf(key), key, val);
    var m2, vals2 := m[key := val], vals[i := vals[i] + [e]];
    KeyThere(hashOf, m, vals, key);
    forall j: nat | j < |vals| ensures ChainFits(hashOf, m2, vals2[j], |vals|, j) {
      assert ChainFits(hashOf, m, vals[j], |vals|, j);
      if j != i {
        OnlyThere(hashOf, m, vals[j], |vals|, j, key);
      }
      ChainKeeps(hashOf, m, m2, vals[j], |vals|, j, key);
    }
    forall o <- m2 ensures HasKey(vals2[hashOf(o) % |vals|], o) {
      if o == key {
        assert vals2[i][|vals[i]|].key == key;
      } else {
        var k :| 0 <= k < |vals[hashOf(o) % |vals|]| && vals[hashOf(o) % |vals|][k].key == o;
        assert vals2[hashOf(o) % |vals|][k].key == o;
      }
    }
  }

  lemma PutOld<K, V>(hashOf: K -> nat, m: map<K, V>, vals: seq<seq<Entry<K, V>>>, key: K, val: V, k: nat)
    requires Represents(hashOf, m, vals)
    requires var i := hashOf(key) % |vals|; k < |vals[i]| && vals[i][k].key == key
    ensures var i := hashOf(key) % |vals|;
            Represents(hashOf, m[key := val], vals[i := vals[i][k := vals[i][k].(val := val)]])
  {
    var i := hashOf(key) % |vals|;
    var m2, vals2 := m[key := val], vals[i := vals[i][k := vals[i][k].(val := val)]];
    EntryThere(hashOf, m, vals, i, k);
    forall j: nat | j < |vals| ensures ChainFits(hashOf, m2, vals2[j], |vals|, j) {
      assert ChainFits(hashOf, m, vals[j], |vals|, j);
      if j != i {
        OnlyThere(hashOf, m, vals[j], |vals|, j, key);
        ChainKeeps(hashOf, m, m2, vals[j], |vals|, j, key);
      } else {
        forall l | 0 <= l < |vals2[i]| ensures Placed(hashOf, m2, vals2[i][l], |vals|, i) {
          assert Placed(hashOf, m, vals[i][l], |vals|, i);
        }
      }
    }
    forall o <- m2 ensures HasKey(vals2[hashOf(o) % |vals|], o) {
      var l :| 0 <= l < |vals[hashOf(o) % |vals|]| && vals[hashOf(o) % |vals|][l].key == o;
      assert vals2[hashOf(o) % |vals|][l].key == o;
    }
  }

  /** A binding put once more. */
  lemma SameBinding<K, V>(hashOf: K -> nat, m: map<K, V>, vals: seq<seq<Entry<K, V>>>, key: K, k: nat)
    requires Represents(hashOf, m, vals) && key in m
    requires var i := hashOf(key) % |vals|; k < |vals[i]| && vals[i][k].key == key
    ensures var i := hashOf(key) % |vals|;
            vals[i][k].(val := m[key]) == vals[i][k] && vals[i := vals[i][k := vals[i][k]]] == vals
  {
    var i := hashOf(key) % |vals|;
    EntryThere(hashOf, m, vals, i, k);
    assert vals[i][k := vals[i][k]] == vals[i];
  }

  lemma ChainWithout<K, V>(hashOf: K -> nat, m: map<K, V>, chain: seq<Entry<K, V>>, size: nat, i: nat, k: nat)
    requires ChainFits(hashOf, m, chain, size, i) && k < |chain|
    ensures ChainFits(hashOf, m - {chain[k].key}, Without(chain, k), size, i)
  {
    WithoutAt(chain, k);
    forall l | 0 <= l < |chain| - 1 ensures Placed(hashOf, m - {chain[k].key}, Without(chain, k)[l], size, i) {
      assert Placed(hashOf, m, chain[if l < k then l else l + 1], size, i);
    }
  }

  lemma Removed<K, V>(hashOf: K -> nat, m: map<K, V>, vals: seq<seq<Entry<K, V>>>, key: K, k: nat)
    requires Represents(hashOf, m, vals)
    requires var i := hashOf(key) % |vals|; k < |vals[i]| && vals[i][k].key == key
    ensures key in m && m[key] == vals[hashOf(key) % |vals|][k].val
    ensures var i := hashOf(key) % |vals|;
            Represents(hashOf, m - {key}, vals[i := Without(vals[i], k)])
  {
    var i := hashOf(key) % |vals|;
    var m2, chain2 := m - {key}, Without(vals[i], k);
    var vals2 := vals[i := chain2];
    WithoutAt(vals[i], k);
    EntryThere(hashOf, m, vals, i, k);
    forall j: nat | j < |vals| ensures ChainFits(hashOf, m2, vals2[j], |vals|, j) {
      assert ChainFits(hashOf, m, vals[j], |vals|, j);
      if j != i {
        OnlyThere(hashOf, m, vals[j], |vals|, j, key);
        ChainKeeps(hashOf, m, m2, vals[j], |vals|, j, key);
      } else {
        ChainWithout(hashOf, m, vals[i], |vals|, i, k);
      }
    }
    hide ChainFits;
    forall o <- m2 ensures HasKey(vals2[hashOf(o) % |vals|], o) {
      var l :| 0 <= l < |vals[hashOf(o) % |vals|]| && vals[hashOf(o) % |vals|][l].key == o;
      if hashOf(o) % |vals| == i {
        assert chain2[if l < k then l else l - 1].key == o;
      } else {
        assert vals2[hashOf(o) % |vals|][l].key == o;
      }
    }
  }

  // ----- while the table is rebuilt -----

  /** Every key is in the new table or still in the old one, not in both. */
  ghost predicate Moving<K, V>(hashOf: K -> nat, m: map<K,
                               V>, news: seq<seq<Entry<K, V>>>, olds: seq<seq<Entry<K, V>>>) {
    |news| > 0 && |olds| > 0
    && (forall i: nat :: i < |news| ==> ChainFits(hashOf, m, news[i], |news|, i))
    && (forall i: nat :: i < |olds| ==> ChainFits(hashOf, m, olds[i], |olds|, i))
    && forall key <- m :: HasKey(news[hashOf(key) % |news|], key) != HasKey(olds[hashOf(key) % |olds|], key)
  }

  lemma MovingStarts<K, V>(hashOf: K -> nat, m: map<K, V>, news: seq<seq<Entry<K, V>>>, olds: seq<seq<Entry<K, V>>>)
    requires Represents(hashOf, m, olds) && |news| > 0 && forall i :: 0 <= i < |news| ==> news[i] == []
    ensures Moving(hashOf, m, news, olds)
  {}

  lemma MovingEnds<K, V>(hashOf: K -> nat, m: map<K, V>, news: seq<seq<Entry<K, V>>>, olds: seq<seq<Entry<K, V>>>)
    requires Moving(hashOf, m, news, olds) && forall i :: 0 <= i < |olds| ==> olds[i] == []
    ensures Represents(hashOf, m, news)
  {
    hide ChainFits;
  }

  lemma MovedOne<K, V>(hashOf: K -> nat, m: map<K, V>, news: seq<seq<Entry<K, V>>>, olds: seq<seq<Entry<K, V>>>, i: nat)
    requires Moving(hashOf, m, news, olds) && i < |olds| && olds[i] != []
    ensures var e := olds[i][0];
            var j := e.hash % |news|;
            Moving(hashOf, m, news[j := news[j] + [e]], olds[i := Without(olds[i], 0)])
  {
    var e := olds[i][0];
    var j, rest := e.hash % |news|, Without(olds[i], 0);
    var news2, olds2 := news[j := news[j] + [e]], olds[i := rest];
    WithoutAt(olds[i], 0);
    assert ChainFits(hashOf, m, olds[i], |olds|, i);
    assert Placed(hashOf, m, e, |olds|, i) && HasKey(olds[i], e.key);
    assert !HasKey(news[j], e.key);
    forall k: nat | k < |olds| ensures ChainFits(hashOf, m, olds2[k], |olds|, k) {
      assert ChainFits(hashOf, m, olds[k], |olds|, k);
      if k == i {
        forall l | 0 <= l < |rest| ensures Placed(hashOf, m, rest[l], |olds|, i) {
          assert Placed(hashOf, m, olds[i][l + 1], |olds|, i);
        }
      }
    }
    forall k: nat | k < |news| ensures ChainFits(hashOf, m, news2[k], |news|, k) {
      assert ChainFits(hashOf, m, news[k], |news|, k);
    }
    forall key <- m ensures HasKey(news2[hashOf(key) % |news|], key) != HasKey(olds2[hashOf(key) % |olds|], key) {
      KeyAppended(news[hashOf(key) % |news|], e, key);
      if hashOf(key) % |olds| == i {
        KeyRest(olds[i], key);
      }
    }
  }

  lemma KeyAppended<K, V>(chain: seq<Entry<K, V>>, e: Entry<K, V>, key: K)
    ensures HasKey(chain + [e], key) <==> HasKey(chain, key) || e.key == key
  {
    if HasKey(chain, key) {
      var k :| 0 <= k < |chain| && chain[k].key == key;
      assert (chain + [e])[k].key == key;
    }
    assert (chain + [e])[|chain|] == e;
  }

  /** Without its first entry a chain of different keys lacks just that key. */
  lemma KeyRest<K, V>(chain: seq<Entry<K, V>>, key: K)
    requires chain != [] && OneEach(chain)
    ensures HasKey(Without(chain, 0), key) <==> HasKey(chain, key) && chain[0].key != key
  {
    WithoutAt(chain, 0);
    if HasKey(chain, key) && chain[0].key != key {
      var k :| 0 <= k < |chain| && chain[k].key == key;
      assert Without(chain, 0)[k - 1].key == key;
    }
    if HasKey(Without(chain, 0), key) {
      var k :| 0 <= k < |chain| - 1 && Without(chain, 0)[k].key == key;
      assert chain[k + 1].key == key;
    }
  }

  /** The new buckets, and what is left in the old ones, as one table of chains. */
  ghost predicate Halfway<K, V>(hashOf: K -> nat, m: map<K,
                                V>, store: Store<Entry<K, V>>, news: seq<int>, olds: seq<int>, t: Layout<Entry<K, V>>)
  {
    |news| + |olds| == |t.chains| == |t.vals| && Table(store, news + olds, t)
    && Moving(hashOf, m, t.vals[..|news|], t.vals[|news|..])
  }

  lemma HalfwayStarts<K, V>(hashOf: K -> nat, m: map<K,
                            V>, store: Store<Entry<K, V>>, news: seq<int>, olds: seq<int>, t: Layout<Entry<K, V>>)
    returns (t2: Layout<Entry<K, V>>)
    requires Table(store, olds, t) && Represents(hashOf, m, t.vals) && news != []
    requires forall i :: 0 <= i < |news| ==> news[i] == NULL
    ensures Halfway(hashOf, m, store, news, olds, t2)
  {
    var chains: seq<seq<nat>>, vals: seq<seq<Entry<K, V>>> := seq(|news|, _ => []), seq(|news|, _ => []);
    TablePrepended(store, olds, t, news, chains, vals);
    MovingStarts(hashOf, m, vals, t.vals);
    t2 := Layout(chains + t.chains, vals + t.vals, Shifted(t.homes, |news|));
    assert t2.vals[..|news|] == vals && t2.vals[|news|..] == t.vals;
  }

  lemma HalfwaySizes<K, V>(hashOf: K -> nat, m: map<K,
                           V>, store: Store<Entry<K, V>>, news: seq<int>, olds: seq<int>, t: Layout<Entry<K, V>>)
    requires Halfway(hashOf, m, store, news, olds, t)
    ensures |news| + |olds| == |t.chains| == |t.vals|
  {}

  /** What a node at the head of an old chain leads to. */
  lemma MoveNode<K, V>(hashOf: K -> nat, m: map<K,
                       V>, store: Store<Entry<K, V>>, news: seq<int>, olds: seq<int>, t: Layout<Entry<K, V>>, i: nat)
    returns (t2: Layout<Entry<K, V>>)
    requires Halfway(hashOf, m, store, news, olds, t) && i < |olds| && olds[i] != NULL && news != []
    ensures t.chains[|news| + i] != [] && 0 <= olds[i] < |store|
    ensures var n := olds[i];
            var e, j := store[n].value, store[n].value.hash % |news|;
            var store1, olds2 := store[n := Cell(e, NULL)], olds[i := store[n].next];
            |t2.chains| == |t.chains| && t2.chains[|news| + i] == Without(t.chains[|news| + i], 0)
            && (forall k :: |news| <= k < |t.chains| && k != |news| + i ==> t2.chains[k] == t.chains[k])
            && Linked(store, news[j], t.chains[j], t.vals[j])
            && (news[j] == NULL <==> t.chains[j] == [])
            && if news[j] == NULL then Halfway(hashOf, m, store1, news[j := n], olds2, t2)
               else
                 var last := t.chains[j][|t.chains[j]| - 1];
                 last < |store| && last != n
                 && Halfway(hashOf, m, store1[last := Cell(store[last].value, n)], news, olds2, t2)
  {
    hide Linked, AtHome, Table, Moving, Loose;
    var b, h := news + olds, |news| + i;
    TableChain(store, b, t, h);
    var n, next := olds[i], Pointer(t.chains[h], 1);
    var e := store[n].value;
    var j := e.hash % |news|;
    TableChain(store, b, t, j);
    MovedOne(hashOf, m, t.vals[..|news|], t.vals[|news|..], i);
    TableCut(store, b, t, h, 0);
    CutLoose(store, b, t, h, 0);
    var b1, t1 := b[h := next], Shrunk(t, h, 0);
    TableJoined(store, b1, t1, j, n);
    t2 := Joined(t1, j, n, e);
    assert t2.vals[..|news|] == t.vals[..|news|][j := t.vals[j] + [e]];
    assert t2.vals[|news|..] == t.vals[|news|..][i := Without(t.vals[h], 0)];
    assert b1 == news + olds[i := next];
    assert b1[j := n] == news[j := n] + olds[i := next];
  }

  /** All old chains are empty. */
  lemma HalfwayEnds<K, V>(hashOf: K -> nat, m: map<K,
                          V>, store: Store<Entry<K, V>>, news: seq<int>, olds: seq<int>, t: Layout<Entry<K, V>>)
    requires Halfway(hashOf, m, store, news, olds, t) && forall i :: 0 <= i < |olds| ==> olds[i] == NULL
    ensures Table(store, news, Layout(t.chains[..|news|], t.vals[..|news|], t.homes))
    ensures Represents(hashOf, m, t.vals[..|news|])
  {
    hide Linked, AtHome, Moving, Table;
    var n := |news|;
    TablePrefix(store, news + olds, t, n);
    assert (news + olds)[..n] == news;
    forall i | 0 <= i < |olds| ensures t.vals[n..][i] == [] {
      TableChain(store, news + olds, t, n + i);
    }
    MovingEnds(hashOf, m, t.vals[..n], t.vals[n..]);
  }

  // ----- the table -----

  class Hashtable<K(==), V> {
    const hashOf: K -> nat
    var buckets: array<int>
    var store: Store<Entry<K, V>>
    var size: nat
    var count: nat
    ghost var layout: Layout<Entry<K, V>>
    ghost var m: map<K, V>

    ghost predicate Valid()
      reads this, buckets
    {
      buckets.Length == size && Table(store, buckets[..], layout) && Represents(hashOf, m, layout.vals) && count == |m|
    }

    /** hst_create. */
    constructor (hashOf: K -> nat)
      ensures Valid() && fresh(buckets) && m == map[] && this.hashOf == hashOf
    {
      this.hashOf := hashOf;
      size, count, store := 8, 0, [];
      buckets := new int[8](_ => NULL);
      layout := Layout(seq(8, _ => []), seq(8, _ => []), []);
      m := map[];
      new;
      assert forall i: nat :: i < 8 ==> ChainOf(store, buckets[..], layout, i);
    }

    ghost function Chain(key: K): nat
      requires |layout.vals| > 0
      reads this
    {
      hashOf(key) % |layout.vals|
    }

    /** The walk along the chain of a key: to its node, or off the end. */
    method Walk(key: K) returns (n: int, prev: int, ghost k: nat)
      requires Valid()
      ensures |layout.vals| == |layout.chains| == size > 0
              && k <= |layout.chains[Chain(key)]| == |layout.vals[Chain(key)]|
      ensures n == Pointer(layout.chains[Chain(key)], k)
      ensures prev == if k > 0 then layout.chains[Chain(key)][k - 1] else NULL
      ensures n != NULL <==> key in m
      ensures if n == NULL then key !in m && k == |layout.chains[Chain(key)]|
              else key in m && k < |layout.vals[Chain(key)]| && n < |store| && layout.vals[Chain(key)][k].key == key
                   && store[n] == Cell(layout.vals[Chain(key)][k], Pointer(layout.chains[Chain(key)], k + 1))
    {
      hide Linked, AtHome, Represents, Table;
      KeyThere(hashOf, m, layout.vals, key);
      TableSize();
      var mod := hashOf(key) % size;
      ghost var nodes, vals := layout.chains[mod], layout.vals[mod];
      TableChain(store, buckets[..], layout, mod);
      n, prev, k := buckets[mod], NULL, 0;
      while n != NULL
        invariant 0 <= k <= |nodes| && n == Pointer(nodes, k) && prev == (if k > 0 then nodes[k - 1] else NULL)
        invariant forall j :: 0 <= j < k ==> vals[j].key != key
        decreases |nodes| - k
      {
        LinkedBounds(store, buckets[mod], nodes, vals, k);
        if store[n].value.key == key {
          assert HasKey(vals, key);
          return;
        }
        prev := n;
        n := store[n].next;
        k := k + 1;
      }
    }

    lemma TableSize()
      requires buckets.Length == size && Table(store, buckets[..], layout)
      ensures |layout.vals| == |layout.chains| == size
    {}

    /** hst_put; resizing on the way is switched off in the program. A binding that is there
        already changes nothing. */
    method Put(key: K, val: V)
      requires Valid()
      modifies this, buckets
      ensures Valid() && buckets == old(buckets) && m == old(m)[key := val] && size == old(size)
      ensures key in old(m) && old(m)[key] == val ==> unchanged(this) && unchanged(buckets)
    {
      hide Linked, AtHome, Represents, Table;
      var last, prev;
      ghost var k;
      last, prev, k := Walk(key);
      var mod := hashOf(key) % size;
      assert m[key := val].Keys == m.Keys + {key};
      if last != NULL {
        PutOld(hashOf, m, layout.vals, key, val, k);
        if m[key] == val {
          SameBinding(hashOf, m, layout.vals, key, k);
        }
        TableUpdated(store, buckets[..], layout, mod, k, layout.vals[mod][k].(val := val));
        store := store[last := Cell(store[last].value.(val := val), store[last].next)];
        layout := layout.(vals := layout.vals[mod := layout.vals[mod][k := layout.vals[mod][k].(val := val)]]);
        assert old(m)[key] == val ==> store == old(store) && m[key := val] == m;
      } else {
        PutNew(hashOf, m, layout.vals, key, val);
        TableAppended(store, buckets[..], layout, mod, Entry(hashOf(key), key, val));
        TableChain(store, buckets[..], layout, mod);
        var n := |store|;
        store := store + [Cell(Entry(hashOf(key), key, val), NULL)];
        if buckets[mod] == NULL {
          buckets[mod] := n;
          assert buckets[..] == old(buckets[..])[mod := n];
        } else {
          store := store[prev := Cell(store[prev].value, n)];
        }
        layout := Chains.Grown(layout, mod, n, Entry(hashOf(key), key, val));
        count := count + 1;
      }
      m := m[key := val];
    }

    /** hst_get. */
    method Get(key: K) returns (val: Option<V>)
      requires Valid()
      ensures val == if key in m then Some(m[key]) else None
    {
      hide Linked, AtHome, Represents, Table;
      var n, prev;
      ghost var k;
      n, prev, k := Walk(key);
      if n == NULL {
        return None;
      }
      EntryThere(hashOf, m, layout.vals, Chain(key), k);
      val := Some(store[n].value.val);
    }

    /** hst_remove_key. */
    method RemoveKey(key: K) returns (val: Option<V>)
      requires Valid()
      modifies this, buckets
      ensures Valid() && buckets == old(buckets) && m == old(m) - {key} && size == old(size)
      ensures val == if key in old(m) then Some(old(m)[key]) else None
    {
      hide Linked, AtHome, Represents, Table;
      var n, prev;
      ghost var k;
      n, prev, k := Walk(key);
      if n == NULL {
        assert m - {key} == m;
        return None;
      }
      var mod := hashOf(key) % size;
      Removed(hashOf, m, layout.vals, key, k);
      TableCut(store, buckets[..], layout, mod, k);
      val := Some(store[n].value.val);
      var next := store[n].next;
      if prev != NULL {
        store := store[prev := Cell(store[prev].value, next)];
      } else {
        buckets[mod] := next;
        assert buckets[..] == old(buckets[..])[mod := next];
      }
      layout := Shrunk(layout, mod, k);
      assert (m - {key}).Keys == m.Keys - {key};
      m, count := m - {key}, count - 1;
    }

    function NewSize(): nat
      reads this
    {
      if size > 1000 then size + 1000 else size * 2
    }

    /** hst_resize: every node is relinked into the new buckets; the map stays. */
    method Resize()
      requires Valid()
      modifies this
      ensures Valid() && fresh(buckets) && m == old(m) && count == old(count)
      ensures size == old(NewSize())
    {
      hide Linked, AtHome, Represents, Table, Halfway;
      RepresentsSome(hashOf, m, layout.vals);
      TableSize();
      var ns := NewSize();
      var news := new int[ns](_ => NULL);
      ghost var heads := buckets[..];
      ghost var t := HalfwayStarts(hashOf, m, store, news[..], heads, layout);
      var i := 0;
      while i < size
        invariant 0 <= i <= size && |heads| == size && news.Length == ns && fresh(news)
        invariant unchanged(this`buckets) && unchanged(this`size) && unchanged(this`m) && unchanged(this`count)
        invariant unchanged(buckets) && (forall j :: i <= j < size ==> heads[j] == buckets[j])
        invariant forall j :: 0 <= j < i ==> heads[j] == NULL
        invariant Halfway(hashOf, m, store, news[..], heads, t)
      {
        heads, t := MoveChain(news, i, heads, t);
        i := i + 1;
      }
      HalfwaySizes(hashOf, m, store, news[..], heads, t);
      HalfwayEnds(hashOf, m, store, news[..], heads, t);
      buckets, size := news, ns;
      layout := Layout(t.chains[..ns], t.vals[..ns], t.homes);
    }

    /** The nodes of one old bucket, one after the other. */
    method MoveChain(news: array<int>, i: nat, ghost olds: seq<int>, ghost t: Layout<Entry<K, V>>)
      returns (ghost olds2: seq<int>, ghost t2: Layout<Entry<K, V>>)
      requires news.Length > 0 && news != buckets && i < |olds| && i < buckets.Length && olds[i] == buckets[i]
      requires Halfway(hashOf, m, store, news[..], olds, t)
      modifies this`store, news
      ensures Halfway(hashOf, m, store, news[..], olds2, t2) && olds2 == olds[i := NULL]
    {
      hide Linked, AtHome, Represents, Table, Halfway;
      olds2, t2 := olds, t;
      var n := buckets[i];
      HalfwaySizes(hashOf, m, store, news[..], olds, t);
      while n != NULL
        invariant |olds2| == |olds| && olds2 == olds[i := n] && Halfway(hashOf, m, store, news[..], olds2, t2)
        invariant |t2.chains| == |t2.vals| == news.Length + |olds|
        decreases |t2.chains[news.Length + i]|
      {
        ghost var t3 := MoveNode(hashOf, m, store, news[..], olds2, t2, i);
        var p := store[n].next;
        var mod := store[n].value.hash % news.Length;
        ghost var was, newsWas := store, news[..];
        if news[mod] == NULL {
          news[mod] := n;
          assert news[..] == newsWas[mod := n];
          store := store[n := Cell(store[n].value, NULL)];
        } else {
          var x := LastOf(news[mod], t2.chains[mod], t2.vals[mod]);
          store := store[x := Cell(store[x].value, n)];
          store := store[n := Cell(store[n].value, NULL)];
          assert store == was[n := Cell(was[n].value, NULL)][x := Cell(was[x].value, n)];
        }
        HalfwaySizes(hashOf, m, store, news[..], olds2[i := p], t3);
        olds2, t2 := olds2[i := p], t3;
        n := p;
      }
    }

    /** The walk to the last node of a chain. */
    method LastOf(head: int, ghost nodes: seq<nat>, ghost vals: seq<Entry<K, V>>) returns (x: int)
      requires Linked(store, head, nodes, vals) && nodes != []
      ensures x == nodes[|nodes| - 1] < |store|
    {
      hide Linked;
      ChainLength(store, head, nodes, vals);
      LinkedBounds(store, head, nodes, vals, 0);
      x := head;
      ghost var k := 0;
      while store[x].next != NULL
        invariant 0 <= k < |nodes| && x == nodes[k] < |store| && store[x].next == Pointer(nodes, k + 1)
        decreases |nodes| - k
      {
        x := store[x].next;
        k := k + 1;
        LinkedBounds(store, head, nodes, vals, k);
      }
    }

    /** hst_add_all_from: the other table's bindings win. A table can be added to itself. */
    method AddAllFrom(other: Hashtable<K, V>)
      requires Valid() && other.Valid() && (other != this ==> other.buckets != buckets)
      modifies this, buckets
      ensures Valid() && other.Valid() && buckets == old(buckets) && m == old(m) + other.m
    {
      hide Valid, Done;
      other.DoneNothing();
      ghost var done: map<K, V> := map[];
      var i := 0;
      assert m == old(m) + done;
      while i < other.size
        invariant 0 <= i <= other.size == |other.layout.vals|
        invariant Valid() && other.Valid() && buckets == old(buckets) && unchanged(other) && unchanged(other.buckets)
        invariant m == old(m) + done && other.Done(done, i, 0)
      {
        ghost var more := AddChain(other, i, done, old(m));
        done := more;
        i := i + 1;
      }
      other.DoneAll(done);
    }

    /** The nodes of one chain of the other table. */
    method AddChain(other: Hashtable<K, V>, i: nat, ghost done: map<K, V>, ghost before: map<K, V>)
      returns (ghost more: map<K, V>)
      requires Valid() && other.Valid() && (other != this ==> other.buckets != buckets) && i < other.size
      requires m == before + done && other.Done(done, i, 0)
      modifies this, buckets
      ensures Valid() && other.Valid() && buckets == old(buckets) && m == before + more && other.Done(more, i + 1, 0)
      ensures unchanged(other) && unchanged(other.buckets)
    {
      hide Linked, Valid, Done;
      other.ChainStart(i);
      var n := other.buckets[i];
      ghost var nodes, vals, k := other.layout.chains[i], other.layout.vals[i], 0;
      more := done;
      while n != NULL
        invariant 0 <= k <= |nodes| == |vals| && n == Pointer(nodes, k)
        invariant Valid() && other.Valid() && buckets == old(buckets) && unchanged(other) && unchanged(other.buckets)
        invariant m == before + more && other.Done(more, i, k)
        decreases |nodes| - k
      {
        LinkedBounds(other.store, other.buckets[i], nodes, vals, k);
        other.DoneMore(more, i, k);
        other.EntryBound(i, k);
        PutFrom(other, other.store[n].value.key, other.store[n].value.val);
        more := more[vals[k].key := vals[k].val];
        n := other.store[n].next;
        k := k + 1;
      }
      other.DoneNext(more, i);
    }

    /** One binding of the other table; of the same table, one that is there. */
    method PutFrom(other: Hashtable<K, V>, key: K, val: V)
      requires Valid() && other.Valid() && (other != this ==> other.buckets != buckets)
      requires key in other.m && other.m[key] == val
      modifies this, buckets
      ensures Valid() && other.Valid() && buckets == old(buckets) && m == old(m)[key := val]
      ensures unchanged(other) && unchanged(other.buckets)
    {
      hide Valid;
      Put(key, val);
    }

    lemma EntryBound(i: nat, k: nat)
      requires Valid() && i < |layout.vals| && k < |layout.vals[i]|
      ensures var e := layout.vals[i][k]; e.key in m && m[e.key] == e.val
    {
      EntryThere(hashOf, m, layout.vals, i, k);
    }

    lemma ChainStart(i: nat)
      requires Valid() && i < size
      ensures buckets.Length == size == |layout.vals| == |layout.chains|
      ensures Linked(store, buckets[i], layout.chains[i], layout.vals[i])
      ensures |layout.chains[i]| == |layout.vals[i]| && buckets[i] == Pointer(layout.chains[i], 0)
    {
      TableChain(store, buckets[..], layout, i);
    }

    lemma DoneNothing()
      requires Valid()
      ensures Done(map[], 0, 0) && size == |layout.vals|
    {}

    /** The bindings in the chains before i and in the first k places of chain i. */
    ghost predicate Done(done: map<K, V>, i: nat, k: nat)
      reads this
    {
      (forall key <- done :: key in m && done[key] == m[key])
      && forall key <- m :: key in done <==> Before(key, i, k)
    }

    ghost predicate Before(key: K, i: nat, k: nat)
      reads this
    {
      |layout.vals| > 0
      && (Chain(key) < i
          || (Chain(key) == i && exists j :: 0 <= j < k && j < |layout.vals[i]| && layout.vals[i][j].key == key))
    }

    lemma DoneMore(done: map<K, V>, i: nat, k: nat)
      requires Valid() && Done(done, i, k) && i < |layout.vals| && k < |layout.vals[i]|
      ensures Done(done[layout.vals[i][k].key := layout.vals[i][k].val], i, k + 1)
    {
      EntryThere(hashOf, m, layout.vals, i, k);
      var e := layout.vals[i][k];
      forall key <- m ensures Before(key, i, k + 1) <==> Before(key, i, k) || key == e.key {
        if Before(key, i, k + 1) && !Before(key, i, k) {
          var j :| 0 <= j < k + 1 && j < |layout.vals[i]| && layout.vals[i][j].key == key;
        }
      }
    }

    lemma DoneNext(done: map<K, V>, i: nat)
      requires Valid() && i < |layout.vals| && Done(done, i, |layout.vals[i]|)
      ensures Done(done, i + 1, 0)
    {
      forall key <- m ensures Before(key, i + 1, 0) <==> Before(key, i, |layout.vals[i]|) {
        KeyThere(hashOf, m, layout.vals, key);
      }
    }

    lemma DoneAll(done: map<K, V>)
      requires Valid() && Done(done, |layout.vals|, 0)
      ensures done == m
    {
      forall key <- m ensures key in done {
        KeyThere(hashOf, m, layout.vals, key);
      }
    }
  }
}

/** Singly linked chains of heap cells, as the hash tables of the interpreter keep them
    (src/interpreter/gc_hashset.c, src/stdlib/hashtable.c). A pointer is the number of
    a cell; cells are allocated at the end of the store. */
module Chains {
  import opened Sequences

  datatype Cell<T> = Cell(value: T, next: int)

  type Store<T> = seq<Cell<T>>

  const NULL := -1

  function Pointer(nodes: seq<nat>, k: nat): int {
    if k < |nodes| then nodes[k] else NULL
  }

  /** From head the cells `nodes` follow each other and hold `vals`. */
  ghost predicate Linked<T>(store: Store<T>, head: int, nodes: seq<nat>, vals: seq<T>) {
    |nodes| == |vals| && head == Pointer(nodes, 0)
    && (forall k: nat :: k < |nodes| ==> LinkAt(store, nodes, vals, k))
    && (forall k, l :: 0 <= k < l < |nodes| ==> nodes[k] != nodes[l])
  }

  ghost predicate LinkAt<T>(store: Store<T>, nodes: seq<nat>, vals: seq<T>, k: nat)
    requires k < |nodes| == |vals|
  {
    nodes[k] < |store| && store[nodes[k]] == Cell(vals[k], Pointer(nodes, k + 1))
  }

  ghost predicate SameCells<T>(store: Store<T>, store2: Store<T>, nodes: seq<nat>) {
    forall k :: 0 <= k < |nodes| && nodes[k] < |store| ==> nodes[k] < |store2| && store2[nodes[k]] == store[nodes[k]]
  }

  lemma LinkedStays<T>(store: Store<T>, store2: Store<T>, head: int, nodes: seq<nat>, vals: seq<T>)
    requires Linked(store, head, nodes, vals) && SameCells(store, store2, nodes)
    ensures Linked(store2, head, nodes, vals)
  {
    forall k: nat | k < |nodes| ensures LinkAt(store2, nodes, vals, k) {
      assert LinkAt(store, nodes, vals, k);
    }
  }

  lemma LinkedBounds<T>(store: Store<T>, head: int, nodes: seq<nat>, vals: seq<T>, k: nat)
    requires Linked(store, head, nodes, vals) && k < |nodes|
    ensures nodes[k] < |store| && store[nodes[k]] == Cell(vals[k], Pointer(nodes, k + 1))
  {
    assert LinkAt(store, nodes, vals, k);
  }

  /** Another value in place k. */
  lemma LinkedUpdated<T>(store: Store<T>, head: int, nodes: seq<nat>, vals: seq<T>, k: nat, v: T)
    requires Linked(store, head, nodes, vals) && k < |nodes|
    ensures nodes[k] < |store|
    ensures Linked(store[nodes[k] := Cell(v, store[nodes[k]].next)], head, nodes, vals[k := v])
  {
    LinkedBounds(store, head, nodes, vals, k);
    var store2, vals2 := store[nodes[k] := Cell(v, store[nodes[k]].next)], vals[k := v];
    forall j: nat | j < |nodes| ensures LinkAt(store2, nodes, vals2, j) {
      LinkedBounds(store, head, nodes, vals, j);
    }
  }

  /** A new cell behind the last one. */
  lemma LinkedAppended<T>(store: Store<T>, head: int, nodes: seq<nat>, vals: seq<T>, v: T)
    requires Linked(store, head, nodes, vals)
    ensures var n := |store|;
            var store1 := store + [Cell(v, NULL)];
            if nodes == [] then Linked(store1, n, [n], [v])
            else
              var last := nodes[|nodes| - 1];
              last < n && Linked(store1[last := Cell(store[last].value, n)], head, nodes + [n], vals + [v])
  {
    var n := |store|;
    var store1 := store + [Cell(v, NULL)];
    forall k: nat | k < |nodes| ensures nodes[k] < n && store[nodes[k]] == Cell(vals[k], Pointer(nodes, k + 1)) {
      LinkedBounds(store, head, nodes, vals, k);
    }
    if nodes != [] {
      var last := nodes[|nodes| - 1];
      var store2 := store1[last := Cell(store[last].value, n)];
      forall k: nat | k < |nodes| + 1 ensures LinkAt(store2, nodes + [n], vals + [v], k) {}
    }
  }

  /** The cell at place i taken out. */
  lemma LinkedCut<T>(store: Store<T>, head: int, nodes: seq<nat>, vals: seq<T>, i: nat)
    requires Linked(store, head, nodes, vals) && i < |nodes|
    ensures var nodes2, vals2 := Without(nodes, i), Without(vals, i);
            var next := Pointer(nodes, i + 1);
            if i == 0 then Linked(store, next, nodes2, vals2)
            else
              var prev := nodes[i - 1];
              prev < |store| && Linked(store[prev := Cell(store[prev].value, next)], head, nodes2, vals2)
  {
    hide Pointer;
    var nodes2, vals2, next := Without(nodes, i), Without(vals, i), Pointer(nodes, i + 1);
    WithoutAt(nodes, i);
    WithoutAt(vals, i);
    PointerWithout(nodes, i);
    forall k: nat | k < |nodes| ensures nodes[k] < |store| && store[nodes[k]] == Cell(vals[k], Pointer(nodes, k + 1)) {
      LinkedBounds(store, head, nodes, vals, k);
    }
    var store2 := if i == 0 then store else store[nodes[i - 1] := Cell(vals[i - 1], next)];
    forall k: nat | k < |nodes2| ensures LinkAt(store2, nodes2, vals2, k) {
      var j := if k < i then k else k + 1;
      assert nodes2[k] == nodes[j] && vals2[k] == vals[j];
      if i > 0 && j != i - 1 {
        assert nodes[j] != nodes[i - 1];
      }
    }
  }

  /** The cell taken out is no longer in the chain. */
  lemma CutNode<T>(store: Store<T>, head: int, nodes: seq<nat>, vals: seq<T>, k: nat)
    requires Linked(store, head, nodes, vals) && k < |nodes|
    ensures forall n <- Without(nodes, k) :: n != nodes[k] && n in nodes
  {
    WithoutAt(nodes, k);
    forall n <- Without(nodes, k) ensures n != nodes[k] && n in nodes {
      var j :| 0 <= j < |nodes| - 1 && Without(nodes, k)[j] == n;
      assert n == nodes[if j < k then j else j + 1];
    }
  }

  lemma PointerWithout(nodes: seq<nat>, i: nat)
    requires i < |nodes|
    ensures forall k: nat :: k < |nodes| ==>
              Pointer(Without(nodes, i), k) == Pointer(nodes, if k < i then k else k + 1)
  {
    WithoutAt(nodes, i);
  }

  // ----- a table of chains -----

  /** The cells of the chain of bucket i belong to it. */
  ghost predicate AtHome(nodes: seq<nat>, homes: seq<nat>, i: nat) {
    forall k :: 0 <= k < |nodes| ==> nodes[k] < |homes| && homes[nodes[k]] == i
  }

  /** What the table is made of, beside the buckets and the cells: the cells of each
      chain, their values, and the chain of each cell. */
  datatype Layout<T> = Layout(chains: seq<seq<nat>>, vals: seq<seq<T>>, homes: seq<nat>)

  ghost predicate ChainOf<T>(store: Store<T>, buckets: seq<int>, t: Layout<T>, i: nat)
    requires i < |buckets| == |t.chains| == |t.vals|
  {
    Linked(store, buckets[i], t.chains[i], t.vals[i]) && AtHome(t.chains[i], t.homes, i)
  }

  ghost predicate Table<T>(store: Store<T>, buckets: seq<int>, t: Layout<T>) {
    |buckets| == |t.chains| == |t.vals| && |t.homes| == |store|
    && forall i: nat :: i < |buckets| ==> ChainOf(store, buckets, t, i)
  }

  lemma OtherChain<T>(store: Store<T>, store2: Store<T>, buckets: seq<int>, t: Layout<T>, homes2: seq<nat>, hash: nat,
                      i: nat)
    requires Table(store, buckets, t) && i < |buckets| && i != hash
    requires |store| <= |store2| == |homes2| && t.homes <= homes2
    requires forall n: nat :: n < |store| && t.homes[n] != hash ==> store2[n] == store[n]
    ensures Linked(store2, buckets[i], t.chains[i], t.vals[i]) && AtHome(t.chains[i], homes2, i)
  {
    assert ChainOf(store, buckets, t, i);
    LinkedStays(store, store2, buckets[i], t.chains[i], t.vals[i]);
  }

  function Grown<T>(t: Layout<T>, hash: nat, n: nat, v: T): Layout<T>
    requires hash < |t.chains| == |t.vals|
  {
    Layout(t.chains[hash := t.chains[hash] + [n]], t.vals[hash := t.vals[hash] + [v]], t.homes + [hash])
  }

  /** A new cell at the end of a chain. */
  lemma TableAppended<T>(store: Store<T>, buckets: seq<int>, t: Layout<T>, hash: nat, v: T)
    requires Table(store, buckets, t) && hash < |buckets|
    ensures var n, nodes := |store|, t.chains[hash];
            var store1 := store + [Cell(v, NULL)];
            if nodes == [] then Table(store1, buckets[hash := n], Grown(t, hash, n, v))
            else
              var last := nodes[|nodes| - 1];
              last < n && Table(store1[last := Cell(store[last].value, n)], buckets, Grown(t, hash, n, v))
  {
    hide Linked, AtHome;
    var n, nodes := |store|, t.chains[hash];
    var store1, t2 := store + [Cell(v, NULL)], Grown(t, hash, n, v);
    assert ChainOf(store, buckets, t, hash);
    LinkedAppended(store, buckets[hash], nodes, t.vals[hash], v);
    HomeGrown(nodes, t.homes, hash, n);
    if nodes == [] {
      LinkedEmpty(store, buckets[hash], t.vals[hash]);
      assert nodes + [n] == [n] && t.vals[hash] + [v] == [v];
      var buckets2 := buckets[hash := n];
      forall i: nat | i < |buckets| ensures ChainOf(store1, buckets2, t2, i) {
        if i != hash {
          OtherChain(store, store1, buckets, t, t2.homes, hash, i);
        }
      }
    } else {
      var last := nodes[|nodes| - 1];
      var store2 := store1[last := Cell(store[last].value, n)];
      LastAtHome(nodes, t.homes, hash);
      forall i: nat | i < |buckets| ensures ChainOf(store2, buckets, t2, i) {
        if i != hash {
          OtherChain(store, store2, buckets, t, t2.homes, hash, i);
        }
      }
    }
  }

  lemma LinkedEmpty<T>(store: Store<T>, head: int, vals: seq<T>)
    requires Linked(store, head, [], vals)
    ensures vals == [] && head == NULL
  {}

  lemma HomeGrown(nodes: seq<nat>, homes: seq<nat>, hash: nat, n: nat)
    requires AtHome(nodes, homes, hash) && n == |homes|
    ensures AtHome(nodes + [n], homes + [hash], hash)
  {}

  lemma LastAtHome(nodes: seq<nat>, homes: seq<nat>, hash: nat)
    requires AtHome(nodes, homes, hash) && nodes != []
    ensures nodes[|nodes| - 1] < |homes| && homes[nodes[|nodes| - 1]] == hash
  {}

  function Shrunk<T>(t: Layout<T>, hash: nat, k: nat): Layout<T>
    requires hash < |t.chains| == |t.vals| && k < |t.chains[hash]| == |t.vals[hash]|
  {
    Layout(t.chains[hash := Without(t.chains[hash], k)], t.vals[hash := Without(t.vals[hash], k)], t.homes)
  }

  /** Place k of a chain unlinked. */
  lemma TableCut<T>(store: Store<T>, buckets: seq<int>, t: Layout<T>, hash: nat, k: nat)
    requires Table(store, buckets, t) && hash < |buckets| && k < |t.chains[hash]|
    ensures var nodes := t.chains[hash];
            var next := Pointer(nodes, k + 1);
            |nodes| == |t.vals[hash]| &&
            if k == 0 then Table(store, buckets[hash := next], Shrunk(t, hash, k))
            else
              var prev := nodes[k - 1];
              prev < |store| && Table(store[prev := Cell(store[prev].value, next)], buckets, Shrunk(t, hash, k))
  {
    hide Linked, AtHome;
    assert ChainOf(store, buckets, t, hash);
    ChainLength(store, buckets[hash], t.chains[hash], t.vals[hash]);
    LinkedCut(store, buckets[hash], t.chains[hash], t.vals[hash], k);
    HomeCut(t.chains[hash], t.homes, hash, k);
    var nodes, t2 := t.chains[hash], Shrunk(t, hash, k);
    var next := Pointer(nodes, k + 1);
    var store2 := if k == 0 then store else store[nodes[k - 1] := Cell(store[nodes[k - 1]].value, next)];
    var buckets2 := if k == 0 then buckets[hash := next] else buckets;
    forall i: nat | i < |buckets| ensures ChainOf(store2, buckets2, t2, i) {
      if i != hash {
        OtherChain(store, store2, buckets, t, t.homes, hash, i);
      }
    }
  }

  lemma ChainLength<T>(store: Store<T>, head: int, nodes: seq<nat>, vals: seq<T>)
    requires Linked(store, head, nodes, vals)
    ensures |nodes| == |vals| && head == Pointer(nodes, 0)
  {}

  lemma HomeCut(nodes: seq<nat>, homes: seq<nat>, hash: nat, k: nat)
    requires AtHome(nodes, homes, hash) && k < |nodes|
    ensures AtHome(Without(nodes, k), homes, hash)
    ensures k > 0 ==> nodes[k - 1] < |homes| && homes[nodes[k - 1]] == hash
  {}

  /** Another value in place k of a chain of the table. */
  lemma TableUpdated<T>(store: Store<T>, buckets: seq<int>, t: Layout<T>, hash: nat, k: nat, v: T)
    requires Table(store, buckets, t) && hash < |buckets| && k < |t.chains[hash]|
    ensures var n := t.chains[hash][k];
            n < |store| && k < |t.vals[hash]|
            && Table(store[n := Cell(v, store[n].next)], buckets, t.(vals := t.vals[hash := t.vals[hash][k := v]]))
  {
    hide Linked, AtHome;
    assert ChainOf(store, buckets, t, hash);
    ChainLength(store, buckets[hash], t.chains[hash], t.vals[hash]);
    LinkedUpdated(store, buckets[hash], t.chains[hash], t.vals[hash], k, v);
    NodeAtHome(t.chains[hash], t.homes, hash, k);
    var n := t.chains[hash][k];
    var store2, t2 := store[n := Cell(v, store[n].next)], t.(vals := t.vals[hash := t.vals[hash][k := v]]);
    forall i: nat | i < |buckets| ensures ChainOf(store2, buckets, t2, i) {
      if i != hash {
        OtherChain(store, store2, buckets, t, t.homes, hash, i);
      }
    }
  }

  lemma NodeAtHome(nodes: seq<nat>, homes: seq<nat>, i: nat, k: nat)
    requires AtHome(nodes, homes, i) && k < |nodes|
    ensures nodes[k] < |homes| && homes[nodes[k]] == i
  {}

  /** A cell that is in no chain goes to the end of one. */
  lemma LinkedJoined<T>(store: Store<T>, head: int, nodes: seq<nat>, vals: seq<T>, c: nat)
    requires Linked(store, head, nodes, vals) && c < |store| && c !in nodes
    ensures var store1 := store[c := Cell(store[c].value, NULL)];
            if nodes == [] then Linked(store1, c, [c], [store[c].value])
            else
              var last := nodes[|nodes| - 1];
              last < |store| && last != c
              && Linked(store1[last := Cell(store[last].value, c)], head, nodes + [c], vals + [store[c].value])
  {
    var v := store[c].value;
    var store1 := store[c := Cell(v, NULL)];
    forall k: nat | k < |nodes| ensures nodes[k] < |store| && nodes[k] != c
                                        && store[nodes[k]] == Cell(vals[k], Pointer(nodes, k + 1)) {
      LinkedBounds(store, head, nodes, vals, k);
    }
    if nodes == [] {
      assert LinkAt(store1, [c], [v], 0);
    } else {
      var last := nodes[|nodes| - 1];
      var store2 := store1[last := Cell(store[last].value, c)];
      forall k: nat | k < |nodes| + 1 ensures LinkAt(store2, nodes + [c], vals + [v], k) {}
    }
  }

  function Joined<T>(t: Layout<T>, hash: nat, c: nat, v: T): Layout<T>
    requires hash < |t.chains| == |t.vals| && c < |t.homes|
  {
    Layout(t.chains[hash := t.chains[hash] + [c]], t.vals[hash := t.vals[hash] + [v]], t.homes[c := hash])
  }

  ghost predicate Loose<T>(t: Layout<T>, c: nat) {
    forall i :: 0 <= i < |t.chains| ==> c !in t.chains[i]
  }

  lemma TableJoined<T>(store: Store<T>, buckets: seq<int>, t: Layout<T>, hash: nat, c: nat)
    requires Table(store, buckets, t) && hash < |buckets| && c < |store| && Loose(t, c)
    ensures var nodes, t2 := t.chains[hash], Joined(t, hash, c, store[c].value);
            var store1 := store[c := Cell(store[c].value, NULL)];
            if nodes == [] then Table(store1, buckets[hash := c], t2)
            else
              var last := nodes[|nodes| - 1];
              last < |store| && last != c && Table(store1[last := Cell(store[last].value, c)], buckets, t2)
  {
    hide Linked, AtHome;
    var nodes, v := t.chains[hash], store[c].value;
    var store1, t2 := store[c := Cell(v, NULL)], Joined(t, hash, c, v);
    assert ChainOf(store, buckets, t, hash);
    LinkedJoined(store, buckets[hash], nodes, t.vals[hash], c);
    HomeJoined(nodes, t.homes, hash, c);
    var store2, buckets2 := store1, buckets[hash := c];
    if nodes == [] {
      LinkedEmpty(store, buckets[hash], t.vals[hash]);
      assert nodes + [c] == [c] && t.vals[hash] + [v] == [v];
    } else {
      var last := nodes[|nodes| - 1];
      LastAtHome(nodes, t.homes, hash);
      store2, buckets2 := store1[last := Cell(store[last].value, c)], buckets;
    }
    forall i: nat | i < |buckets| ensures ChainOf(store2, buckets2, t2, i) {
      if i != hash {
        assert ChainOf(store, buckets, t, i);
        Unchanged(t.chains[i], t.homes, i, if nodes == [] then [] else [nodes[|nodes| - 1]], hash, c, store, store2);
        LinkedStays(store, store2, buckets[i], t.chains[i], t.vals[i]);
        HomeElsewhere(t.chains[i], t.homes, i, hash, c);
      }
    }
  }

  lemma HomeJoined(nodes: seq<nat>, homes: seq<nat>, hash: nat, c: nat)
    requires AtHome(nodes, homes, hash) && c < |homes|
    ensures AtHome(nodes + [c], homes[c := hash], hash)
  {}

  lemma HomeElsewhere(nodes: seq<nat>, homes: seq<nat>, i: nat, hash: nat, c: nat)
    requires AtHome(nodes, homes, i) && c < |homes| && c !in nodes
    ensures AtHome(nodes, homes[c := hash], i)
  {}

  lemma Unchanged<T>(nodes: seq<nat>, homes: seq<nat>, i: nat, last: seq<nat>, hash: nat, c: nat, store: Store<T>,
                     store2: Store<T>)
    requires AtHome(nodes, homes, i) && i != hash && c !in nodes
    requires forall n <- last :: n < |homes| && homes[n] == hash
    requires |store| == |store2| && forall n: nat :: n < |store| && n != c && n !in last ==> store2[n] == store[n]
    ensures SameCells(store, store2, nodes)
  {}

  /** One chain of a table, and its first cell. */
  lemma TableChain<T>(store: Store<T>, buckets: seq<int>, t: Layout<T>, i: nat)
    requires Table(store, buckets, t) && i < |buckets|
    ensures i < |t.chains| && i < |t.vals| && Linked(store, buckets[i], t.chains[i], t.vals[i])
    ensures |t.chains[i]| == |t.vals[i]| && buckets[i] == Pointer(t.chains[i], 0)
    ensures t.chains[i] != [] ==>
              t.chains[i][0] < |store| && store[t.chains[i][0]] == Cell(t.vals[i][0], Pointer(t.chains[i], 1))
    ensures |buckets| == |t.chains| == |t.vals| && |t.homes| == |store|
  {
    assert ChainOf(store, buckets, t, i);
    if t.chains[i] != [] {
      LinkedBounds(store, buckets[i], t.chains[i], t.vals[i], 0);
    }
  }

  // ----- chains moving from one table to another -----

  lemma CutLoose<T>(store: Store<T>, buckets: seq<int>, t: Layout<T>, hash: nat, k: nat)
    requires Table(store, buckets, t) && hash < |buckets| && k < |t.chains[hash]|
    ensures |t.vals[hash]| == |t.chains[hash]| && Loose(Shrunk(t, hash, k), t.chains[hash][k])
  {
    hide Linked, AtHome;
    var c := t.chains[hash][k];
    assert ChainOf(store, buckets, t, hash);
    ChainLength(store, buckets[hash], t.chains[hash], t.vals[hash]);
    NodeAtHome(t.chains[hash], t.homes, hash, k);
    CutNode(store, buckets[hash], t.chains[hash], t.vals[hash], k);
    forall i | 0 <= i < |t.chains| && i != hash ensures c !in t.chains[i] {
      assert ChainOf(store, buckets, t, i);
      NotAtHome(t.chains[i], t.homes, i, c);
    }
  }

  lemma NotAtHome(nodes: seq<nat>, homes: seq<nat>, i: nat, c: nat)
    requires AtHome(nodes, homes, i) && c < |homes| && homes[c] != i
    ensures c !in nodes
  {}

  function Shifted(homes: seq<nat>, n: nat): seq<nat> {
    seq(|homes|, i requires 0 <= i < |homes| => homes[i] + n)
  }

  /** Empty chains in front of a table. */
  lemma TablePrepended<T>(store: Store<T>, buckets: seq<int>, t: Layout<T>, nulls: seq<int>, chains: seq<seq<nat>>,
                          vals: seq<seq<T>>)
    requires Table(store, buckets, t) && |nulls| == |chains| == |vals|
    requires forall i :: 0 <= i < |nulls| ==> nulls[i] == NULL && chains[i] == [] && vals[i] == []
    ensures Table(store, nulls + buckets, Layout(chains + t.chains, vals + t.vals, Shifted(t.homes, |nulls|)))
  {
    var t2 := Layout(chains + t.chains, vals + t.vals, Shifted(t.homes, |nulls|));
    forall i: nat | i < |nulls + buckets| ensures ChainOf(store, nulls + buckets, t2, i) {
      if i >= |nulls| {
        assert ChainOf(store, buckets, t, i - |nulls|);
      }
    }
  }

  /** The first chains of a table make a table. */
  lemma TablePrefix<T>(store: Store<T>, buckets: seq<int>, t: Layout<T>, n: nat)
    requires Table(store, buckets, t) && n <= |buckets|
    ensures Table(store, buckets[..n], Layout(t.chains[..n], t.vals[..n], t.homes))
  {
    hide Linked, AtHome;
    var t2 := Layout(t.chains[..n], t.vals[..n], t.homes);
    forall i: nat | i < n ensures ChainOf(store, buckets[..n], t2, i) {
      assert ChainOf(store, buckets, t, i);
    }
  }
}

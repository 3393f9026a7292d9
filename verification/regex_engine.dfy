/** The engine itself: rgx_compile's automaton builder and the lock-step
    simulation of rgx_matches (src/stdlib/regex.c:464-684, 850-887). */
module RegexEngine {
  import opened Sequences
  import opened RegexSyntax
  import opened RegexNfa
  import opened RegexPatch
  import opened RegexClosure
  import opened RegexParser
  import opened RegexPattern

  /** Narrowing an int to a signed char. */
  function CharOf(i: int): int {
    var b := i % 256;
    if b >= 128 then b - 256 else b
  }

  function Lower(c: int): int {
    if 'a' as int <= c <= 'z' as int then c else CharOf(c - 'A' as int + 'a' as int)
  }

  method TestClass(cls: CharClass, c: Ascii) returns (r: bool)
    ensures r == cls.Contains(c)
  {
    for i := 0 to |cls.items|
      invariant forall j | 0 <= j < i :: !cls.items[j].Hit(c)
    {
      if cls.items[i].Hit(c) {
        return !cls.negate;
      }
    }
    return cls.negate;
  }

  /** A fixed-capacity list of states, as rgx_matches keeps on its frame. */
  class StateList {
    const mem: array<nat>
    var ct: nat

    constructor (capacity: nat)
      ensures fresh(mem) && mem.Length == capacity && ct == 0
    {
      mem := new nat[capacity];
      ct := 0;
    }

    ghost function Entries(): (E: seq<nat>)
      requires ct <= mem.Length
      reads this, mem
    {
      mem[..ct]
    }
  }

  /** E lists, without duplicates, the consuming and MATCH states of M. */
  ghost predicate Lists(P: Pool, E: seq<nat>, M: set<nat>) {
    NoRepeats(E) && forall x: nat :: x in E <==> x in M && x < |P| && !P[x].Silent()
  }

  lemma SilentUnlisted(P: Pool, E: seq<nat>, M: set<nat>, s: nat)
    requires Lists(P, E, M) && s < |P| && P[s].Silent()
    ensures Lists(P, E, M + {s})
  {}

  ghost function Upto(n: nat): (all: set<nat>)
    ensures forall x: nat :: x in all <==> x < n
    ensures |all| == n
  {
    if n == 0 then {} else Upto(n - 1) + {n - 1}
  }

  ghost function Elements(E: seq<nat>): (all: set<nat>)
    ensures forall x: nat :: x in all <==> x in E
    ensures NoRepeats(E) ==> |all| == |E|
  {
    if E == [] then {} else
      assert E == E[..|E| - 1] + [E[|E| - 1]];
      Elements(E[..|E| - 1]) + {E[|E| - 1]}
  }

  lemma {:induction false} SubsetSize(a: set<nat>, b: set<nat>)
    requires a <= b
    ensures |a| <= |b|
  {
    if a != {} {
      var x :| x in a;
      SubsetSize(a - {x}, b - {x});
    }
  }

  /** Distinct numbers below n, without s, leave room for s. */
  lemma RoomFor(E: seq<nat>, n: nat, s: nat)
    requires NoRepeats(E) && s < n && s !in E && forall x <- E :: x < n
    ensures |E| < n
  {
    SubsetSize(Elements(E), Upto(n) - {s});
  }

  datatype FragmentHead = FragmentHead(start: nat, out: Option<SlotRef>)

  class Regex {
    var start: nat
    var pool: Pool
    var stateCount: nat
    var listit: seq<int>
    var listgen: nat
    var matched: bool
    var ignoreCase: bool
    ghost var ast: Ast

    // ----- building the automaton -----

    /** rgx_compile. */
    constructor (pattern: Text)
      ensures Valid() && Ready() && listgen == 0 && !ignoreCase
      ensures ast == ParseRegex(Scan(pattern, false, false)).0
    {
      start, pool, stateCount, listit := 0, [], 0, [];
      listgen, matched, ignoreCase := 0, false, false;
      new;
      hide Wired, Size, Entry, ParseRegex, Known, Marked;
      var compiler := new Compiler(pattern);
      var head := compiler.Regex();
      ast := head;
      var frag, D := Build(head);
      start := frag.start;
      var accept := BuildState(MATCH, None, Null, Null);
      ghost var before := pool;
      FragmentGrown(before[..accept], before, head, 0, D);
      Patch(frag.out, accept, D);
      PatchElsewhere(before, D, accept, accept, accept + 1);
      CompiledClosed(pool, head);
    }

    /** Pool bookkeeping while the automaton grows. */
    ghost predicate Growing()
      reads this
    {
      |listit| == |pool| == stateCount && forall i | 0 <= i < |pool| :: listit[i] == -1
    }

    method BuildState(c: int, cls: Option<CharClass>, outA: Slot, outB: Slot) returns (s: nat)
      requires Growing()
      modifies this`pool, this`stateCount, this`listit
      ensures Growing()
      ensures s == |old(pool)| && pool == old(pool) + [State(c, cls, outA, outB)]
    {
      s := |pool|;
      pool := pool + [State(c, cls, outA, outB)];
      listit := listit + [-1];
      stateCount := stateCount + 1;
    }

    method Singleton(d: SlotRef) returns (p: Option<SlotRef>)
      requires d.owner < |pool|
      modifies this`pool
      ensures p == Some(d) && pool == Write(old(pool), d, Null)
    {
      pool := Write(pool, d, Null);
      p := Some(d);
    }

    /** Hangs list b on the last slot of list a. */
    method Joined(a: Option<SlotRef>, b: Option<SlotRef>, ghost A: seq<SlotRef>, ghost B: seq<SlotRef>)
      returns (p: Option<SlotRef>)
      requires A != [] && a == Some(A[0]) && Chain(pool, A) && B != [] && b == Some(B[0])
      modifies this`pool
      ensures p == a && pool == Hung(old(pool), A, B)
    {
      p := a;
      var cur := a.value;
      ghost var k := 0;
      assert Linked(pool, A, k);
      while Read(pool, cur) != Null
        invariant 0 <= k < |A| && cur == A[k] && cur.owner < |pool|
        invariant pool == old(pool)
        decreases |A| - k
      {
        assert Linked(pool, A, k);
        cur := Read(pool, cur).slot;
        k := k + 1;
        assert Linked(pool, A, k);
      }
      assert Linked(pool, A, k);
      pool := Write(pool, cur, Next(b.value));
    }

    /** Points every slot of the list at state s. */
    method Patch(p: Option<SlotRef>, s: nat, ghost D: seq<SlotRef>)
      requires D != [] && p == Some(D[0]) && Chain(pool, D) && Distinct(D)
      modifies this`pool
      ensures pool == Patched(old(pool), D, s)
    {
      var cur := p;
      ghost var k := 0;
      while cur.Some?
        invariant 0 <= k <= |D| && |pool| == |old(pool)|
        invariant cur == if k < |D| then Some(D[k]) else None
        invariant pool == Patched(old(pool), D[..k], s)
        decreases |D| - k
      {
        assert Linked(old(pool), D, k);
        assert D[k] !in D[..k];
        assert Read(pool, D[k]) == Read(old(pool), D[k]);
        var n := Read(pool, cur.value);
        pool := Write(pool, cur.value, To(s));
        cur := if n.Next? then Some(n.slot) else None;
        assert D[..k + 1] == D[..k] + [D[k]];
        k := k + 1;
      }
      assert D[..k] == D;
    }

    /** What every builder returns: a fragment of its tree behind the old pool. */
    ghost predicate Added(before: Pool, tree: Ast, frag: FragmentHead, D: seq<SlotRef>)
      reads this
    {
      Growing() && before <= pool && |pool| == |before| + Size(tree)
      && Fragment(pool, tree, |before|, D)
      && frag.start == Entry(tree, |before|) && frag.out == Some(D[0])
    }

    method Build(head: Ast) returns (frag: FragmentHead, ghost D: seq<SlotRef>)
      requires Growing()
      modifies this`pool, this`stateCount, this`listit
      ensures Added(old(pool), head, frag, D)
      decreases head, 1
    {
      match head
      case Or(a, b) =>
        frag, D := BuildOr(a, b);
      case Sequence(a, b) =>
        frag, D := BuildSequence(a, b);
      case Base(c) =>
        frag, D := BuildLeaf(head, c, None);
      case Class(cls) =>
        frag, D := BuildLeaf(head, CHRCLS, Some(cls));
      case Repetition(a) =>
        frag, D := BuildRepetition(a);
      case AtLeastOne(a) =>
        frag, D := BuildAtLeastOne(a);
      case OneOrNone(a) =>
        frag, D := BuildOneOrNone(a);
      case Blank =>
        frag, D := BuildLeaf(head, NONE, None);
    }

    /** rgxb_base, rgxb_class and rgxb_blank: one state with its first slot open. */
    method BuildLeaf(ghost tree: Ast, c: int,
                     cls: Option<CharClass>) returns (frag: FragmentHead, ghost D: seq<SlotRef>)
      requires Growing()
      requires (tree.Base? && tree.c == c && cls == None)
            || (tree == Blank && c == NONE && cls == None)
            || (tree.Class? && c == CHRCLS && cls == Some(tree.cls))
      modifies this`pool, this`stateCount, this`listit
      ensures Added(old(pool), tree, frag, D)
    {
      hide Wired, Size, Entry;
      var s := BuildState(c, cls, Null, Null);
      WiredLeaf(pool, tree, s, Null);
      LeafFragment(pool, tree, s);
      ghost var grown := pool;
      var out := Singleton(SlotRef(s, false));
      assert pool == grown;
      frag, D := FragmentHead(s, out), [SlotRef(s, false)];
    }

    method BuildOr(a: Ast, b: Ast) returns (frag: FragmentHead, ghost D: seq<SlotRef>)
      requires Growing()
      modifies this`pool, this`stateCount, this`listit
      ensures Added(old(pool), Or(a, b), frag, D)
      decreases Or(a, b), 0
    {
      hide Wired, Size, Entry;
      WiredOr(pool, a, b, |pool|, Null);
      ghost var lo := |pool|;
      var left, A := Build(a);
      ghost var p1 := pool;
      var right, B := Build(b);
      ghost var p2 := pool;
      var ns := BuildState(SPLIT, None, To(left.start), To(right.start));
      FragmentGrown(p1, pool, a, lo, A);
      FragmentGrown(p2, pool, b, lo + Size(a), B);
      OrFragment(pool, a, b, lo, A, B);
      var out := Joined(left.out, right.out, A, B);
      frag, D := FragmentHead(ns, out), A + B;
    }

    method BuildSequence(a: Ast, b: Ast) returns (frag: FragmentHead, ghost D: seq<SlotRef>)
      requires Growing()
      modifies this`pool, this`stateCount, this`listit
      ensures Added(old(pool), Sequence(a, b), frag, D)
      decreases Sequence(a, b), 0
    {
      hide Wired, Size, Entry;
      WiredSequence(pool, a, b, |pool|, Null);
      ghost var lo := |pool|;
      var left, A := Build(a);
      ghost var p1 := pool;
      var right, B := Build(b);
      FragmentGrown(p1, pool, a, lo, A);
      SequenceFragment(pool, a, b, lo, A, B);
      PatchElsewhere(pool, A, right.start, 0, lo);
      Patch(left.out, right.start, A);
      frag, D := FragmentHead(left.start, right.out), B;
    }

    /** The part rgxb_repetition and rgxb_at_least_one share. */
    method BuildLoop(a: Ast) returns (e: FragmentHead, s: nat, ghost D: seq<SlotRef>)
      requires Growing()
      modifies this`pool, this`stateCount, this`listit
      ensures Growing() && old(pool) <= pool && s == |old(pool)| + Size(a) && |pool| == s + 1
      ensures e.start == Entry(a, |old(pool)|)
      ensures D == [SlotRef(s, true)]
      ensures Fragment(pool, Repetition(a), |old(pool)|, D) && Fragment(pool, AtLeastOne(a), |old(pool)|, D)
      decreases a, 2
    {
      hide Wired, Size, Entry;
      ghost var lo := |pool|;
      ghost var A;
      e, A := Build(a);
      ghost var p1 := pool;
      s := BuildState(SPLIT, None, To(e.start), Null);
      FragmentGrown(p1, pool, a, lo, A);
      LoopFragment(pool, a, lo, A);
      PatchElsewhere(pool, A, s, 0, lo);
      Patch(e.out, s, A);
      D := [SlotRef(s, true)];
    }

    method BuildRepetition(a: Ast) returns (frag: FragmentHead, ghost D: seq<SlotRef>)
      requires Growing()
      modifies this`pool, this`stateCount, this`listit
      ensures Added(old(pool), Repetition(a), frag, D)
      decreases Repetition(a), 0
    {
      hide Wired, Size, Entry;
      WiredRepetition(pool, a, |pool|, Null);
      var e, s;
      e, s, D := BuildLoop(a);
      ghost var grown := pool;
      assert Linked(pool, D, 0);
      var out := Singleton(SlotRef(s, true));
      assert pool == grown;
      frag := FragmentHead(s, out);
    }

    method BuildAtLeastOne(a: Ast) returns (frag: FragmentHead, ghost D: seq<SlotRef>)
      requires Growing()
      modifies this`pool, this`stateCount, this`listit
      ensures Added(old(pool), AtLeastOne(a), frag, D)
      decreases AtLeastOne(a), 0
    {
      hide Wired, Size, Entry;
      WiredAtLeastOne(pool, a, |pool|, Null);
      var e, s;
      e, s, D := BuildLoop(a);
      ghost var grown := pool;
      assert Linked(pool, D, 0);
      var out := Singleton(SlotRef(s, true));
      assert pool == grown;
      frag := FragmentHead(e.start, out);
    }

    method BuildOneOrNone(a: Ast) returns (frag: FragmentHead, ghost D: seq<SlotRef>)
      requires Growing()
      modifies this`pool, this`stateCount, this`listit
      ensures Added(old(pool), OneOrNone(a), frag, D)
      decreases OneOrNone(a), 0
    {
      hide Wired, Size, Entry;
      WiredOption(pool, a, |pool|, Null);
      ghost var lo := |pool|;
      var e, A := Build(a);
      ghost var p1 := pool;
      var s := BuildState(SPLIT, None, To(e.start), Null);
      ghost var B := [SlotRef(s, true)];
      FragmentGrown(p1, pool, a, lo, A);
      OptionFragment(pool, a, lo, A);
      ghost var grown := pool;
      var last := Singleton(SlotRef(s, true));
      assert pool == grown;
      var out := Joined(e.out, last, A, B);
      frag, D := FragmentHead(s, out), A + B;
    }

    // ----- running it -----

    /** A compiled regex, between or during matches. */
    ghost predicate Valid()
      reads this
    {
      Compiled(pool, ast) && Closed(pool) && start == Entry(ast, 0) && start < |pool|
      && stateCount == |pool| && |listit| == |pool|
      && (forall i | 0 <= i < |pool| :: Known(pool[i]) || pool[i].c == MATCH)
      && forall i | 0 <= i < |pool| :: listit[i] <= listgen
    }

    /** The states that carry the current generation. */
    ghost function Marked(): (M: set<nat>)
      reads this
      ensures Within(pool, M)
    {
      set i | 0 <= i < |pool| && i < |listit| && listit[i] == listgen
    }

    /** No state looks visited before a match has begun. */
    ghost predicate Ready()
      reads this
    {
      Marked() == {}
    }

    method Test(s: nat, c: Ascii) returns (r: bool)
      requires Valid() && s < |pool| && !pool[s].Silent()
      ensures r == Consumes(pool[s], c, ignoreCase)
    {
      if pool[s].c == ANY {
        return true;
      }
      if pool[s].c != CHRCLS {
        if ignoreCase && IsLetter(c as int) {
          return Lower(CharOf(pool[s].c)) == Lower(c as int);
        }
        return pool[s].c == c as int;
      }
      r := TestClass(pool[s].chrcls.value, c);
    }

    /** What a list under construction must hold before and after each visit. */
    ghost predicate Listing(list: StateList, gray: set<nat>)
      reads this, list, list.mem
    {
      Valid() && gray <= Marked() && Settled(pool, Marked(), gray)
      && list.ct <= list.mem.Length == |pool| && Lists(pool, list.Entries(), Marked())
    }

    ghost predicate FoundMatch(before: set<nat>)
      reads this
    {
      exists x <- Marked() - before :: pool[x].c == MATCH
    }

    /** A silent state is marked before its successors are visited. */
    method Mark(list: StateList, s: nat, ghost gray: set<nat>)
      requires Listing(list, gray) && s < |pool| && s !in Marked() && pool[s].Silent()
      modifies this`listit
      ensures Listing(list, gray + {s}) && Marked() == old(Marked()) + {s}
    {
      hide Compiled, Lists, Settled, Known;
      SettledBegin(pool, Marked(), gray, s);
      SilentUnlisted(pool, list.Entries(), Marked(), s);
      ghost var M := Marked();
      listit := listit[s := listgen];
      assert Marked() == M + {s};
    }

    /** What one visit of s adds: only states silently reachable from s. */
    ghost predicate Visited(before: set<nat>, s: nat)
      requires Closed(pool) && s < |pool|
      reads this
    {
      before <= Marked() && s in Marked() && forall x <- Marked() - before :: Reaches(pool, s, x)
    }

    /** Marks what is silently reachable from s and lists its consuming and MATCH
        states. `gray` holds the states whose own calls are still in progress. */
    method AddState(list: StateList, s: nat, ghost gray: set<nat>)
      requires Listing(list, gray) && s < |pool|
      modifies this`listit, this`matched, list`ct, list.mem
      ensures Listing(list, gray) && Visited(old(Marked()), s)
      ensures matched <==> old(matched) || FoundMatch(old(Marked()))
      decreases Upto(|pool|) - Marked(), 1
    {
      hide Compiled, Lists, Settled, Known, Reaches;
      if listit[s] == listgen {
        return;
      }
      ReachesSelf(pool, s);
      assert ClosedState(pool, s);
      if pool[s].c == SPLIT {
        AddSplit(list, s, gray);
        return;
      } else if pool[s].c == NONE {
        ghost var M := Marked();
        Mark(list, s, gray);
        AddState(list, pool[s].out.state, gray + {s});
        SettledEnd(pool, Marked(), gray, s);
        forall x | x in Marked() - M ensures Reaches(pool, s, x) {
          if x != s {
            ReachesFirst(pool, s, pool[s].out.state, x);
          }
        }
        return;
      }
      Enlist(list, s, gray);
    }

    /** A SPLIT is marked and both of its successors are visited. */
    method AddSplit(list: StateList, s: nat, ghost gray: set<nat>)
      requires Listing(list, gray) && s < |pool| && s !in Marked() && pool[s].c == SPLIT
      modifies this`listit, this`matched, list`ct, list.mem
      ensures Listing(list, gray) && Visited(old(Marked()), s)
      ensures matched <==> old(matched) || FoundMatch(old(Marked()))
      decreases Upto(|pool|) - Marked(), 0
    {
      hide Compiled, Lists, Settled, Known, Reaches;
      ghost var M := Marked();
      assert ClosedState(pool, s);
      ReachesSelf(pool, s);
      Mark(list, s, gray);
      AddState(list, pool[s].out.state, gray + {s});
      ghost var M1 := Marked();
      AddState(list, pool[s].outAlt.state, gray + {s});
      SettledEnd(pool, Marked(), gray, s);
      forall x | x in Marked() - M ensures Reaches(pool, s, x) {
        if x in M1 - (M + {s}) {
          ReachesFirst(pool, s, pool[s].out.state, x);
        } else if x != s {
          ReachesFirst(pool, s, pool[s].outAlt.state, x);
        }
      }
    }

    /** A consuming or MATCH state is marked and appended. */
    method Enlist(list: StateList, s: nat, ghost gray: set<nat>)
      requires Listing(list, gray) && s < |pool| && s !in Marked() && !pool[s].Silent()
      modifies this`listit, this`matched, list`ct, list.mem
      ensures Listing(list, gray) && Marked() == old(Marked()) + {s}
      ensures matched <==> old(matched) || pool[s].c == MATCH
    {
      hide Compiled, Known;
      ghost var M, E := Marked(), list.Entries();
      listit := listit[s := listgen];
      assert Marked() == M + {s};
      RoomFor(E, |pool|, s);
      list.mem[list.ct] := s;
      list.ct := list.ct + 1;
      assert list.Entries() == E + [s];
      if pool[s].c == MATCH {
        matched := true;
      }
    }

    ghost predicate SeenMatch()
      reads this
    {
      exists x <- Marked() :: pool[x].c == MATCH
    }

    /** The next list so far: what the states of T reach on c. */
    ghost predicate Stepped(nex: StateList, T: set<nat>, c: Ascii)
      reads this, nex, nex.mem
    {
      Listing(nex, {}) && Within(pool, T)
      && Marked() == Closure(pool, Moves(pool, T, c, ignoreCase))
      && (matched <==> SeenMatch())
    }

    /** One round of rgx_step's loop. */
    method Advance(nex: StateList, s: nat, c: Ascii, ghost T: set<nat>)
      requires Stepped(nex, T, c) && s < |pool| && !pool[s].Silent()
      modifies this`listit, this`matched, nex`ct, nex.mem
      ensures Stepped(nex, T + {s}, c)
    {
      hide Compiled, Closure, Lists;
      assert ClosedState(pool, s);
      MovesAdd(pool, T, s, c, ignoreCase);
      ghost var M := Marked();
      var r := Test(s, c);
      if r {
        AddState(nex, pool[s].out.state, {});
        ClosureAdd(pool, Moves(pool, T, c, ignoreCase), pool[s].out.state, M, Marked());
      } else {
        assert Moves(pool, T, c, ignoreCase) + {} == Moves(pool, T, c, ignoreCase);
      }
    }

    /** One character: from every listed state that consumes c, visit its successor. */
    method Step(cur: StateList, nex: StateList, c: Ascii, ghost S: set<nat>)
      requires Valid() && cur != nex && cur.mem != nex.mem && Within(pool, S)
      requires cur.ct <= cur.mem.Length && Lists(pool, cur.Entries(), S)
      requires nex.mem.Length == |pool|
      modifies this`listgen, this`listit, this`matched, nex`ct, nex.mem
      ensures Valid() && listgen == old(listgen) + 1
      ensures Marked() == Closure(pool, Moves(pool, S, c, ignoreCase))
      ensures nex.ct <= nex.mem.Length && Lists(pool, nex.Entries(), Marked())
      ensures matched <==> SeenMatch()
    {
      hide Compiled;
      listgen := listgen + 1;
      matched := false;
      nex.ct := 0;
      assert Marked() == {} && nex.Entries() == [];
      ghost var E := cur.Entries();
      ghost var T: set<nat> := {};
      for i := 0 to cur.ct
        invariant Stepped(nex, T, c) && listgen == old(listgen) + 1
        invariant cur.Entries() == E && T <= S
        invariant forall x: nat :: x in T <==> x in E[..i]
      {
        var s := cur.mem[i];
        assert s == E[i] && s in E && E[..i + 1] == E[..i] + [s];
        Advance(nex, s, c, T);
        T := T + {s};
      }
      assert E[..cur.ct] == E;
      MovesOfListed(pool, T, S, c, ignoreCase);
    }

    method ResetAll()
      requires Valid()
      modifies this`listit
      ensures Valid() && listit == seq(|pool|, _ => 0)
    {
      for i := 0 to |listit|
        invariant |listit| == |pool|
        invariant forall j | 0 <= j < i :: listit[j] == 0
        invariant forall j | i <= j < |listit| :: listit[j] == old(listit)[j]
      {
        listit := listit[i := 0];
      }
    }


    /** The start closure is listed, when the start state does not look visited. */
    method Begin(cur: StateList)
      requires Valid() && Ready() && cur.ct == 0 && cur.mem.Length == |pool|
      modifies this`listit, this`matched, cur`ct, cur.mem
      ensures Valid() && Marked() == After(pool, start, [], ignoreCase)
      ensures cur.ct <= cur.mem.Length && Lists(pool, cur.Entries(), Marked())
    {
      assert cur.Entries() == [];
      AddState(cur, start, {});
      SettledIsClosure(pool, Marked(), {start});
    }

    /** The loop of rgx_matches, over a start list that holds S. */
    method ReadAll(first: StateList, second: StateList, input: seq<Ascii>, ghost fed: bool, ghost S0: set<nat>)
      requires Valid() && first != second && first.mem != second.mem && !matched
      requires first.mem.Length == second.mem.Length == |pool| && first.ct <= first.mem.Length
      requires S0 == if fed then After(pool, start, [], ignoreCase) else {}
      requires Lists(pool, first.Entries(), S0)
      modifies this`listgen, this`listit, this`matched, first`ct, first.mem, second`ct, second.mem
      ensures Valid() && listgen == old(listgen) + |input|
      ensures matched <==> fed && input != [] && Accepts(pool, To(start), input, ignoreCase)
    {
      hide Compiled, Closure, After;
      var cur, nex := first, second;
      var k := 0;
      ghost var S := S0;
      assert input[..k] == [];
      while k < |input|
        invariant k <= |input| && Valid() && listgen == old(listgen) + k
        invariant {cur, nex} == {first, second} && cur != nex
        invariant cur.ct <= cur.mem.Length
        invariant S == if fed then After(pool, start, input[..k], ignoreCase) else {}
        invariant Lists(pool, cur.Entries(), S)
        invariant matched <==> k > 0 && exists x <- S :: pool[x].c == MATCH
      {
        assert input[..k + 1] == input[..k] + [input[k]];
        AfterOneMore(pool, start, input[..k], input[k], ignoreCase);
        Step(cur, nex, input[k], S);
        S := Marked();
        cur, nex := nex, cur;
        k := k + 1;
      }
      assert input[..k] == input;
      MatchAccepts(pool, start, input, ignoreCase);
    }

    /** rgx_matches. On a ready regex the answer is membership in the language,
        except that the empty subject never matches; a regex that is not ready
        answers no. It is ready afterwards once any character was ever read. */
    method Match(input: seq<Ascii>) returns (res: bool)
      requires Valid() && (Ready() || start in Marked())
      modifies this`listgen, this`listit, this`matched
      ensures Valid() && (Ready() || start in Marked())
      ensures res <==> old(Ready()) && input != [] && Matches(ast, input, ignoreCase)
      ensures listgen == old(listgen) + |input| && (Ready() <==> listgen > 0)
    {
      hide Compiled, Closure, Matches, After;
      var cur := new StateList(stateCount);
      var nex := new StateList(stateCount);
      ghost var S: set<nat> := {};
      ghost var fed := Ready();
      assert fed <==> start !in Marked();
      if listit[start] != listgen {
        Begin(cur);
        S := Marked();
      }
      matched := false;
      ReadAll(cur, nex, input, fed, S);
      res := matched;
      CompiledLanguage(pool, ast, input, ignoreCase);
      ResetAll();
      assert listgen == 0 ==> start in Marked();
    }
  }

  // ----- a pattern and a subject -----

  /** Compiling a well-formed pattern and matching one subject in full. */
  method FullMatch(pattern: Text, subject: Text, ignoreCase: bool, ghost p: Pattern) returns (res: bool)
    requires WellFormed(p) && pattern == Print(p)
    ensures res <==> subject != [] && Matches(Tree(p), subject, ignoreCase)
  {
    hide WellFormed, Tree, Print, Matches, ParseRegex;
    ParserInvertsPrint(p);
    var regex := new Regex(pattern);
    regex.ignoreCase := ignoreCase;
    res := regex.Match(subject);
  }

  function TotalLength(texts: seq<Text>): nat {
    if texts == [] then 0 else TotalLength(texts[..|texts| - 1]) + |texts[|texts| - 1]|
  }

  /** One regex, any number of subjects: each is answered correctly unless it is
      empty, or not the first while all before it were empty. */
  method MatchEach(regex: Regex, subjects: seq<Text>) returns (answers: seq<bool>)
    requires regex.Valid() && regex.Ready() && regex.listgen == 0
    modifies regex`listgen, regex`listit, regex`matched
    ensures |answers| == |subjects|
    ensures forall k | 0 <= k < |subjects| ::
              answers[k] <==> (k == 0 || TotalLength(subjects[..k]) > 0) && subjects[k] != []
                              && Matches(regex.ast, subjects[k], regex.ignoreCase)
  {
    hide Matches, Compiled, Closed, Known, Regex.Marked;
    answers := [];
    for i := 0 to |subjects|
      invariant regex.Valid() && (regex.Ready() || regex.start in regex.Marked())
      invariant regex.listgen == TotalLength(subjects[..i])
      invariant regex.Ready() <==> i == 0 || regex.listgen > 0
      invariant |answers| == i
      invariant forall k | 0 <= k < i ::
                  answers[k] <==> (k == 0 || TotalLength(subjects[..k]) > 0) && subjects[k] != []
                                  && Matches(regex.ast, subjects[k], regex.ignoreCase)
    {
      assert subjects[..i + 1][..i] == subjects[..i];
      var res := regex.Match(subjects[i]);
      answers := answers + [res];
    }
  }

  /** Both exceptions at work on the pattern `a?`: the empty subject, which is in its
      language, and the subject `a` right after it, are turned down. */
  method EmptyFirst() returns (onEmpty: bool, onA: bool, onAAgain: bool)
    ensures Matches(Tree(OptionalA()), [], false) && Matches(Tree(OptionalA()), ['a'], false)
    ensures !onEmpty && !onA && onAAgain
  {
    hide *;
    OptionalALanguage();
    ParserInvertsPrint(OptionalA());
    var regex := new Regex(['a', '?']);
    var subjects: seq<Text> := [[], ['a'], ['a']];
    EmptyThenTwo(subjects);
    var answers := MatchEach(regex, subjects);
    onEmpty, onA, onAAgain := answers[0], answers[1], answers[2];
  }

  lemma EmptyThenTwo(subjects: seq<Text>)
    requires subjects == [[], ['a'], ['a']]
    ensures TotalLength(subjects[..1]) == 0 && TotalLength(subjects[..2]) == 1
  {
    assert subjects[..1][..0] == [] && subjects[..2][..1] == subjects[..1];
  }

  function OptionalA(): Pattern {
    One(Then(Empty, Optional(Plain(Letter('a')))))
  }

  lemma OptionalALanguage()
    ensures WellFormed(OptionalA()) && Print(OptionalA()) == ['a', '?']
    ensures Matches(Tree(OptionalA()), [], false) && Matches(Tree(OptionalA()), ['a'], false)
  {
    var a: Text := ['a'];
    var e: Text := [];
    var body := Base('a' as int);
    assert Matches(body, a, false);
    assert a[..0] == [] && a[0..] == a && e[..0] == [] && e[0..] == [];
    assert Matches(OneOrNone(body), a[0..], false) && Matches(OneOrNone(body), e[0..], false);
    assert Tree(OptionalA()) == Sequence(Blank, OneOrNone(body));
  }
}

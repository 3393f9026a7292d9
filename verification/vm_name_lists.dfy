/** The lists of uses of the functions being compiled, one inside of the other, and what each
    step does to them and to the code. */
module LankyNameLists {
  import opened LankyMachine
  import opened LankyAssembly
  import opened BytecodeAnalyzer
  import opened LankyNames

  // ----- the functions being compiled -----

  datatype Past = Past(ev: seq<Event>, c: Context)

  /** w is about the k-th event of its owner, which was emitted with a slot. */
  predicate EntryOf(w: NameWrapper, past: seq<Past>, k: nat) {
    w.owner < |past| && k < |past[w.owner].ev| && Recorded(past[w.owner].ev, past[w.owner].c, k)
    && past[w.owner].ev[k].pos == w.idx && past[w.owner].ev[k].name == w.name
  }

  /** The list of function d has what was recorded in it and in those around it. */
  ghost predicate ListOk(list: seq<NameWrapper>, past: seq<Past>, d: nat)
    requires d < |past|
  {
    (forall w <- list :: w.owner <= d && exists k: nat :: EntryOf(w, past, k))
    && (forall a: nat, k: nat :: a <= d && Recorded(past[a].ev, past[a].c, k) ==>
          NameWrapper(a, past[a].ev[k].name, past[a].ev[k].pos) in list)
    && (forall x :: x in past[d].c.outer <==> OfOthers(list, d, x))
  }

  /** Something around function d has x in a slot. */
  predicate OfOthers(list: seq<NameWrapper>, d: nat, x: string) {
    exists w <- list :: w.owner < d && w.name == x
  }

  /** Every function but the innermost is at a declaration inside of it. */
  predicate Waits(p: Past) {
    p.ev != [] && p.ev[|p.ev| - 1].Inner?
  }

  ghost predicate ScopeOk(s: Scope, past: seq<Past>, d: nat)
    requires d < |past|
  {
    ListOk(s.usedNames, past, d) && FitsAs(s, past[d].ev, Locals(past[d].ev, past[d].c)) && s.repl == past[d].c.repl
  }

  ghost predicate InOrder(stack: seq<Scope>, past: seq<Past>) {
    |stack| == |past| > 0 && (forall d: nat :: d < |past| ==> ScopeOk(stack[d], past, d))
    && forall d: nat :: d < |past| - 1 ==> Waits(past[d])
  }

  // ----- the in-place switch -----

  predicate IsClose(ops: seq<int>, idx: nat)
    requires idx < |ops|
  {
    ops[idx] == LOAD_CLOSE || ops[idx] == SAVE_CLOSE
  }

  /** The access at idx is a closure access of x afterwards; nothing else changes, least of all
      the length of the code. */
  ghost predicate Rewritten(s: Scope, s': Scope, x: string, idx: nat)
    requires idx + 5 <= |s.rops|
  {
    s' == s.(rops := s'.rops, rnames := s'.rnames) && |s'.rops| == |s.rops| && s.rnames <= s'.rnames
    && (forall q :: 0 <= q < |s.rops| && !(idx <= q < idx + 5) ==> s'.rops[q] == s.rops[q])
    && if IsClose(s.rops, idx) then s' == s else CloseAt(s', idx, x, s.rops[idx] == LOAD_LOCAL)
  }

  lemma SameSlice(a: seq<int>, b: seq<int>, idx: nat, p: nat, q: nat)
    requires |a| == |b| && idx + 5 <= |a| && p <= q <= |a| && (q <= idx || idx + 5 <= p)
    requires forall i :: 0 <= i < |a| && !(idx <= i < idx + 5) ==> b[i] == a[i]
    ensures b[p..q] == a[p..q]
  {}

  /** An event elsewhere in the code. */
  lemma OthersStand(s: Scope, s': Scope, x: string, idx: nat, e: Event, load: bool, local: bool)
    requires idx + 5 <= |s.rops| && Rewritten(s, s', x, idx) && Emitted(s, e, local)
    requires Before(e, Access(idx, x, load)) || (!e.Inner? && Before(Access(idx, x, load), e))
    ensures Emitted(s', e, local)
  {
    match e
    case Access(p, y, l) =>
      SameSlice(s.rops, s'.rops, idx, p, p + 5);
      if !local {
        var i: nat :| i < |s.rnames| && s.rnames[i] == y && Stands(s.rops, p, CloseOp(l), i);
        assert s'.rnames[i] == y && Stands(s'.rops, p, CloseOp(l), i);
      }
    case Raw(p, ops) => SameSlice(s.rops, s'.rops, idx, p, p + |ops|);
    case Inner(_) =>
  }

  lemma KindAt(s: Scope, p: nat, x: string, load: bool)
    ensures LocalAt(s, p, x, load) ==> p + 5 <= |s.rops| && s.rops[p] == LocalOp(load) && !IsClose(s.rops, p)
    ensures CloseAt(s, p, x, load) ==> p + 5 <= |s.rops| && IsClose(s.rops, p)
  {
    if LocalAt(s, p, x, load) {
      assert s.rops[p..p + 5][0] == s.rops[p];
    }
    if i: nat :| i < |s.rnames| && s.rnames[i] == x && Stands(s.rops, p, CloseOp(load), i) {
      assert s.rops[p..p + 5][0] == s.rops[p];
    }
  }

  lemma RewrittenFits(s: Scope, s': Scope, ev: seq<Event>, L: set<nat>, k: nat)
    requires FitsAs(s, ev, L) && k < |ev| && ev[k].Access?
    requires ev[k].pos + 5 <= |s.rops| && Rewritten(s, s', ev[k].name, ev[k].pos)
    ensures FitsAs(s', ev, L - {k})
  {
    var p, x, load := ev[k].pos, ev[k].name, ev[k].load;
    KindAt(s, p, x, load);
    assert Emitted(s, ev[k], k in L);
    if IsClose(s.rops, p) {
      assert L - {k} == L;
    } else {
      forall j: nat | j < |ev| ensures Emitted(s', ev[j], j in L - {k}) {
        if j != k {
          assert Emitted(s, ev[j], j in L);
          OthersStand(s, s', x, p, ev[j], load, j in L);
        }
      }
    }
  }

  lemma GrownFits(s: Scope, ev: seq<Event>, L: set<nat>, X: set<string>)
    requires FitsAs(s, ev, L) && ev != [] && ev[|ev| - 1].Inner?
    ensures FitsAs(s, Grown(ev, X), L)
  {
    var ev' := Grown(ev, X);
    forall k: nat | k < |ev'| ensures Emitted(s, ev'[k], k in L) {
      assert Emitted(s, ev[k], k in L);
    }
    forall j: nat, k: nat | j < k < |ev'| ensures Before(ev'[j], ev'[k]) {
      assert Before(ev[j], ev[k]);
    }
  }

  /** More code, for one more event. */
  ghost predicate Longer(s: Scope, s': Scope) {
    s.rops <= s'.rops && s.rnames <= s'.rnames && (forall x <- s.savedLocals :: x in s'.savedLocals)
    && (forall x <- s.savedLocals :: s'.savedLocals[x] == s.savedLocals[x])
  }

  lemma LongerStands(s: Scope, s': Scope, e: Event, local: bool)
    requires Longer(s, s') && Emitted(s, e, local)
    ensures Emitted(s', e, local)
  {
    match e
    case Access(p, x, load) =>
      assert s'.rops[p..p + 5] == s.rops[p..p + 5];
      if !local {
        var i: nat :| i < |s.rnames| && s.rnames[i] == x && Stands(s.rops, p, CloseOp(load), i);
        assert s'.rnames[i] == x && Stands(s'.rops, p, CloseOp(load), i);
      }
    case Raw(p, ops) => assert s'.rops[p..p + |ops|] == s.rops[p..p + |ops|];
    case Inner(_) =>
  }

  lemma EventEnds(s: Scope, e: Event, local: bool, f: Event)
    requires Emitted(s, e, local) && (f.Inner? || f.pos == |s.rops|)
    ensures Before(e, f)
  {}

  lemma LongerFits(s: Scope, s': Scope, ev: seq<Event>, L: set<nat>, e: Event, local: bool)
    requires FitsAs(s, ev, L) && Longer(s, s') && SlotsOk(s') && (forall k <- L :: k < |ev|)
    requires Emitted(s', e, local) && (e.Inner? || e.pos == |s.rops|)
    ensures FitsAs(s', ev + [e], L + if local then {|ev|} else {})
  {
    hide SlotsOk, Emitted, Longer, Before;
    var ev', L' := ev + [e], L + if local then {|ev|} else {};
    forall k: nat | k < |ev'| ensures Emitted(s', ev'[k], k in L') {
      if k < |ev| {
        assert ev'[k] == ev[k] && (k in L' <==> k in L);
        assert Emitted(s, ev[k], k in L);
        LongerStands(s, s', ev[k], k in L);
      }
    }
    forall j: nat, k: nat | j < k < |ev'| ensures Before(ev'[j], ev'[k]) {
      assert ev'[j] == ev[j];
      if k < |ev| {
        assert ev'[k] == ev[k] && Before(ev[j], ev[k]);
      } else {
        assert Emitted(s, ev[j], j in L);
        EventEnds(s, ev[j], j in L, e);
      }
    }
  }

  // ----- what is in the lists -----

  predicate SameRecord(p: Past, p': Past, k: nat) {
    Recorded(p'.ev, p'.c, k) == Recorded(p.ev, p.c, k) && (Recorded(p.ev, p.c, k) ==> p'.ev[k] == p.ev[k])
  }

  /** p' has the same events that were emitted with a slot. */
  ghost predicate SameRecords(p: Past, p': Past) {
    p'.c == p.c && forall k: nat :: SameRecord(p, p', k)
  }

  lemma GrownSame(p: Past, X: set<string>)
    requires Waits(p)
    ensures SameRecords(p, Past(Grown(p.ev, X), p.c))
  {
    var p' := Past(Grown(p.ev, X), p.c);
    forall k: nat ensures SameRecord(p, p', k) {
      GrownRecorded(p.ev, p.c, X, k);
      hide Stored, Shared;
    }
  }

  lemma MoreSame(p: Past, e: Event)
    requires !Recorded(p.ev + [e], p.c, |p.ev|)
    ensures SameRecords(p, Past(p.ev + [e], p.c))
  {
    var p' := Past(p.ev + [e], p.c);
    forall k: nat ensures SameRecord(p, p', k) {
      hide Stored, Shared;
      if k < |p.ev| {
        RecordedMore(p.ev, p.c, e, k);
      }
    }
  }

  lemma ListSame(list: seq<NameWrapper>, past: seq<Past>, past': seq<Past>, d: nat)
    requires d < |past| == |past'| && ListOk(list, past, d)
    requires forall a: nat :: a <= d ==> SameRecords(past[a], past'[a])
    ensures ListOk(list, past', d)
  {
    hide Stored, Shared;
    forall w <- list ensures w.owner <= d && exists k: nat :: EntryOf(w, past', k) {
      var k: nat :| EntryOf(w, past, k);
      assert SameRecord(past[w.owner], past'[w.owner], k);
      assert EntryOf(w, past', k);
    }
    forall a: nat, k: nat | a <= d && Recorded(past'[a].ev, past'[a].c, k)
      ensures NameWrapper(a, past'[a].ev[k].name, past'[a].ev[k].pos) in list
    {
      assert SameRecord(past[a], past'[a], k);
    }
    assert past'[d].c == past[d].c;
  }

  /** x is used in the innermost function, whose code has come to p. */
  function Used(past: seq<Past>, x: string, load: bool, p: nat): seq<Past>
    requires forall d: nat :: d < |past| - 1 ==> Waits(past[d])
  {
    seq(|past|, a requires 0 <= a < |past| && (a < |past| - 1 ==> Waits(past[a])) =>
      if a < |past| - 1 then Past(Grown(past[a].ev, {x}), past[a].c)
      else Past(past[a].ev + [Access(p, x, load)], past[a].c))
  }

  /** Everything around the innermost function is as before. */
  lemma AroundUsed(stack: seq<Scope>, past: seq<Past>, x: string, load: bool, p: nat, a: nat)
    requires InOrder(stack, past) && a < |past| - 1
    ensures ListOk(stack[a].usedNames, Used(past, x, load, p), a)
  {
    hide ListOk, SameRecords, FitsAs;
    assert ScopeOk(stack[a], past, a);
    forall b: nat | b <= a ensures SameRecords(past[b], Used(past, x, load, p)[b]) {
      GrownSame(past[b], {x});
    }
    ListSame(stack[a].usedNames, past, Used(past, x, load, p), a);
  }

  /** A closure access is not recorded. */
  lemma CloseUsed(stack: seq<Scope>, past: seq<Past>, x: string, load: bool, p: nat)
    requires InOrder(stack, past)
    requires var d := |past| - 1; !NewLocal(past[d].ev, past[d].c, x, load)
    ensures var d := |past| - 1; ListOk(stack[d].usedNames, Used(past, x, load, p), d)
  {
    hide ListOk, SameRecords, FitsAs, NewLocal;
    var d := |past| - 1;
    assert ScopeOk(stack[d], past, d);
    forall b: nat | b < d ensures SameRecords(past[b], Used(past, x, load, p)[b]) {
      GrownSame(past[b], {x});
    }
    NewAccess(past[d].ev, past[d].c, p, x, load);
    MoreSame(past[d], Access(p, x, load));
    ListSame(stack[d].usedNames, past, Used(past, x, load, p), d);
  }

  /** An access with a slot is. */
  lemma LocalUsed(stack: seq<Scope>, past: seq<Past>, x: string, load: bool, p: nat)
    requires InOrder(stack, past)
    requires var d := |past| - 1; NewLocal(past[d].ev, past[d].c, x, load)
    ensures var d := |past| - 1;
            ListOk(stack[d].usedNames + [NameWrapper(d, x, p)], Used(past, x, load, p), d)
  {
    hide FitsAs, NewLocal, Stored, Shared;
    var d, past' := |past| - 1, Used(past, x, load, p);
    var list, w, n := stack[d].usedNames, NameWrapper(d, x, p), |past[d].ev|;
    assert ScopeOk(stack[d], past, d);
    NewAccess(past[d].ev, past[d].c, p, x, load);
    forall b: nat, k: nat | b <= d && (b < d || k < n) ensures SameRecord(past[b], past'[b], k) {
      if b < d {
        GrownSame(past[b], {x});
      } else {
        RecordedMore(past[d].ev, past[d].c, Access(p, x, load), k);
      }
    }
    forall v <- list + [w] ensures v.owner <= d && exists k: nat :: EntryOf(v, past', k) {
      if v in list {
        var k: nat :| EntryOf(v, past, k);
        assert SameRecord(past[v.owner], past'[v.owner], k);
        assert EntryOf(v, past', k);
      } else {
        assert EntryOf(v, past', n);
      }
    }
    forall a: nat, k: nat | a <= d && Recorded(past'[a].ev, past'[a].c, k)
      ensures NameWrapper(a, past'[a].ev[k].name, past'[a].ev[k].pos) in list + [w]
    {
      if a < d || k < n {
        assert SameRecord(past[a], past'[a], k);
      }
    }
    OuterSame(list, w, past, past', d);
  }

  lemma OuterSame(list: seq<NameWrapper>, w: NameWrapper, past: seq<Past>, past': seq<Past>, d: nat)
    requires d < |past| && d < |past'| && past'[d].c == past[d].c && w.owner == d && ListOk(list, past, d)
    ensures forall x :: x in past'[d].c.outer <==> OfOthers(list + [w], d, x)
  {
    hide Recorded, EntryOf;
    forall x: string ensures OfOthers(list + [w], d, x) <==> OfOthers(list, d, x) {
      if v :| v in list && v.owner < d && v.name == x {
        assert v in list + [w];
      }
    }
  }

  // ----- looking through the list -----

  /** The accesses with a slot, but for those to x that were seen. */
  function Left(p: Past, a: nat, x: string, seen: seq<NameWrapper>): set<nat> {
    set k | 0 <= k < |p.ev| && Local(p.ev, p.c, k) && !(p.ev[k].name == x && NameWrapper(a, x, p.ev[k].pos) in seen)
  }

  lemma LeftOther(p: Past, a: nat, x: string, seen: seq<NameWrapper>, w: NameWrapper)
    requires w.name != x || w.owner != a
    ensures Left(p, a, x, seen + [w]) == Left(p, a, x, seen)
  {
    hide Local;
  }

  lemma LeftOne(s: Scope, L: set<nat>, p: Past, a: nat, x: string, seen: seq<NameWrapper>, w: NameWrapper, k: nat)
    requires FitsAs(s, p.ev, L) && k < |p.ev| && p.ev[k].Access? && w == NameWrapper(a, x, p.ev[k].pos)
             && p.ev[k].name == x
    ensures Left(p, a, x, seen + [w]) == Left(p, a, x, seen) - {k}
  {
    hide SlotsOk, Emitted, Stored, Shared;
    forall j: nat | j < |p.ev| && p.ev[j].Access? && j != k ensures p.ev[j].pos != w.idx {
      assert if j < k then Before(p.ev[j], p.ev[k]) else Before(p.ev[k], p.ev[j]);
    }
  }

  /** When the whole list was seen, no access to x has a slot. */
  lemma LeftAll(p: Past, past: seq<Past>, a: nat, d: nat, x: string, list: seq<NameWrapper>)
    requires a < d < |past| && p == past[a] && Waits(p) && ListOk(list, past, d)
    ensures Left(p, a, x, list) == Locals(Grown(p.ev, {x}), p.c)
  {
    GrownLocals(p.ev, p.c, {x});
    hide Stored, Shared, Grown;
    forall k: nat | k < |p.ev| && Local(p.ev, p.c, k) && p.ev[k].name == x
      ensures NameWrapper(a, x, p.ev[k].pos) in list
    {
      LocalRecorded(p.ev, p.c, k);
    }
  }

  /** What an own entry says about the variable. */
  lemma OwnEntry(s: Scope, past: seq<Past>, d: nat, w: NameWrapper)
    requires d < |past| && ScopeOk(s, past, d) && w in s.usedNames && w.owner == d
    ensures w.idx + 5 <= |s.rops| && !past[d].c.Takes(w.name) && Stored(past[d].ev, w.name, |past[d].ev|)
    ensures IsClose(s.rops, w.idx) <==> Shared(past[d].ev, w.name)
  {
    var p := past[d];
    var k: nat :| EntryOf(w, past, k);
    assert Emitted(s, p.ev[k], k in Locals(p.ev, p.c));
    KindAt(s, w.idx, w.name, p.ev[k].load);
    LocalRecorded(p.ev, p.c, k);
    StoredLater(p.ev, w.name, k + 1, |p.ev|);
    hide Stored, Shared;
  }

  /** A saved variable that may have a slot has an own entry. */
  lemma HasEntry(s: Scope, past: seq<Past>, d: nat, x: string)
    requires d < |past| && ScopeOk(s, past, d) && !past[d].c.Takes(x) && Stored(past[d].ev, x, |past[d].ev|)
    ensures exists w <- s.usedNames :: w.owner == d && w.name == x
  {
    hide Stored, Shared, FitsAs;
    var p := past[d];
    FirstSaved(p.ev, p.c, x, |p.ev|);
    var k: nat :| k < |p.ev| && Recorded(p.ev, p.c, k) && p.ev[k].name == x;
    assert NameWrapper(d, x, p.ev[k].pos) in s.usedNames;
  }

  lemma NotStored(ev: seq<Event>, x: string)
    requires !Stored(ev, x, |ev|)
    ensures !Shared(ev, x)
  {
    assert ev[..|ev|] == ev;
    SharedStored(ev, x, |ev|);
  }

  /** What does not change in a function around the one that uses a variable. */
  predicate SameRest(s: Scope, s': Scope) {
    s' == s.(rops := s'.rops, rnames := s'.rnames) && |s'.rops| == |s.rops|
  }

  /** After the entries `seen`. */
  ghost predicate Looked(start: seq<Scope>, stack: seq<Scope>, past: seq<Past>, x: string, seen: seq<NameWrapper>) {
    |start| == |stack| == |past|
    && forall a: nat :: a < |past| - 1 ==>
         SameRest(start[a], stack[a]) && FitsAs(stack[a], past[a].ev, Left(past[a], a, x, seen))
  }

  lemma LookStart(start: seq<Scope>, past: seq<Past>, x: string, list: seq<NameWrapper>)
    requires InOrder(start, past)
    ensures Looked(start, start, past, x, list[..0])
  {
    forall a: nat | a < |past| - 1
      ensures SameRest(start[a], start[a]) && FitsAs(start[a], past[a].ev, Left(past[a], a, x, list[..0]))
    {
      assert ScopeOk(start[a], past, a);
      hide FitsAs, ListOk, Local;
      assert Left(past[a], a, x, list[..0]) == Locals(past[a].ev, past[a].c);
    }
  }

  /** Where the entry leads. */
  lemma LookEntry(start: seq<Scope>, stack: seq<Scope>, past: seq<Past>, x: string, seen: seq<NameWrapper>,
                  w: NameWrapper)
    requires InOrder(start, past) && Looked(start, stack, past, x, seen) && stack[|past| - 1] == start[|past| - 1]
    requires w in start[|past| - 1].usedNames
    ensures w.owner < |past| && w.idx + 5 <= |stack[w.owner].rops|
    ensures !(w.name == x && w.owner < |past| - 1) ==> Looked(start, stack, past, x, seen + [w])
  {
    hide Stored, Shared, Left;
    var d := |past| - 1;
    assert ScopeOk(start[d], past, d);
    var k: nat :| EntryOf(w, past, k);
    EntryStands(start, past, w, k);
    hide FitsAs, ListOk;
    if !(w.name == x && w.owner < d) {
      forall a: nat | a < d ensures FitsAs(stack[a], past[a].ev, Left(past[a], a, x, seen + [w])) {
        LeftOther(past[a], a, x, seen, w);
      }
    }
  }

  lemma EntryStands(stack: seq<Scope>, past: seq<Past>, w: NameWrapper, k: nat)
    requires InOrder(stack, past) && EntryOf(w, past, k)
    ensures w.idx + 5 <= |stack[w.owner].rops|
  {
    hide Stored, Shared, ListOk;
    var p := past[w.owner];
    assert ScopeOk(stack[w.owner], past, w.owner);
    assert Emitted(stack[w.owner], p.ev[k], k in Locals(p.ev, p.c));
    KindAt(stack[w.owner], w.idx, w.name, p.ev[k].load);
  }

  lemma LookSwitched(start: seq<Scope>, before: seq<Scope>, stack: seq<Scope>, past: seq<Past>, x: string,
                     seen: seq<NameWrapper>, w: NameWrapper)
    requires InOrder(start, past) && Looked(start, before, past, x, seen) && w in start[|past| - 1].usedNames
    requires w.name == x && w.owner < |past| - 1 && |stack| == |before| && w.idx + 5 <= |before[w.owner].rops|
    requires forall a: nat :: a < |stack| && a != w.owner ==> stack[a] == before[a]
    requires Rewritten(before[w.owner], stack[w.owner], x, w.idx)
    ensures Looked(start, stack, past, x, seen + [w])
  {
    hide Stored, Shared, Left, FitsAs;
    var d, o := |past| - 1, w.owner;
    assert ScopeOk(start[d], past, d);
    var k: nat :| EntryOf(w, past, k);
    forall a: nat | a < d
      ensures SameRest(start[a], stack[a]) && FitsAs(stack[a], past[a].ev, Left(past[a], a, x, seen + [w]))
    {
      if a == o {
        RewrittenFits(before[o], stack[o], past[o].ev, Left(past[o], o, x, seen), k);
        LeftOne(before[o], Left(past[o], o, x, seen), past[o], o, x, seen, w, k);
      } else {
        LeftOther(past[a], a, x, seen, w);
      }
    }
  }

  /** Own uses and uses around are never both recorded. */
  lemma OthersMore(seen: seq<NameWrapper>, w: NameWrapper, d: nat, x: string, past: seq<Past>, list: seq<NameWrapper>)
    requires d < |past| && ListOk(list, past, d) && w in list && w.owner <= d
    ensures OfOthers(seen + [w], d, x) <==> OfOthers(seen, d, x) || (w.owner < d && w.name == x)
    ensures w.owner < d ==> w.name in past[d].c.outer
  {
    hide EntryOf, Recorded;
    if v :| v in seen && v.owner < d && v.name == x {
      assert v in seen + [w];
    }
    assert w in seen + [w];
    if w.owner < d {
      assert OfOthers(list, d, w.name);
    }
  }

  lemma LookEnd(start: seq<Scope>, stack: seq<Scope>, past: seq<Past>, x: string, list: seq<NameWrapper>,
                alreadyDefined: bool)
    requires InOrder(start, past) && Looked(start, stack, past, x, list) && list == start[|past| - 1].usedNames
    requires !alreadyDefined ==> forall w <- list :: w.name == x ==> w.owner != |past| - 1
    ensures forall a: nat :: a < |past| - 1 ==>
              Waits(past[a]) && FitsAs(stack[a], Grown(past[a].ev, {x}), Locals(Grown(past[a].ev, {x}), past[a].c))
    ensures var p := past[|past| - 1];
            !alreadyDefined ==> (p.c.Takes(x) || !Stored(p.ev, x, |p.ev|))
                                && (OfOthers(list, |past| - 1, x) <==> x in p.c.outer)
  {
    var d := |past| - 1;
    assert ScopeOk(start[d], past, d);
    assert OfOthers(list, d, x) <==> x in past[d].c.outer;
    hide FitsAs, ListOk, Stored, Shared, Locals, Left, Grown, OfOthers;
    forall a: nat | a < d
      ensures FitsAs(stack[a], Grown(past[a].ev, {x}), Locals(Grown(past[a].ev, {x}), past[a].c))
    {
      assert Waits(past[a]);
      LookedAround(stack[a], past, x, list, a, d);
    }
    if !alreadyDefined && !past[d].c.Takes(x) && Stored(past[d].ev, x, |past[d].ev|) {
      HasEntry(start[d], past, d, x);
    }
  }

  lemma LookedAround(s: Scope, past: seq<Past>, x: string, list: seq<NameWrapper>, a: nat, d: nat)
    requires a < d < |past| && Waits(past[a]) && ListOk(list, past, d)
    requires FitsAs(s, past[a].ev, Left(past[a], a, x, list))
    ensures FitsAs(s, Grown(past[a].ev, {x}), Locals(Grown(past[a].ev, {x}), past[a].c))
  {
    hide FitsAs, ListOk, Stored, Shared, Locals, Left, Grown;
    LeftAll(past[a], past, a, d, x, list);
    GrownFits(s, past[a].ev, Left(past[a], a, x, list), {x});
  }

  /** After the access is emitted. */
  lemma UsedInOrder(start: seq<Scope>, stack: seq<Scope>, past: seq<Past>, x: string, load: bool, p: nat)
    requires InOrder(start, past) && |stack| == |past| && p == |start[|past| - 1].rops|
    requires forall a: nat :: a < |past| - 1 ==>
               SameRest(start[a], stack[a])
               && FitsAs(stack[a], Grown(past[a].ev, {x}), Locals(Grown(past[a].ev, {x}), past[a].c))
    requires var d := |past| - 1;
             var local := NewLocal(past[d].ev, past[d].c, x, load);
             Longer(start[d], stack[d]) && SlotsOk(stack[d]) && Emitted(stack[d], Access(p, x, load), local)
             && stack[d].repl == start[d].repl
             && stack[d].usedNames == start[d].usedNames + if local then [NameWrapper(d, x, p)] else []
    ensures InOrder(stack, Used(past, x, load, p))
  {
    hide FitsAs, ListOk, NewLocal, Longer, SlotsOk, Emitted;
    var d, past' := |past| - 1, Used(past, x, load, p);
    var local := NewLocal(past[d].ev, past[d].c, x, load);
    assert ScopeOk(start[d], past, d);
    forall a: nat | a < |past'| ensures ScopeOk(stack[a], past', a) {
      assert ScopeOk(start[a], past, a);
      if a < d {
        AroundUsed(start, past, x, load, p, a);
      } else {
        NewAccess(past[d].ev, past[d].c, p, x, load);
        LocalsBelow(past[d].ev, past[d].c);
        LongerFits(start[d], stack[d], past[d].ev, Locals(past[d].ev, past[d].c), Access(p, x, load), local);
        assert start[d].usedNames + [] == start[d].usedNames;
        if local {
          LocalUsed(start, past, x, load, p);
        } else {
          CloseUsed(start, past, x, load, p);
        }
      }
    }
  }

  lemma LocalsBelow(ev: seq<Event>, c: Context)
    ensures forall k <- Locals(ev, c) :: k < |ev|
  {
    hide Local;
  }

  /** One more event of the innermost function. */
  function Added(past: seq<Past>, e: Event): seq<Past>
    requires past != []
  {
    past[|past| - 1 := Past(past[|past| - 1].ev + [e], past[|past| - 1].c)]
  }

  lemma AddedInOrder(start: seq<Scope>, stack: seq<Scope>, past: seq<Past>, e: Event)
    requires InOrder(start, past) && |stack| == |past|
    requires forall a: nat :: a < |past| - 1 ==> stack[a] == start[a]
    requires e == Inner({}) || (e.Raw? && e.pos == |start[|past| - 1].rops|)
    requires var d := |past| - 1;
             Longer(start[d], stack[d]) && SlotsOk(stack[d]) && Emitted(stack[d], e, false)
             && stack[d].repl == start[d].repl && stack[d].usedNames == start[d].usedNames
    ensures InOrder(stack, Added(past, e))
  {
    hide FitsAs, ListOk, Longer, SlotsOk, Emitted, Stored, Shared;
    var d, past' := |past| - 1, Added(past, e);
    forall a: nat | a < |past'| ensures ScopeOk(stack[a], past', a) {
      assert ScopeOk(start[a], past, a);
      forall b: nat | b <= a ensures SameRecords(past[b], past'[b]) {
        if b == d {
          MoreSame(past[d], e);
        }
      }
      ListSame(start[a].usedNames, past, past', a);
      if a == d {
        NewOther(past[d].ev, past[d].c, e);
        LocalsBelow(past[d].ev, past[d].c);
        LongerFits(start[d], stack[d], past[d].ev, Locals(past[d].ev, past[d].c), e, false);
        assert Locals(past[d].ev, past[d].c) + {} == Locals(past[d].ev, past[d].c);
      }
    }
  }

  // ----- inner functions -----

  /** A function is begun in the innermost one, which waits for it. */
  lemma BegunInOrder(stack: seq<Scope>, past: seq<Past>, params: seq<string>)
    requires InOrder(stack, past) && Waits(past[|past| - 1])
    ensures var d := |past| - 1;
            InOrder(stack + [Scope([], params, [], map[], 0, stack[d].usedNames, false)],
                    past + [Past([], Within(past[d].ev, past[d].c))])
  {
    hide FitsAs, Stored, Shared;
    var d := |past| - 1;
    var inner, past' := Past([], Within(past[d].ev, past[d].c)), past + [Past([], Within(past[d].ev, past[d].c))];
    var s := Scope([], params, [], map[], 0, stack[d].usedNames, false);
    forall a: nat | a <= d ensures ScopeOk((stack + [s])[a], past', a) {
      assert ScopeOk(stack[a], past, a);
      ListPrefix(stack[a].usedNames, past, past', a);
    }
    assert ScopeOk(stack[d], past, d);
    InnerList(stack[d].usedNames, past, past', d);
    NothingFits(s, inner.c);
    assert ScopeOk(s, past', d + 1);
  }

  lemma NothingFits(s: Scope, c: Context)
    requires s.savedLocals == map[]
    ensures FitsAs(s, [], Locals([], c))
  {}

  /** A list does not depend on what is inside of its function. */
  lemma ListPrefix(list: seq<NameWrapper>, past: seq<Past>, past': seq<Past>, d: nat)
    requires d < |past| && d < |past'| && past[..d + 1] == past'[..d + 1] && ListOk(list, past, d)
    ensures ListOk(list, past', d)
  {
    hide Recorded;
    assert forall a: nat :: a <= d ==> past'[a] == past'[..d + 1][a] == past[a];
    forall w <- list ensures w.owner <= d && exists k: nat :: EntryOf(w, past', k) {
      var k: nat :| EntryOf(w, past, k);
      assert EntryOf(w, past', k);
    }
  }

  /** The list of a function that begins is a copy. */
  lemma InnerList(list: seq<NameWrapper>, past: seq<Past>, past': seq<Past>, d: nat)
    requires d < |past| && ListOk(list, past, d) && past' == past[..d + 1] + [Past([], Within(past[d].ev, past[d].c))]
    ensures ListOk(list, past', d + 1)
  {
    var p := past[d];
    hide Stored, Shared;
    ListPrefix(list, past, past', d);
    var outer := past'[d + 1].c.outer;
    forall x: string ensures x in outer <==> OfOthers(list, d + 1, x) {
      if k: nat :| k < |p.ev| && Recorded(p.ev, p.c, k) && p.ev[k].name == x {
        assert NameWrapper(d, x, p.ev[k].pos) in list;
      }
      if w :| w in list && w.owner < d + 1 && w.name == x {
        var k: nat :| EntryOf(w, past, k);
        if w.owner < d {
          assert OfOthers(list, d, x);
        } else {
          assert Recorded(p.ev, p.c, k) && p.ev[k].name == x;
        }
      }
      if x in p.c.outer {
        assert OfOthers(list, d, x);
      }
    }
  }

  lemma EndedInOrder(stack: seq<Scope>, past: seq<Past>)
    requires InOrder(stack, past) && |past| > 1
    ensures InOrder(stack[..|past| - 1], past[..|past| - 1])
  {
    hide FitsAs;
    var n := |past| - 1;
    forall a: nat | a < n ensures ScopeOk(stack[..n][a], past[..n], a) {
      assert ScopeOk(stack[a], past, a);
      ListPrefix(stack[a].usedNames, past, past[..n], a);
    }
  }

  /** More code behind all events. */
  lemma LongerKeeps(s: Scope, s': Scope, ev: seq<Event>, L: set<nat>)
    requires FitsAs(s, ev, L) && Longer(s, s') && SlotsOk(s')
    ensures FitsAs(s', ev, L)
  {
    hide Emitted, Longer, Before;
    forall k: nat | k < |ev| ensures Emitted(s', ev[k], k in L) {
      LongerStands(s, s', ev[k], k in L);
    }
  }

  // ----- a whole body -----

  /** What is known when the items are compiled. */
  function Through(past: seq<Past>, items: Items, p: nat, c: nat): seq<Past>
    requires forall d: nat :: d < |past| - 1 ==> Waits(past[d])
  {
    seq(|past|, a requires 0 <= a < |past| && (a < |past| - 1 ==> Waits(past[a])) =>
      if a < |past| - 1 then Past(Grown(past[a].ev, Mentions(items)), past[a].c)
      else Past(past[a].ev + Events(items, p, c), past[a].c))
  }

  lemma GrownTwice(ev: seq<Event>, X: set<string>, Y: set<string>)
    requires ev != [] && ev[|ev| - 1].Inner?
    ensures Grown(Grown(ev, X), Y) == Grown(ev, X + Y) && Grown(ev, {}) == ev
  {
    var n := |ev| - 1;
    var names := ev[n].names;
    assert names + {} == names && names + X + Y == names + (X + Y);
    assert ev == ev[..n] + [ev[n]];
    assert Grown(ev, X)[..n] == ev[..n];
  }

  lemma ThroughNothing(past: seq<Past>, p: nat, c: nat)
    requires forall d: nat :: d < |past| - 1 ==> Waits(past[d])
    ensures Through(past, Done, p, c) == past
  {
    forall a: nat | a < |past| ensures Through(past, Done, p, c)[a] == past[a] {
      if a < |past| - 1 {
        GrownTwice(past[a].ev, {}, {});
      }
    }
  }

  lemma ThroughUse(past: seq<Past>, x: string, load: bool, rest: Items, p: nat, c: nat)
    requires forall d: nat :: d < |past| - 1 ==> Waits(past[d])
    ensures Through(Used(past, x, load, p), rest, p + 5, c) == Through(past, Next(Use(x, load), rest), p, c)
  {
    assert forall d: nat :: d < |past| - 1 ==> Waits(Used(past, x, load, p)[d]);
    hide Grown;
    var items := Next(Use(x, load), rest);
    var later := Through(Used(past, x, load, p), rest, p + 5, c);
    forall a: nat | a < |past| ensures later[a] == Through(past, items, p, c)[a] {
      if a < |past| - 1 {
        GrownTwice(past[a].ev, {x}, Mentions(rest));
      } else {
        assert past[a].ev + [Access(p, x, load)] + Events(rest, p + 5, c)
               == past[a].ev + ([Access(p, x, load)] + Events(rest, p + 5, c));
      }
    }
  }

  lemma ThroughPlain(past: seq<Past>, ops: seq<int>, rest: Items, p: nat, c: nat)
    requires past != [] && forall d: nat :: d < |past| - 1 ==> Waits(past[d])
    ensures Through(Added(past, Raw(p, ops)), rest, p + |ops|, c) == Through(past, Next(Plain(ops), rest), p, c)
  {
    hide Grown;
    var items := Next(Plain(ops), rest);
    var later := Through(Added(past, Raw(p, ops)), rest, p + |ops|, c);
    forall a: nat | a < |past| ensures later[a] == Through(past, items, p, c)[a] {
      if a == |past| - 1 {
        assert past[a].ev + [Raw(p, ops)] + Events(rest, p + |ops|, c)
               == past[a].ev + ([Raw(p, ops)] + Events(rest, p + |ops|, c));
      }
    }
  }

  /** When a function in the innermost one is compiled. */
  function Declared(past: seq<Past>, params: seq<string>, body: Items, p: nat, c: nat): seq<Past>
    requires past != [] && forall d: nat :: d < |past| - 1 ==> Waits(past[d])
  {
    seq(|past|, a requires 0 <= a < |past| && (a < |past| - 1 ==> Waits(past[a])) =>
      if a < |past| - 1 then Past(Grown(past[a].ev, Mentions(body)), past[a].c)
      else Past(past[a].ev + [Inner(Mentions(body)), Raw(p, MakeFunction(c, |params|))], past[a].c))
  }

  lemma FunctionFirst(params: seq<string>, body: Items, rest: Items, p: nat, c: nat)
    ensures Mentions(Next(Function(params, body), rest)) == Mentions(body) + Mentions(rest)
    ensures Events(Next(Function(params, body), rest), p, c)
            == [Inner(Mentions(body)), Raw(p, MakeFunction(c, |params|))] + Events(rest, p + 7, c + 1)
  {
    hide MakeFunction;
  }

  lemma ThroughFunction(past: seq<Past>, params: seq<string>, body: Items, rest: Items, p: nat, c: nat)
    requires past != [] && forall d: nat :: d < |past| - 1 ==> Waits(past[d])
    ensures Through(Declared(past, params, body, p, c), rest, p + 7, c + 1)
            == Through(past, Next(Function(params, body), rest), p, c)
  {
    assert forall d: nat :: d < |past| - 1 ==> Waits(Declared(past, params, body, p, c)[d]);
    FunctionFirst(params, body, rest, p, c);
    hide MakeFunction, Grown, Events, Mentions;
    var items := Next(Function(params, body), rest);
    var later := Through(Declared(past, params, body, p, c), rest, p + 7, c + 1);
    forall a: nat | a < |past| ensures later[a] == Through(past, items, p, c)[a] {
      if a < |past| - 1 {
        GrownTwice(past[a].ev, Mentions(body), Mentions(rest));
      } else {
        var two := [Inner(Mentions(body)), Raw(p, MakeFunction(c, |params|))];
        assert past[a].ev + two + Events(rest, p + 7, c + 1) == past[a].ev + (two + Events(rest, p + 7, c + 1));
      }
    }
  }

  /** Beginning, compiling and ending an inner function. */
  lemma DeclaredIs(past: seq<Past>, params: seq<string>, body: Items, p: nat, c: nat, ctx: Context)
    requires past != [] && forall d: nat :: d < |past| - 1 ==> Waits(past[d])
    ensures var d := |past| - 1;
            var begun := Added(past, Inner({})) + [Past([], ctx)];
            (forall a: nat :: a < |begun| - 1 ==> Waits(begun[a]))
            && Added(Through(begun, body, 0, 0)[..d + 1], Raw(p, MakeFunction(c, |params|)))
               == Declared(past, params, body, p, c)
  {
    hide MakeFunction, Events;
    var d := |past| - 1;
    var begun := Added(past, Inner({})) + [Past([], ctx)];
    forall a: nat | a < |begun| - 1 ensures Waits(begun[a]) {}
    var ended := Through(begun, body, 0, 0)[..d + 1];
    var ev := past[d].ev + [Inner({})];
    assert ev[..|ev| - 1] == past[d].ev && {} + Mentions(body) == Mentions(body);
    assert Grown(ev, Mentions(body)) == past[d].ev + [Inner(Mentions(body))];
    assert past[d].ev + [Inner(Mentions(body))] + [Raw(p, MakeFunction(c, |params|))]
           == past[d].ev + [Inner(Mentions(body)), Raw(p, MakeFunction(c, |params|))];
    forall a: nat | a <= d
      ensures Added(ended, Raw(p, MakeFunction(c, |params|)))[a] == Declared(past, params, body, p, c)[a]
    {}
  }

  lemma WithinSame(ev: seq<Event>, c: Context)
    ensures Within(ev + [Inner({})], c) == Within(ev, c)
  {
    hide Stored, Shared;
    var ev', w, w' := ev + [Inner({})], Within(ev, c), Within(ev + [Inner({})], c);
    forall k | 0 <= k < |ev| ensures Recorded(ev', c, k) == Recorded(ev, c, k) && ev'[k] == ev[k] {
      RecordedMore(ev, c, Inner({}), k);
    }
    assert ev'[|ev|] == Inner({});
    forall x | x in w.outer ensures x in w'.outer {
      if x !in c.outer {
        var k :| 0 <= k < |ev| && Recorded(ev, c, k) && ev[k].name == x;
        assert Recorded(ev', c, k) && ev'[k].name == x;
      }
    }
    forall x | x in w'.outer ensures x in w.outer {
      if x !in c.outer {
        var k :| 0 <= k < |ev'| && Recorded(ev', c, k) && ev'[k].name == x;
        assert k < |ev| && Recorded(ev, c, k) && ev[k].name == x;
      }
    }
    assert w.outer == w'.outer;
  }

  lemma InnermostSlots(stack: seq<Scope>, past: seq<Past>)
    requires InOrder(stack, past)
    ensures SlotsOk(stack[|stack| - 1])
  {
    assert ScopeOk(stack[|stack| - 1], past, |past| - 1);
  }

  lemma SlotsKept(s: Scope, s': Scope)
    requires SlotsOk(s) && s'.savedLocals == s.savedLocals && s'.localIdx == s.localIdx
    ensures SlotsOk(s')
  {}

  lemma OrderWaits(stack: seq<Scope>, past: seq<Past>)
    requires InOrder(stack, past)
    ensures |stack| == |past| > 0 && forall d: nat :: d < |past| - 1 ==> Waits(past[d])
  {}

  /** What the innermost function has been through. */
  lemma InnerDone(past: seq<Past>, body: Items, ctx: Context)
    requires past != [] && forall d: nat :: d < |past| - 1 ==> Waits(past[d])
    requires var begun := Added(past, Inner({})) + [Past([], ctx)]; forall a: nat :: a < |begun| - 1 ==> Waits(begun[a])
    ensures var begun := Added(past, Inner({})) + [Past([], ctx)];
            Through(begun, body, 0, 0)[|past|] == Past(Events(body, 0, 0), ctx)
              && |Through(begun, body, 0, 0)| == |past| + 1
  {
    assert [] + Events(body, 0, 0) == Events(body, 0, 0);
  }

  /** The length of the code and the functions in it. */
  predicate SameSize(s: Scope, s': Scope) {
    |s'.rops| == |s.rops| && s'.rcon == s.rcon
  }

  /** Around the innermost function. */
  predicate SameBelow(stack: seq<Scope>, stack': seq<Scope>) {
    |stack| == |stack'| && forall a: nat :: a < |stack| - 1 ==> SameSize(stack[a], stack'[a])
  }
}

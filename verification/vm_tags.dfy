/** The compiler's running list: instructions, byte operands, tags (from 1000 up) and
    the -1 placeholders behind the tags of jumps (src/compiler/ast_compiler.c:24-43).
    What appending keeps, and what replacing the tags by addresses makes of it. */
module LankyTags {
  import opened LankySyntax
  import opened LankyMachine
  import opened LankyLayout
  import opened LankyCarry

  /** The compiler's tables at one moment, with the tags that have their marker and
      those that are used and still wait for it. */
  datatype Snap = Snap(ops: Ops, consts: seq<Constant>, names: seq<string>, tag: int, marked: set<int>, open: set<int>,
                       exact: bool)

  function K(s: Snap): Tables {
    Tables(false, s.consts, s.names, s.exact)
  }

  // ----- the shape of the list -----

  /** A tag that is the operand of a jump. */
  predicate IsUse(ops: Ops, j: nat) {
    j < |ops| && ops[j] >= FIRST_TAG && Slots(ops, j + 1)
  }

  predicate Slotted(ops: Ops, i: nat) {
    (i >= 1 && IsUse(ops, i - 1)) || (i >= 2 && IsUse(ops, i - 2)) || (i >= 3 && IsUse(ops, i - 3))
  }

  predicate InList(ops: Ops, i: nat, bound: int)
    requires i < |ops|
  {
    if ops[i] >= FIRST_TAG then ops[i] < bound && (IsMarker(ops, i) || IsUse(ops, i))
    else if ops[i] == -1 then Slotted(ops, i)
    else 0 <= ops[i]
  }

  /** A marker is the last occurrence of its tag. */
  ghost predicate MarkersLast(ops: Ops) {
    forall q: nat, i: nat :: IsMarker(ops, q) && q < i < |ops| ==> ops[i] != ops[q]
  }

  ghost predicate MarkedAfter(ops: Ops, j: nat, t: int) {
    exists q: nat :: j < q && IsMarker(ops, q) && ops[q] == t
  }

  /** Every used tag is open or gets its marker later. */
  ghost predicate Closed(ops: Ops, open: set<int>) {
    forall j: nat :: IsUse(ops, j) ==> ops[j] in open || MarkedAfter(ops, j, ops[j])
  }

  ghost predicate AllMarkedIn(ops: Ops, marked: set<int>) {
    forall q: nat :: IsMarker(ops, q) ==> ops[q] in marked
  }

  /** The running list is in order. */
  ghost predicate Listed(s: Snap) {
    (forall i: nat :: i < |s.ops| ==> InList(s.ops, i, s.tag)) && MarkersLast(s.ops)
    && AllMarkedIn(s.ops, s.marked) && Closed(s.ops, s.open)
    && s.tag >= FIRST_TAG && forall t <- s.marked :: t < s.tag
  }

  // ----- growing -----

  predicate Grows(ops: Ops, ops2: Ops) {
    ops <= ops2 && (|ops| < |ops2| ==> ops2[|ops|] != -1)
  }

  predicate Extends(s0: Snap, s1: Snap) {
    Grows(s0.ops, s1.ops) && s0.consts <= s1.consts && s0.names <= s1.names && s0.exact == s1.exact
  }

  /** A step of the compiler marks only the tags it has to close and tags it has handed
      out itself; of the tags it leaves open, the new ones wait around it. */
  ghost predicate Orderly(s0: Snap, s1: Snap, waiting: set<int>, closing: set<int>) {
    s0.tag <= s1.tag && s1.open <= s0.open + waiting - closing
    && forall t :: t in s1.marked && t < s0.tag ==> t in s0.marked || t in closing
  }

  lemma GrownTag(ops: Ops, ops2: Ops, q: nat)
    requires Grows(ops, ops2) && q < |ops|
    ensures IsMarker(ops2, q) <==> IsMarker(ops, q)
    ensures IsUse(ops, q) ==> IsUse(ops2, q)
    ensures IsUse(ops2, q) && (IsMarker(ops, q) || IsUse(ops, q)) ==> IsUse(ops, q)
  {}

  lemma GrowsTrans(a: Ops, b: Ops, c: Ops)
    requires Grows(a, b) && Grows(b, c)
    ensures Grows(a, c)
  {}

  lemma ExtendsTrans(a: Snap, b: Snap, c: Snap)
    requires Extends(a, b) && Extends(b, c)
    ensures Extends(a, c)
  {
    GrowsTrans(a.ops, b.ops, c.ops);
  }

  /** What is in order stays so when more is appended. */
  lemma GrownInList(ops: Ops, ops2: Ops, bound: int, i: nat)
    requires Grows(ops, ops2) && i < |ops| && InList(ops, i, bound)
    ensures InList(ops2, i, bound)
  {
    hide Slots, IsUse, IsMarker;
    GrownTag(ops, ops2, i);
    if i >= 1 { GrownTag(ops, ops2, i - 1); }
    if i >= 2 { GrownTag(ops, ops2, i - 2); }
    if i >= 3 { GrownTag(ops, ops2, i - 3); }
  }

  /** Uses of the old part stay open, or marked. */
  lemma GrownClosed(s: Snap, ops2: Ops, j: nat)
    requires Listed(s) && Grows(s.ops, ops2) && j < |s.ops| && IsUse(ops2, j)
    ensures ops2[j] in s.open || MarkedAfter(ops2, j, ops2[j])
  {
    hide Slots, MarkersLast, AllMarkedIn;
    assert InList(s.ops, j, s.tag);
    GrownTag(s.ops, ops2, j);
    if MarkedAfter(s.ops, j, s.ops[j]) {
      var q: nat :| j < q && IsMarker(s.ops, q) && s.ops[q] == s.ops[j];
      GrownTag(s.ops, ops2, q);
    }
  }

  /** Markers stay last when nothing appended repeats a marked tag. */
  lemma GrownLast(s: Snap, ops2: Ops)
    requires MarkersLast(s.ops) && AllMarkedIn(s.ops, s.marked) && Grows(s.ops, ops2)
    requires forall q: nat :: |s.ops| <= q && IsMarker(ops2, q) ==> q + 1 == |ops2|
    requires forall i: nat :: |s.ops| <= i < |ops2| && ops2[i] >= FIRST_TAG ==> ops2[i] !in s.marked
    ensures MarkersLast(ops2)
  {
    forall q: nat, i: nat | IsMarker(ops2, q) && q < i < |ops2| ensures ops2[i] != ops2[q] {
      if q < |s.ops| {
        GrownTag(s.ops, ops2, q);
      }
    }
  }

  // ----- appending -----

  lemma ListedTag(s: Snap)
    requires Listed(s)
    ensures Listed(s.(tag := s.tag + 1))
  {
    hide IsMarker, IsUse, MarkedAfter, Slotted, MarkersLast, AllMarkedIn, Closed;
    var bound := s.tag + 1;
    forall i: nat | i < |s.ops| ensures InList(s.ops, i, bound) {
      assert InList(s.ops, i, s.tag);
    }
  }

  predicate AllBytes(bs: seq<int>) {
    forall i :: 0 <= i < |bs| ==> 0 <= bs[i] < 256
  }

  predicate NoTags(bs: seq<int>) {
    forall i :: 0 <= i < |bs| ==> 0 <= bs[i] < FIRST_TAG
  }

  /** An instruction with its operand, or more. */
  lemma ListedBytes(s: Snap, bs: seq<int>, s1: Snap)
    requires Listed(s) && bs != [] && NoTags(bs)
    requires s1 == s.(ops := s.ops + bs, consts := s1.consts, names := s1.names)
    ensures Listed(s1) && Grows(s.ops, s1.ops)
  {
    hide Slots, MarkedAfter;
    assert s1.ops[|s.ops|] == bs[0];
    forall q: nat | |s.ops| <= q < |s1.ops| ensures 0 <= s1.ops[q] < FIRST_TAG {
      assert s1.ops[q] == bs[q - |s.ops|];
    }
    forall i: nat | i < |s1.ops| ensures InList(s1.ops, i, s.tag) {
      if i < |s.ops| {
        assert InList(s.ops, i, s.tag);
        GrownInList(s.ops, s1.ops, s.tag, i);
      }
    }
    forall q: nat | IsMarker(s1.ops, q) ensures s1.ops[q] in s.marked {
      GrownTag(s.ops, s1.ops, q);
    }
    forall j: nat | IsUse(s1.ops, j) ensures s1.ops[j] in s.open || MarkedAfter(s1.ops, j, s1.ops[j]) {
      GrownClosed(s, s1.ops, j);
    }
    GrownLast(s, s1.ops);
  }

  lemma ListedUse(s: Snap, o: int, t: int, s1: Snap)
    requires Listed(s) && s1 == s.(ops := s.ops + [o, t, -1, -1, -1], open := s.open + {t})
    requires 0 <= o < 256 && FIRST_TAG <= t < s.tag && t !in s.marked
    ensures Listed(s1) && Grows(s.ops, s1.ops)
  {
    hide MarkedAfter;
    var n := |s.ops|;
    assert s1.ops[n] == o && s1.ops[n + 1] == t && Slots(s1.ops, n + 2);
    forall i: nat | i < |s1.ops| ensures InList(s1.ops, i, s.tag) {
      if i < n {
        assert InList(s.ops, i, s.tag);
        GrownInList(s.ops, s1.ops, s.tag, i);
      } else if i > n {
        assert IsUse(s1.ops, n + 1);
      }
    }
    forall q: nat | n <= q ensures !IsMarker(s1.ops, q) && (IsUse(s1.ops, q) ==> q == n + 1) {}
    hide Slots, IsUse, InList;
    forall q: nat | IsMarker(s1.ops, q) ensures s1.ops[q] in s.marked {
      GrownTag(s.ops, s1.ops, q);
    }
    forall j: nat | IsUse(s1.ops, j) ensures s1.ops[j] in s1.open || MarkedAfter(s1.ops, j, s1.ops[j]) {
      if j < n {
        GrownClosed(s, s1.ops, j);
      }
    }
    GrownLast(s, s1.ops);
  }

  lemma ListedMark(s: Snap, t: int, s1: Snap)
    requires Listed(s) && s1 == s.(ops := s.ops + [t], marked := s.marked + {t}, open := s.open - {t})
    requires FIRST_TAG <= t < s.tag && t !in s.marked
    ensures Listed(s1) && Grows(s.ops, s1.ops) && IsMarker(s1.ops, |s.ops|)
  {
    var n := |s.ops|;
    assert s1.ops[n] == t;
    forall i: nat | i < |s1.ops| ensures InList(s1.ops, i, s.tag) {
      if i < n {
        assert InList(s.ops, i, s.tag);
        GrownInList(s.ops, s1.ops, s.tag, i);
      }
    }
    forall q: nat | n <= q ensures !IsUse(s1.ops, q) && (IsMarker(s1.ops, q) ==> q == n) {}
    forall q: nat | IsMarker(s1.ops, q) ensures s1.ops[q] in s1.marked {
      if q < n {
        GrownTag(s.ops, s1.ops, q);
      }
    }
    forall j: nat | IsUse(s1.ops, j) ensures s1.ops[j] in s1.open || MarkedAfter(s1.ops, j, s1.ops[j]) {
      GrownClosed(s, s1.ops, j);
      if s1.ops[j] == t {
        assert IsMarker(s1.ops, n) && j < n;
      }
    }
    GrownLast(s, s1.ops);
  }

  // ----- the code described so far stays described -----

  predicate Jumps(ops: Ops, p: nat, o: int, t: int) {
    At(ops, p, o) && At(ops, p + 1, t) && Slots(ops, p + 2)
  }

  lemma ExtendsCarries(s0: Snap, s1: Snap)
    requires Extends(s0, s1)
    ensures Carries(K(s0), s0.ops, K(s1), s1.ops)
    ensures forall ref: int :: KeepsRefs(K(s0), s0.ops, K(s1), s1.ops, ref, ref)
  {
    var ops, ops2 := s0.ops, s1.ops;
    forall ref: int ensures KeepsRefs(K(s0), ops, K(s1), ops2, ref, ref) {}
    forall q: nat | Mark(K(s0), ops, q)
      ensures Mark(K(s1), ops2, q) && Label(K(s0), ops, q) == Label(K(s1), ops2, q)
    {
      GrownTag(ops, ops2, q);
    }
    forall p: nat, o: int, target: nat | 0 <= o < 256 && JumpTo(K(s0), ops, p, o, target)
      ensures JumpTo(K(s1), ops2, p, o, target)
    {
      GrownTag(ops, ops2, target);
    }
  }

  /** A jump whose tag has got its marker. */
  lemma JumpMade(s1: Snap, s2: Snap, p: nat, o: int, t: int, target: nat)
    requires Jumps(s1.ops, p, o, t) && Extends(s1, s2)
    requires p + 1 < target && IsMarker(s2.ops, target) && s2.ops[target] == t
    ensures JumpTo(K(s2), s2.ops, p, o, target)
  {}

  // ----- addresses -----

  /** The last place of a tag. */
  function Last(ops: Ops, t: int): (r: int)
    ensures -1 <= r < |ops|
    ensures r >= 0 ==> ops[r] == t
    ensures forall i :: r < i < |ops| ==> ops[i] != t
  {
    if ops == [] then -1
    else if ops[|ops| - 1] == t then |ops| - 1
    else Last(ops[..|ops| - 1], t)
  }

  /** What one place of the list has become. */
  predicate ResolvedAt(ops: Ops, out: Ops, i: nat)
    requires i < |ops| == |out|
  {
    if ops[i] >= FIRST_TAG then
      if Last(ops, ops[i]) == i then out[i] == IGNORE
      else Bytes(out, i) && Operand(out, i) == Last(ops, ops[i])
    else 0 <= ops[i] ==> out[i] == ops[i]
  }

  /** Markers have become IGNORE, uses the address of their marker, and the rest is
      as it was. */
  ghost predicate Resolves(ops: Ops, out: Ops) {
    |out| == |ops| && forall i: nat :: i < |ops| ==> ResolvedAt(ops, out, i)
  }

  lemma MarkerIsLast(ops: Ops, q: nat)
    requires MarkersLast(ops) && IsMarker(ops, q)
    ensures Last(ops, ops[q]) == q
  {}

  /** finalize_ops: the cast to unsigned char. */
  function Narrow(ops: Ops): (r: Ops)
    ensures |r| == |ops| && AllBytes(r)
  {
    seq(|ops|, i requires 0 <= i < |ops| => ops[i] % 256)
  }

  lemma UseResolved(ops: Ops, out: Ops, p: nat, q: nat)
    requires MarkersLast(ops) && Resolves(ops, out) && IsUse(ops, p) && IsMarker(ops, q) && ops[p] == ops[q]
    ensures Bytes(Narrow(out), p) && Operand(Narrow(out), p) == q
  {
    hide Last;
    MarkerIsLast(ops, q);
    assert ResolvedAt(ops, out, p);
  }

  lemma MarkResolved(ops: Ops, out: Ops, q: nat)
    requires MarkersLast(ops) && Resolves(ops, out) && IsMarker(ops, q)
    ensures out[q] == Narrow(out)[q] == IGNORE
  {
    hide Last;
    MarkerIsLast(ops, q);
    assert ResolvedAt(ops, out, q);
  }

  lemma ResolvedCarries(s: Snap, out: Ops)
    requires MarkersLast(s.ops) && Resolves(s.ops, out)
    ensures Carries(K(s), s.ops, Tables(true, s.consts, s.names, s.exact), Narrow(out))
  {
    var k, k2, ops, fin := K(s), Tables(true, s.consts, s.names, s.exact), s.ops, Narrow(out);
    assert forall i: nat :: i < |ops| && 0 <= ops[i] < FIRST_TAG ==> fin[i] == ops[i] % 256 by {
      forall i: nat | i < |ops| && 0 <= ops[i] < FIRST_TAG ensures fin[i] == ops[i] % 256 {
        assert ResolvedAt(ops, out, i);
      }
    }
    assert KeepsBytes(ops, fin) && KeepsCounts(k, ops, k2, fin) && |out| == |ops|;
    hide Last, ResolvedAt, Operand, Resolves, MarkersLast, Narrow;
    forall q: nat | Mark(k, ops, q)
      ensures Mark(k2, fin, q) && KeepsRefs(k, ops, k2, fin, Label(k, ops, q), Label(k2, fin, q))
    {
      MarkResolved(ops, out, q);
      forall p: nat | JumpRef(k, ops, p, Label(k, ops, q)) ensures JumpRef(k2, fin, p, q) {
        UseResolved(ops, out, p + 1, q);
      }
    }
    forall p: nat, o: int, target: nat | 0 <= o < 256 && JumpTo(k, ops, p, o, target)
      ensures JumpTo(k2, fin, p, o, target)
    {
      UseResolved(ops, out, p + 1, target);
    }
  }

  /** Once every used tag has its marker, no tag and no placeholder is left: only bytes, and
      the counts of arguments as they were. */
  lemma ResolvedBytes(s: Snap, out: Ops)
    requires Listed(s) && s.open == {} && Resolves(s.ops, out)
    ensures NoTags(out) && forall i :: 0 <= i < |out| && out[i] >= 256 ==> out[i] == s.ops[i]
  {
    var ops := s.ops;
    forall i | 0 <= i < |out| ensures 0 <= out[i] < FIRST_TAG && (out[i] >= 256 ==> out[i] == ops[i]) {
      assert InList(ops, i, s.tag) && ResolvedAt(ops, out, i);
      if ops[i] == -1 {
        var j :| j in [i - 1, i - 2, i - 3] && j >= 0 && IsUse(ops, j);
        UseHasBytes(ops, out, j);
      } else if ops[i] >= FIRST_TAG && IsUse(ops, i) {
        UseHasBytes(ops, out, i);
      }
    }
  }

  lemma UseHasBytes(ops: Ops, out: Ops, j: nat)
    requires MarkersLast(ops) && Closed(ops, {}) && Resolves(ops, out) && IsUse(ops, j)
    ensures Bytes(out, j)
  {
    assert ResolvedAt(ops, out, j);
    var q: nat :| j < q && IsMarker(ops, q) && ops[q] == ops[j];
  }
}

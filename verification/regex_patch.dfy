/** Fragments under construction: the list of dangling pointers threaded through
    the unfilled slots, and what filling them yields. */
module RegexPatch {
  import opened RegexSyntax
  import opened RegexNfa

  function Read(P: Pool, d: SlotRef): Slot
    requires d.owner < |P|
  {
    if d.alt then P[d.owner].outAlt else P[d.owner].out
  }

  function Write(P: Pool, d: SlotRef, x: Slot): Pool
    requires d.owner < |P|
  {
    P[d.owner := if d.alt then P[d.owner].(outAlt := x) else P[d.owner].(out := x)]
  }

  /** The pool with exactly the slots of D pointing to state e. */
  ghost function Patched(P: Pool, D: seq<SlotRef>, e: nat): (Q: Pool)
    ensures |Q| == |P|
  {
    seq(|P|, i requires 0 <= i < |P| =>
      State(P[i].c, P[i].chrcls,
            if SlotRef(i, false) in D then To(e) else P[i].out,
            if SlotRef(i, true) in D then To(e) else P[i].outAlt))
  }

  /** Slot k of D holds the next slot of D, and the last one a null. */
  ghost predicate Linked(P: Pool, D: seq<SlotRef>, k: nat)
    requires k < |D|
  {
    D[k].owner < |P| && Read(P, D[k]) == if k + 1 < |D| then Next(D[k + 1]) else Null
  }

  /** Following the slots from D[0] visits D and ends in a null. */
  ghost predicate Chain(P: Pool, D: seq<SlotRef>) {
    forall k | 0 <= k < |D| :: Linked(P, D, k)
  }

  ghost predicate Distinct(D: seq<SlotRef>) {
    forall j, k | 0 <= j < k < |D| :: D[j] != D[k]
  }

  ghost predicate Agree(P: Pool, Q: Pool, lo: nat, hi: nat) {
    hi <= |P| && hi <= |Q| && forall i | lo <= i < hi :: P[i] == Q[i]
  }

  ghost predicate OwnedWithin(D: seq<SlotRef>, lo: nat, hi: nat) {
    forall d <- D :: lo <= d.owner < hi
  }

  ghost predicate OwnedOutside(D: seq<SlotRef>, lo: nat, hi: nat) {
    forall d <- D :: d.owner < lo || hi <= d.owner
  }

  /** A fragment for `ast` at `lo`: D, threaded through the slots themselves, is
      exactly what has to be filled, once each, to obtain the wired tree. */
  ghost predicate Fragment(P: Pool, ast: Ast, lo: nat, D: seq<SlotRef>) {
    lo + Size(ast) <= |P|
    && D != [] && Distinct(D) && OwnedWithin(D, lo, lo + Size(ast)) && Chain(P, D)
    && forall e: nat :: Wired(Patched(P, D, e), ast, lo, To(e))
  }

  lemma {:induction false} WiredFrame(P: Pool, Q: Pool, ast: Ast, lo: nat, exit: Slot)
    requires Wired(P, ast, lo, exit) && Agree(P, Q, lo, lo + Size(ast))
    ensures Wired(Q, ast, lo, exit)
    decreases ast
  {
    hide Wired, Size, Entry;
    match ast
    case Or(a, b) =>
      WiredOr(P, a, b, lo, exit);
      WiredOr(Q, a, b, lo, exit);
      WiredFrame(P, Q, a, lo, exit);
      WiredFrame(P, Q, b, lo + Size(a), exit);
    case Sequence(a, b) =>
      WiredSequence(P, a, b, lo, exit);
      WiredSequence(Q, a, b, lo, exit);
      WiredFrame(P, Q, a, lo, To(Entry(b, lo + Size(a))));
      WiredFrame(P, Q, b, lo + Size(a), exit);
    case Repetition(a) =>
      WiredRepetition(P, a, lo, exit);
      WiredRepetition(Q, a, lo, exit);
      WiredFrame(P, Q, a, lo, To(lo + Size(a)));
    case AtLeastOne(a) =>
      WiredAtLeastOne(P, a, lo, exit);
      WiredAtLeastOne(Q, a, lo, exit);
      WiredFrame(P, Q, a, lo, To(lo + Size(a)));
    case OneOrNone(a) =>
      WiredOption(P, a, lo, exit);
      WiredOption(Q, a, lo, exit);
      WiredFrame(P, Q, a, lo, exit);
    case _ =>
      WiredLeaf(P, ast, lo, exit);
      WiredLeaf(Q, ast, lo, exit);
  }

  lemma ChainFrame(P: Pool, Q: Pool, D: seq<SlotRef>, lo: nat, hi: nat)
    requires Chain(P, D) && OwnedWithin(D, lo, hi) && Agree(P, Q, lo, hi)
    ensures Chain(Q, D)
  {
    forall k | 0 <= k < |D| ensures Linked(Q, D, k) {
      assert D[k] in D && Linked(P, D, k);
    }
  }

  /** A fragment only depends on its own states. */
  lemma FragmentFrame(P: Pool, Q: Pool, ast: Ast, lo: nat, D: seq<SlotRef>)
    requires Fragment(P, ast, lo, D) && Agree(P, Q, lo, lo + Size(ast))
    ensures Fragment(Q, ast, lo, D)
  {
    hide Wired, Size, Entry;
    ChainFrame(P, Q, D, lo, lo + Size(ast));
    forall e: nat ensures Wired(Patched(Q, D, e), ast, lo, To(e)) {
      WiredFrame(Patched(P, D, e), Patched(Q, D, e), ast, lo, To(e));
    }
  }

  /** A fragment stays one while states are added behind it. */
  lemma FragmentGrown(P: Pool, Q: Pool, ast: Ast, lo: nat, D: seq<SlotRef>)
    requires P <= Q && Fragment(P, ast, lo, D)
    ensures Fragment(Q, ast, lo, D)
  {
    FragmentFrame(P, Q, ast, lo, D);
  }

  /** Filling slots leaves the states that own none of them alone. */
  lemma PatchElsewhere(P: Pool, D: seq<SlotRef>, e: nat, lo: nat, hi: nat)
    requires hi <= |P| && OwnedOutside(D, lo, hi)
    ensures Agree(P, Patched(P, D, e), lo, hi)
  {
    forall i | lo <= i < hi ensures P[i] == Patched(P, D, e)[i] {
      assert SlotRef(i, false) !in D && SlotRef(i, true) !in D;
    }
  }

  /** A single new state with its first slot unfilled. */
  lemma LeafFragment(P: Pool, ast: Ast, lo: nat)
    requires ast.Base? || ast.Class? || ast.Blank?
    requires lo < |P| && Wired(P, ast, lo, Null)
    ensures Fragment(P, ast, lo, [SlotRef(lo, false)])
  {
    hide Wired, Size, Entry;
    var D := [SlotRef(lo, false)];
    WiredLeaf(P, ast, lo, Null);
    assert Linked(P, D, 0);
    forall e: nat ensures Wired(Patched(P, D, e), ast, lo, To(e)) {
      WiredLeaf(Patched(P, D, e), ast, lo, To(e));
    }
  }

  // ----- joining two lists -----

  ghost function Last(D: seq<SlotRef>): (d: SlotRef)
    requires D != []
    ensures d in D
  {
    D[|D| - 1]
  }

  /** rgxb_joined: list B hung on the last slot of list A. */
  ghost function Hung(P: Pool, A: seq<SlotRef>, B: seq<SlotRef>): (Q: Pool)
    requires A != [] && B != []
    ensures |Q| == |P|
  {
    if Last(A).owner < |P| then Write(P, Last(A), Next(B[0])) else P
  }

  lemma HungChain(P: Pool, A: seq<SlotRef>, B: seq<SlotRef>)
    requires A != [] && B != [] && Chain(P, A) && Chain(P, B) && Distinct(A)
    requires forall d <- B :: d !in A
    ensures Chain(Hung(P, A, B), A + B)
  {
    assert Linked(P, A, |A| - 1);
    var D, Q := A + B, Hung(P, A, B);
    forall k | 0 <= k < |D| ensures Linked(Q, D, k) {
      if k < |A| {
        assert Linked(P, A, k) && D[k] == A[k];
      } else {
        assert Linked(P, B, k - |A|) && D[k] == B[k - |A|] && B[k - |A|] in B;
      }
    }
  }

  /** Filling the joined list fills the first half as before ... */
  lemma HungFirst(P: Pool, A: seq<SlotRef>, B: seq<SlotRef>, a: Ast, lo: nat, e: nat)
    requires A != [] && B != [] && OwnedOutside(B, lo, lo + Size(a))
    requires Wired(Patched(P, A, e), a, lo, To(e))
    ensures Wired(Patched(Hung(P, A, B), A + B, e), a, lo, To(e))
  {
    hide Wired, Size, Entry;
    var R := Patched(Hung(P, A, B), A + B, e);
    WiredInside(Patched(P, A, e), a, lo, To(e));
    forall i | lo <= i < lo + Size(a) ensures Patched(P, A, e)[i] == R[i] {
      assert SlotRef(i, false) !in B && SlotRef(i, true) !in B;
    }
    WiredFrame(Patched(P, A, e), R, a, lo, To(e));
  }

  /** ... and the second half, which owns none of the first slots. */
  lemma HungSecond(P: Pool, A: seq<SlotRef>, B: seq<SlotRef>, b: Ast, lo: nat, e: nat)
    requires A != [] && B != [] && OwnedOutside(A, lo, lo + Size(b))
    requires Wired(Patched(P, B, e), b, lo, To(e))
    ensures Wired(Patched(Hung(P, A, B), A + B, e), b, lo, To(e))
  {
    hide Wired, Size, Entry;
    var R := Patched(Hung(P, A, B), A + B, e);
    WiredInside(Patched(P, B, e), b, lo, To(e));
    forall i | lo <= i < lo + Size(b) ensures Patched(P, B, e)[i] == R[i] {
      assert SlotRef(i, false) !in A && SlotRef(i, true) !in A;
    }
    WiredFrame(Patched(P, B, e), R, b, lo, To(e));
  }

  // ----- the compound fragments -----

  lemma OrFragment(P: Pool, a: Ast, b: Ast, lo: nat, A: seq<SlotRef>, B: seq<SlotRef>)
    requires lo + Size(a) + Size(b) < |P|
    requires Fragment(P, a, lo, A) && Fragment(P, b, lo + Size(a), B)
    requires P[lo + Size(a) + Size(b)] == Split(Entry(a, lo), To(Entry(b, lo + Size(a))))
    ensures Fragment(Hung(P, A, B), Or(a, b), lo, A + B)
  {
    hide Wired, Size, Entry;
    HungChain(P, A, B);
    var Q := Hung(P, A, B);
    forall e: nat ensures Wired(Patched(Q, A + B, e), Or(a, b), lo, To(e)) {
      HungFirst(P, A, B, a, lo, e);
      HungSecond(P, A, B, b, lo + Size(a), e);
      PatchElsewhere(Q, A + B, e, lo + Size(a) + Size(b), lo + Size(a) + Size(b) + 1);
      WiredOr(Patched(Q, A + B, e), a, b, lo, To(e));
    }
    WiredOr(Q, a, b, lo, Null);
  }

  lemma SequenceFragment(P: Pool, a: Ast, b: Ast, lo: nat, A: seq<SlotRef>, B: seq<SlotRef>)
    requires Fragment(P, a, lo, A) && Fragment(P, b, lo + Size(a), B)
    ensures Fragment(Patched(P, A, Entry(b, lo + Size(a))), Sequence(a, b), lo, B)
  {
    hide Wired, Size, Entry;
    var mid := lo + Size(a);
    var Q := Patched(P, A, Entry(b, mid));
    PatchElsewhere(P, A, Entry(b, mid), mid, mid + Size(b));
    FragmentFrame(P, Q, b, mid, B);
    forall e: nat ensures Wired(Patched(Q, B, e), Sequence(a, b), lo, To(e)) {
      PatchElsewhere(Q, B, e, lo, mid);
      WiredFrame(Q, Patched(Q, B, e), a, lo, To(Entry(b, mid)));
      WiredSequence(Patched(Q, B, e), a, b, lo, To(e));
    }
    WiredSequence(Q, a, b, lo, Null);
  }

  /** rgxb_repetition and rgxb_at_least_one: the loop leads back to its SPLIT. */
  lemma LoopFragment(P: Pool, a: Ast, lo: nat, A: seq<SlotRef>)
    requires lo + Size(a) < |P| && Fragment(P, a, lo, A)
    requires P[lo + Size(a)] == Split(Entry(a, lo), Null)
    ensures var Q, D := Patched(P, A, lo + Size(a)), [SlotRef(lo + Size(a), true)];
            Fragment(Q, Repetition(a), lo, D) && Fragment(Q, AtLeastOne(a), lo, D)
  {
    hide Wired, Size, Entry;
    var s := lo + Size(a);
    var Q, D := Patched(P, A, s), [SlotRef(s, true)];
    PatchElsewhere(P, A, s, s, s + 1);
    assert Linked(Q, D, 0);
    forall e: nat
      ensures Wired(Patched(Q, D, e), Repetition(a), lo, To(e)) && Wired(Patched(Q, D, e), AtLeastOne(a), lo, To(e))
    {
      PatchElsewhere(Q, D, e, lo, s);
      WiredFrame(Q, Patched(Q, D, e), a, lo, To(s));
      WiredRepetition(Patched(Q, D, e), a, lo, To(e));
      WiredAtLeastOne(Patched(Q, D, e), a, lo, To(e));
    }
    WiredRepetition(Q, a, lo, Null);
    WiredAtLeastOne(Q, a, lo, Null);
  }

  lemma OptionFragment(P: Pool, a: Ast, lo: nat, A: seq<SlotRef>)
    requires lo + Size(a) < |P| && Fragment(P, a, lo, A)
    requires P[lo + Size(a)] == Split(Entry(a, lo), Null)
    ensures var B := [SlotRef(lo + Size(a), true)];
            Fragment(Hung(P, A, B), OneOrNone(a), lo, A + B)
  {
    hide Wired, Size, Entry;
    var s := lo + Size(a);
    var B := [SlotRef(s, true)];
    assert Linked(P, B, 0);
    HungChain(P, A, B);
    var Q := Hung(P, A, B);
    forall e: nat ensures Wired(Patched(Q, A + B, e), OneOrNone(a), lo, To(e)) {
      HungFirst(P, A, B, a, lo, e);
      assert SlotRef(s, false) !in A + B && SlotRef(s, true) in A + B && Q[s] == P[s];
      WiredOption(Patched(Q, A + B, e), a, lo, To(e));
    }
    WiredOption(Q, a, lo, Null);
  }
}

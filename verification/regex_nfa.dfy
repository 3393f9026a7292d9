/** The automaton: its state pool, the runs through it, and the layout the
    builder gives a syntax tree (src/stdlib/regex.c:464-604). */
module RegexNfa {
  import opened Sequences
  import opened RegexSyntax

  /** The address of one outgoing pointer of a state. */
  datatype SlotRef = SlotRef(owner: nat, alt: bool)

  /** What an outgoing pointer holds. As in `union dangling_pointers`, a pointer
      that is not yet filled holds the next unfilled one. */
  datatype Slot = Null | To(state: nat) | Next(slot: SlotRef)

  datatype State = State(c: int, chrcls: Option<CharClass>, out: Slot, outAlt: Slot) {
    predicate Silent() { c == SPLIT || c == NONE }
  }

  type Pool = seq<State>

  /** Whether a state consumes character `x`; neither silent states nor MATCH do. */
  predicate Consumes(s: State, x: Ascii, ignoreCase: bool) {
    !s.Silent() && s.c != MATCH
    && if s.c == CHRCLS then s.chrcls.Some? && s.chrcls.value.Contains(x) else Literal(s.c, x, ignoreCase)
  }

  predicate Inside(P: Pool, x: Slot) {
    x.To? && x.state < |P|
  }

  /** Every state but MATCH has its successors set. */
  predicate Closed(P: Pool) {
    forall i | 0 <= i < |P| :: ClosedState(P, i)
  }

  predicate ClosedState(P: Pool, i: nat)
    requires i < |P|
  {
    (P[i].c != MATCH ==> Inside(P, P[i].out)) && (P[i].c == SPLIT ==> Inside(P, P[i].outAlt))
  }

  /** A run of at most n moves from x reads w and stops in MATCH. */
  ghost predicate AcceptsIn(P: Pool, x: Slot, w: seq<Ascii>, ic: bool, n: nat)
    decreases n
  {
    Inside(P, x)
    && var s := P[x.state];
       if s.c == MATCH then w == []
       else n > 0
            && if s.c == SPLIT then AcceptsIn(P, s.out, w, ic, n - 1) || AcceptsIn(P, s.outAlt, w, ic, n - 1)
               else if s.c == NONE then AcceptsIn(P, s.out, w, ic, n - 1)
               else w != [] && Consumes(s, w[0], ic) && AcceptsIn(P, s.out, w[1..], ic, n - 1)
  }

  ghost predicate Accepts(P: Pool, x: Slot, w: seq<Ascii>, ic: bool) {
    exists n: nat :: AcceptsIn(P, x, w, ic, n)
  }

  // ----- where the builder puts a tree -----

  function Size(ast: Ast): nat {
    match ast
    case Or(a, b) => Size(a) + Size(b) + 1
    case Sequence(a, b) => Size(a) + Size(b)
    case Repetition(a) => Size(a) + 1
    case AtLeastOne(a) => Size(a) + 1
    case OneOrNone(a) => Size(a) + 1
    case _ => 1
  }

  /** The start state of a tree whose states begin at `lo`. */
  function Entry(ast: Ast, lo: nat): nat {
    match ast
    case Or(a, b) => lo + Size(a) + Size(b)
    case Sequence(a, b) => Entry(a, lo)
    case Repetition(a) => lo + Size(a)
    case AtLeastOne(a) => Entry(a, lo)
    case OneOrNone(a) => lo + Size(a)
    case _ => lo
  }

  function Split(x: nat, y: Slot): State {
    State(SPLIT, None, To(x), y)
  }

  /** The one state of a tree without subtrees. */
  function LeafState(ast: Ast, exit: Slot): State
    requires ast.Base? || ast.Class? || ast.Blank?
  {
    match ast
    case Base(c) => State(c, None, exit, Null)
    case Class(cls) => State(CHRCLS, Some(cls), exit, Null)
    case Blank => State(NONE, None, exit, Null)
  }

  /** The states lo .. lo + Size(ast) of the pool are the automaton of the tree,
      and every way out of it leads to `exit`. */
  ghost predicate Wired(P: Pool, ast: Ast, lo: nat, exit: Slot) {
    var last := lo + Size(ast) - 1;
    last < |P|
    && match ast
       case Or(a, b) =>
         Wired(P, a, lo, exit) && Wired(P, b, lo + Size(a), exit)
         && P[last] == Split(Entry(a, lo), To(Entry(b, lo + Size(a))))
       case Sequence(a, b) =>
         Wired(P, a, lo, To(Entry(b, lo + Size(a)))) && Wired(P, b, lo + Size(a), exit)
       case Repetition(a) => Wired(P, a, lo, To(last)) && P[last] == Split(Entry(a, lo), exit)
       case AtLeastOne(a) => Wired(P, a, lo, To(last)) && P[last] == Split(Entry(a, lo), exit)
       case OneOrNone(a) => Wired(P, a, lo, exit) && P[last] == Split(Entry(a, lo), exit)
       case _ => P[lo] == LeafState(ast, exit)
  }

  lemma EntryInside(ast: Ast, lo: nat)
    ensures lo <= Entry(ast, lo) < lo + Size(ast)
  {}

  // ----- one level of the definitions -----

  lemma WiredInside(P: Pool, ast: Ast, lo: nat, exit: Slot)
    ensures Wired(P, ast, lo, exit) ==> lo + Size(ast) <= |P|
  {}

  lemma WiredOr(P: Pool, a: Ast, b: Ast, lo: nat, exit: Slot)
    ensures Size(Or(a, b)) == Size(a) + Size(b) + 1 && Entry(Or(a, b), lo) == lo + Size(a) + Size(b)
    ensures Wired(P, Or(a, b), lo, exit)
       <==> Wired(P, a, lo, exit) && Wired(P, b, lo + Size(a), exit) && lo + Size(a) + Size(b) < |P|
            && P[lo + Size(a) + Size(b)] == Split(Entry(a, lo), To(Entry(b, lo + Size(a))))
  {
    assert Size(Or(a, b)) == Size(a) + Size(b) + 1 && Entry(Or(a, b), lo) == lo + Size(a) + Size(b);
    hide Size, Entry;
  }

  lemma WiredSequence(P: Pool, a: Ast, b: Ast, lo: nat, exit: Slot)
    ensures Size(Sequence(a, b)) == Size(a) + Size(b) && Entry(Sequence(a, b), lo) == Entry(a, lo)
    ensures Wired(P, Sequence(a, b), lo, exit)
       <==> Wired(P, a, lo, To(Entry(b, lo + Size(a)))) && Wired(P, b, lo + Size(a), exit)
  {
    assert Size(Sequence(a, b)) == Size(a) + Size(b) && Entry(Sequence(a, b), lo) == Entry(a, lo);
    hide Size, Entry;
    WiredInside(P, a, lo, To(Entry(b, lo + Size(a))));
    WiredInside(P, b, lo + Size(a), exit);
  }

  /** The body of a loop or an option, and its SPLIT behind it. */
  ghost predicate SplitBehind(P: Pool, a: Ast, lo: nat, inner: Slot, exit: Slot) {
    Wired(P, a, lo, inner) && lo + Size(a) < |P| && P[lo + Size(a)] == Split(Entry(a, lo), exit)
  }

  lemma WiredRepetition(P: Pool, a: Ast, lo: nat, exit: Slot)
    ensures Size(Repetition(a)) == Size(a) + 1 && Entry(Repetition(a), lo) == lo + Size(a)
    ensures Wired(P, Repetition(a), lo, exit) <==> SplitBehind(P, a, lo, To(lo + Size(a)), exit)
  {}

  lemma WiredAtLeastOne(P: Pool, a: Ast, lo: nat, exit: Slot)
    ensures Size(AtLeastOne(a)) == Size(a) + 1 && Entry(AtLeastOne(a), lo) == Entry(a, lo)
    ensures Wired(P, AtLeastOne(a), lo, exit) <==> SplitBehind(P, a, lo, To(lo + Size(a)), exit)
  {}

  lemma WiredOption(P: Pool, a: Ast, lo: nat, exit: Slot)
    ensures Size(OneOrNone(a)) == Size(a) + 1 && Entry(OneOrNone(a), lo) == lo + Size(a)
    ensures Wired(P, OneOrNone(a), lo, exit) <==> SplitBehind(P, a, lo, exit, exit)
  {}

  lemma WiredLeaf(P: Pool, ast: Ast, lo: nat, exit: Slot)
    requires ast.Base? || ast.Class? || ast.Blank?
    ensures Size(ast) == 1 && Entry(ast, lo) == lo
    ensures Wired(P, ast, lo, exit) <==> lo < |P| && P[lo] == LeafState(ast, exit)
  {}

  /** A run through a SPLIT takes one of its two ways. */
  lemma ThroughSplit(P: Pool, s: nat, x: nat, y: Slot, w: seq<Ascii>, ic: bool, n: nat)
    requires s < |P| && P[s] == Split(x, y)
    ensures AcceptsIn(P, To(s), w, ic, n)
       <==> n > 0 && (AcceptsIn(P, To(x), w, ic, n - 1) || AcceptsIn(P, y, w, ic, n - 1))
  {}

  // ----- runs of a wired tree spell its language -----

  /** Reading w[..i], then the next j characters. */
  lemma Cut(w: seq<Ascii>, i: nat, j: nat)
    requires i + j <= |w|
    ensures w[..i + j][..i] == w[..i]
    ensures w[..i + j][i..] == w[i..][..j]
    ensures w[i..][j..] == w[i + j..]
  {}

  /** Leaving the automaton of a tree takes a word of the tree, and moves. */
  lemma {:induction false} WiredSound(P: Pool, ast: Ast, lo: nat, exit: Slot, w: seq<Ascii>, ic: bool, n: nat)
    returns (i: nat, m: nat)
    requires Wired(P, ast, lo, exit)
    requires AcceptsIn(P, To(Entry(ast, lo)), w, ic, n)
    ensures i <= |w| && m < n
    ensures Matches(ast, w[..i], ic) && AcceptsIn(P, exit, w[i..], ic, m)
    decreases n, ast, 1
  {
    hide Wired, Size, Entry, AcceptsIn, Iterated;
    match ast
    case Or(a, b) =>
      WiredOr(P, a, b, lo, exit);
      i, m := OrSound(P, a, b, lo, exit, w, ic, n);
    case Sequence(a, b) =>
      WiredSequence(P, a, b, lo, exit);
      i, m := SequenceSound(P, a, b, lo, exit, w, ic, n);
    case Base(_) =>
      i, m := LeafSound(P, ast, lo, exit, w, ic, n);
    case Class(_) =>
      i, m := LeafSound(P, ast, lo, exit, w, ic, n);
    case Blank =>
      i, m := LeafSound(P, ast, lo, exit, w, ic, n);
    case Repetition(a) =>
      WiredRepetition(P, a, lo, exit);
      i, m := LoopSound(P, a, lo, exit, w, ic, n);
    case AtLeastOne(a) =>
      WiredAtLeastOne(P, a, lo, exit);
      i, m := AtLeastOneSound(P, a, lo, exit, w, ic, n);
    case OneOrNone(a) =>
      WiredOption(P, a, lo, exit);
      i, m := OptionSound(P, a, lo, exit, w, ic, n);
  }

  lemma LeafSound(P: Pool, ast: Ast, lo: nat, exit: Slot, w: seq<Ascii>, ic: bool, n: nat)
    returns (i: nat, m: nat)
    requires ast.Base? || ast.Class? || ast.Blank?
    requires Wired(P, ast, lo, exit)
    requires AcceptsIn(P, To(Entry(ast, lo)), w, ic, n)
    ensures i <= |w| && m < n
    ensures Matches(ast, w[..i], ic) && AcceptsIn(P, exit, w[i..], ic, m)
  {
    i, m := if ast.Blank? then 0 else 1, n - 1;
    assert w[0..] == w;
  }

  lemma {:induction false} OrSound(P: Pool, a: Ast, b: Ast, lo: nat, exit: Slot, w: seq<Ascii>, ic: bool, n: nat)
    returns (i: nat, m: nat)
    requires lo + Size(a) + Size(b) < |P|
    requires Wired(P, a, lo, exit) && Wired(P, b, lo + Size(a), exit)
    requires P[lo + Size(a) + Size(b)] == Split(Entry(a, lo), To(Entry(b, lo + Size(a))))
    requires AcceptsIn(P, To(lo + Size(a) + Size(b)), w, ic, n)
    ensures i <= |w| && m < n
    ensures (Matches(a, w[..i], ic) || Matches(b, w[..i], ic)) && AcceptsIn(P, exit, w[i..], ic, m)
    decreases n, Or(a, b), 0
  {
    hide Matches, Wired, Size, Entry, AcceptsIn;
    ThroughSplit(P, lo + Size(a) + Size(b), Entry(a, lo), To(Entry(b, lo + Size(a))), w, ic, n);
    if AcceptsIn(P, To(Entry(a, lo)), w, ic, n - 1) {
      i, m := WiredSound(P, a, lo, exit, w, ic, n - 1);
    } else {
      i, m := WiredSound(P, b, lo + Size(a), exit, w, ic, n - 1);
    }
  }

  lemma {:induction false} SequenceSound(P: Pool, a: Ast, b: Ast, lo: nat, exit: Slot, w: seq<Ascii>, ic: bool, n: nat)
    returns (i: nat, m: nat)
    requires Wired(P, a, lo, To(Entry(b, lo + Size(a)))) && Wired(P, b, lo + Size(a), exit)
    requires AcceptsIn(P, To(Entry(a, lo)), w, ic, n)
    ensures i <= |w| && m < n
    ensures exists j | 0 <= j <= i :: Matches(a, w[..i][..j], ic) && Matches(b, w[..i][j..], ic)
    ensures AcceptsIn(P, exit, w[i..], ic, m)
    decreases n, Sequence(a, b), 0
  {
    hide Matches, Wired, Size, Entry, AcceptsIn;
    var i1, m1 := WiredSound(P, a, lo, To(Entry(b, lo + Size(a))), w, ic, n);
    var i2, m2 := WiredSound(P, b, lo + Size(a), exit, w[i1..], ic, m1);
    Cut(w, i1, i2);
    i, m := i1 + i2, m2;
  }

  /** From the SPLIT that closes a loop, a run leaves after some rounds. */
  lemma {:induction false} LoopSound(P: Pool, a: Ast, lo: nat, exit: Slot, w: seq<Ascii>, ic: bool, n: nat)
    returns (i: nat, m: nat)
    requires SplitBehind(P, a, lo, To(lo + Size(a)), exit)
    requires AcceptsIn(P, To(lo + Size(a)), w, ic, n)
    ensures i <= |w| && m < n
    ensures Iterated(a, w[..i], ic) && AcceptsIn(P, exit, w[i..], ic, m)
    decreases n, a, 2
  {
    hide Matches, Wired, Size, Entry, AcceptsIn;
    ThroughSplit(P, lo + Size(a), Entry(a, lo), exit, w, ic, n);
    if AcceptsIn(P, exit, w, ic, n - 1) {
      i, m := 0, n - 1;
      assert w[i..] == w;
    } else {
      var i1, m1 := WiredSound(P, a, lo, To(lo + Size(a)), w, ic, n - 1);
      var i2, m2 := LoopSound(P, a, lo, exit, w[i1..], ic, m1);
      Cut(w, i1, i2);
      i, m := i1 + i2, m2;
      IteratedPrepend(a, w[..i], i1, ic);
    }
  }

  lemma {:induction false} AtLeastOneSound(P: Pool, a: Ast, lo: nat, exit: Slot, w: seq<Ascii>, ic: bool, n: nat)
    returns (i: nat, m: nat)
    requires SplitBehind(P, a, lo, To(lo + Size(a)), exit)
    requires AcceptsIn(P, To(Entry(a, lo)), w, ic, n)
    ensures i <= |w| && m < n
    ensures exists j | 0 <= j <= i :: Matches(a, w[..i][..j], ic) && Iterated(a, w[..i][j..], ic)
    ensures AcceptsIn(P, exit, w[i..], ic, m)
    decreases n, a, 3
  {
    hide Matches, Iterated, Wired, Size, Entry, AcceptsIn;
    var i1, m1 := WiredSound(P, a, lo, To(lo + Size(a)), w, ic, n);
    var i2, m2 := LoopSound(P, a, lo, exit, w[i1..], ic, m1);
    Cut(w, i1, i2);
    i, m := i1 + i2, m2;
  }

  lemma {:induction false} OptionSound(P: Pool, a: Ast, lo: nat, exit: Slot, w: seq<Ascii>, ic: bool, n: nat)
    returns (i: nat, m: nat)
    requires SplitBehind(P, a, lo, exit, exit)
    requires AcceptsIn(P, To(lo + Size(a)), w, ic, n)
    ensures i <= |w| && m < n
    ensures (w[..i] == [] || Matches(a, w[..i], ic)) && AcceptsIn(P, exit, w[i..], ic, m)
    decreases n, a, 2
  {
    hide Matches, Wired, Size, Entry, AcceptsIn;
    ThroughSplit(P, lo + Size(a), Entry(a, lo), exit, w, ic, n);
    if AcceptsIn(P, exit, w, ic, n - 1) {
      i, m := 0, n - 1;
      assert w[i..] == w;
    } else {
      i, m := WiredSound(P, a, lo, exit, w, ic, n - 1);
    }
  }

  /** Any word of the tree takes its automaton from entry to exit. */
  lemma {:induction false} WiredComplete(P: Pool, ast: Ast, lo: nat, exit: Slot, w: seq<Ascii>, i: nat, ic: bool)
    requires Wired(P, ast, lo, exit)
    requires i <= |w| && Matches(ast, w[..i], ic) && Accepts(P, exit, w[i..], ic)
    ensures Accepts(P, To(Entry(ast, lo)), w, ic)
    decreases ast, |w|, 1
  {
    hide Wired, Size, Entry, Accepts, Iterated;
    match ast
    case Or(a, b) =>
      WiredOr(P, a, b, lo, exit);
      OrComplete(P, a, b, lo, exit, w, i, ic);
    case Sequence(a, b) =>
      WiredSequence(P, a, b, lo, exit);
      SequenceComplete(P, a, b, lo, exit, w, i, ic);
    case Base(_) =>
      LeafComplete(P, ast, lo, exit, w, i, ic);
    case Class(_) =>
      LeafComplete(P, ast, lo, exit, w, i, ic);
    case Blank =>
      LeafComplete(P, ast, lo, exit, w, i, ic);
    case Repetition(a) =>
      WiredRepetition(P, a, lo, exit);
      LoopComplete(P, a, lo, exit, w, i, ic);
    case AtLeastOne(a) =>
      WiredAtLeastOne(P, a, lo, exit);
      AtLeastOneComplete(P, a, lo, exit, w, i, ic);
    case OneOrNone(a) =>
      WiredOption(P, a, lo, exit);
      OptionComplete(P, a, lo, exit, w, i, ic);
  }

  lemma {:induction false} SequenceComplete(P: Pool, a: Ast, b: Ast, lo: nat, exit: Slot, w: seq<Ascii>, i: nat,
                                            ic: bool)
    requires Wired(P, a, lo, To(Entry(b, lo + Size(a)))) && Wired(P, b, lo + Size(a), exit)
    requires i <= |w| && Accepts(P, exit, w[i..], ic)
    requires exists j | 0 <= j <= i :: Matches(a, w[..i][..j], ic) && Matches(b, w[..i][j..], ic)
    ensures Accepts(P, To(Entry(a, lo)), w, ic)
    decreases Sequence(a, b), |w|, 0
  {
    hide Matches, Wired, Size, Entry, Accepts;
    var j: nat :| j <= i && Matches(a, w[..i][..j], ic) && Matches(b, w[..i][j..], ic);
    Cut(w, j, i - j);
    WiredComplete(P, b, lo + Size(a), exit, w[j..], i - j, ic);
    WiredComplete(P, a, lo, To(Entry(b, lo + Size(a))), w, j, ic);
  }

  lemma {:induction false} AtLeastOneComplete(P: Pool, a: Ast, lo: nat, exit: Slot, w: seq<Ascii>, i: nat, ic: bool)
    requires SplitBehind(P, a, lo, To(lo + Size(a)), exit)
    requires i <= |w| && Accepts(P, exit, w[i..], ic)
    requires exists j | 0 <= j <= i :: Matches(a, w[..i][..j], ic) && Iterated(a, w[..i][j..], ic)
    ensures Accepts(P, To(Entry(a, lo)), w, ic)
    decreases a, |w|, 3
  {
    hide Matches, Iterated, Wired, Size, Entry, Accepts;
    var j: nat :| j <= i && Matches(a, w[..i][..j], ic) && Iterated(a, w[..i][j..], ic);
    Cut(w, j, i - j);
    LoopComplete(P, a, lo, exit, w[j..], i - j, ic);
    WiredComplete(P, a, lo, To(lo + Size(a)), w, j, ic);
  }

  lemma {:induction false} OrComplete(P: Pool, a: Ast, b: Ast, lo: nat, exit: Slot, w: seq<Ascii>, i: nat, ic: bool)
    requires lo + Size(a) + Size(b) < |P|
    requires Wired(P, a, lo, exit) && Wired(P, b, lo + Size(a), exit)
    requires P[lo + Size(a) + Size(b)] == Split(Entry(a, lo), To(Entry(b, lo + Size(a))))
    requires i <= |w| && (Matches(a, w[..i], ic) || Matches(b, w[..i], ic)) && Accepts(P, exit, w[i..], ic)
    ensures Accepts(P, To(lo + Size(a) + Size(b)), w, ic)
    decreases Or(a, b), |w|, 0
  {
    hide Matches, Wired, Size, Entry, Accepts;
    var split := To(lo + Size(a) + Size(b));
    if Matches(a, w[..i], ic) {
      WiredComplete(P, a, lo, exit, w, i, ic);
      StepInto(P, split, To(Entry(a, lo)), w, ic);
    } else {
      WiredComplete(P, b, lo + Size(a), exit, w, i, ic);
      StepInto(P, split, To(Entry(b, lo + Size(a))), w, ic);
    }
  }

  lemma {:induction false} OptionComplete(P: Pool, a: Ast, lo: nat, exit: Slot, w: seq<Ascii>, i: nat, ic: bool)
    requires SplitBehind(P, a, lo, exit, exit)
    requires i <= |w| && (w[..i] == [] || Matches(a, w[..i], ic)) && Accepts(P, exit, w[i..], ic)
    ensures Accepts(P, To(lo + Size(a)), w, ic)
    decreases a, |w|, 2
  {
    hide Matches, Wired, Size, Entry, Accepts;
    if w[..i] == [] {
      assert w[i..] == w;
      StepInto(P, To(lo + Size(a)), exit, w, ic);
    } else {
      WiredComplete(P, a, lo, exit, w, i, ic);
      StepInto(P, To(lo + Size(a)), To(Entry(a, lo)), w, ic);
    }
  }

  /** From the SPLIT that closes a loop, any number of rounds leads to exit. */
  lemma {:induction false} LoopComplete(P: Pool, a: Ast, lo: nat, exit: Slot, w: seq<Ascii>, i: nat, ic: bool)
    requires SplitBehind(P, a, lo, To(lo + Size(a)), exit)
    requires i <= |w| && Iterated(a, w[..i], ic) && Accepts(P, exit, w[i..], ic)
    ensures Accepts(P, To(lo + Size(a)), w, ic)
    decreases a, |w|, 2
  {
    hide Accepts, Matches, Wired, Size, Entry;
    if w[..i] == [] {
      assert w[i..] == w;
      StepInto(P, To(lo + Size(a)), exit, w, ic);
    } else {
      var j: nat :| 0 < j <= i && Matches(a, w[..i][..j], ic) && Iterated(a, w[..i][j..], ic);
      Cut(w, j, i - j);
      LoopComplete(P, a, lo, exit, w[j..], i - j, ic);
      WiredComplete(P, a, lo, To(lo + Size(a)), w, j, ic);
      StepInto(P, To(lo + Size(a)), To(Entry(a, lo)), w, ic);
    }
  }

  /** A silent move in front of an accepting run. */
  lemma StepInto(P: Pool, x: Slot, y: Slot, w: seq<Ascii>, ic: bool)
    requires Inside(P, x) && P[x.state].Silent() && Accepts(P, y, w, ic)
    requires P[x.state].out == y || (P[x.state].c == SPLIT && P[x.state].outAlt == y)
    ensures Accepts(P, x, w, ic)
  {
    var n: nat :| AcceptsIn(P, y, w, ic, n);
    assert AcceptsIn(P, x, w, ic, n + 1);
  }

  lemma LeafComplete(P: Pool, ast: Ast, lo: nat, exit: Slot, w: seq<Ascii>, i: nat, ic: bool)
    requires ast.Base? || ast.Class? || ast.Blank?
    requires Wired(P, ast, lo, exit)
    requires i <= |w| && Matches(ast, w[..i], ic) && Accepts(P, exit, w[i..], ic)
    ensures Accepts(P, To(Entry(ast, lo)), w, ic)
  {
    if ast.Blank? {
      assert w[i..] == w;
      StepInto(P, To(lo), exit, w, ic);
    } else {
      ConsumeInto(P, lo, exit, w, ic);
    }
  }

  /** A consuming move in front of an accepting run. */
  lemma ConsumeInto(P: Pool, lo: nat, exit: Slot, w: seq<Ascii>, ic: bool)
    requires lo < |P| && w != [] && Consumes(P[lo], w[0], ic) && P[lo].out == exit
    requires Accepts(P, exit, w[1..], ic)
    ensures Accepts(P, To(lo), w, ic)
  {
    var n: nat :| AcceptsIn(P, exit, w[1..], ic, n);
    assert AcceptsIn(P, To(lo), w, ic, n + 1);
  }

  /** A state code the simulation knows how to treat. */
  predicate Known(s: State) {
    s.c in {SPLIT, NONE, ANY} || 0 <= s.c < 128 || (s.c == CHRCLS && s.chrcls.Some?)
  }

  /** From lo up to hi the automaton has no loose pointer and no MATCH state. */
  ghost predicate Sound(P: Pool, lo: nat, hi: nat) {
    hi <= |P| && forall i | lo <= i < hi :: Known(P[i]) && ClosedState(P, i)
  }

  lemma {:induction false} WiredClosed(P: Pool, ast: Ast, lo: nat, exit: Slot)
    requires Wired(P, ast, lo, exit) && Inside(P, exit)
    ensures Sound(P, lo, lo + Size(ast))
  {
    hide Wired, Size, Entry, Sound;
    match ast
    case Or(a, b) =>
      WiredOr(P, a, b, lo, exit);
      WiredClosed(P, a, lo, exit);
      WiredClosed(P, b, lo + Size(a), exit);
      EntryInside(a, lo);
      EntryInside(b, lo + Size(a));
      SoundSplit(P, lo + Size(a) + Size(b));
      SoundJoin(P, lo, lo + Size(a), lo + Size(a) + Size(b));
      SoundJoin(P, lo, lo + Size(a) + Size(b), lo + Size(ast));
    case Sequence(a, b) =>
      WiredSequence(P, a, b, lo, exit);
      EntryInside(b, lo + Size(a));
      WiredInside(P, b, lo + Size(a), exit);
      WiredClosed(P, a, lo, To(Entry(b, lo + Size(a))));
      WiredClosed(P, b, lo + Size(a), exit);
      SoundJoin(P, lo, lo + Size(a), lo + Size(ast));
    case Repetition(a) =>
      WiredRepetition(P, a, lo, exit);
      WiredClosed(P, a, lo, To(lo + Size(a)));
      EntryInside(a, lo);
      SoundSplit(P, lo + Size(a));
      SoundJoin(P, lo, lo + Size(a), lo + Size(ast));
    case AtLeastOne(a) =>
      WiredAtLeastOne(P, a, lo, exit);
      WiredClosed(P, a, lo, To(lo + Size(a)));
      EntryInside(a, lo);
      SoundSplit(P, lo + Size(a));
      SoundJoin(P, lo, lo + Size(a), lo + Size(ast));
    case OneOrNone(a) =>
      WiredOption(P, a, lo, exit);
      WiredClosed(P, a, lo, exit);
      EntryInside(a, lo);
      SoundSplit(P, lo + Size(a));
      SoundJoin(P, lo, lo + Size(a), lo + Size(ast));
    case _ =>
      LeafClosed(P, ast, lo, exit);
  }

  lemma SoundJoin(P: Pool, lo: nat, mid: nat, hi: nat)
    requires lo <= mid <= hi && Sound(P, lo, mid) && Sound(P, mid, hi)
    ensures Sound(P, lo, hi)
  {}

  lemma SoundSplit(P: Pool, s: nat)
    requires s < |P| && P[s].c == SPLIT && Inside(P, P[s].out) && Inside(P, P[s].outAlt)
    ensures Sound(P, s, s + 1)
  {}

  lemma LeafClosed(P: Pool, ast: Ast, lo: nat, exit: Slot)
    requires ast.Base? || ast.Class? || ast.Blank?
    requires Wired(P, ast, lo, exit) && Inside(P, exit)
    ensures Sound(P, lo, lo + Size(ast))
  {}

  /** The pool rgx_compile leaves: the tree's automaton, then the MATCH state. */
  ghost predicate Compiled(P: Pool, ast: Ast) {
    |P| == Size(ast) + 1 && Wired(P, ast, 0, To(Size(ast)))
    && P[Size(ast)] == State(MATCH, None, Null, Null)
  }

  lemma CompiledClosed(P: Pool, ast: Ast)
    requires Compiled(P, ast)
    ensures Closed(P) && Entry(ast, 0) < |P|
    ensures forall i | 0 <= i < |P| :: Known(P[i]) || P[i].c == MATCH
  {
    hide Wired, Size, Entry;
    EntryInside(ast, 0);
    WiredClosed(P, ast, 0, To(Size(ast)));
    forall i | 0 <= i < |P| ensures ClosedState(P, i) {}
  }

  /** The start-to-MATCH runs of a compiled pool spell exactly the tree's words. */
  lemma CompiledLanguage(P: Pool, ast: Ast, w: seq<Ascii>, ic: bool)
    requires Compiled(P, ast)
    ensures Accepts(P, To(Entry(ast, 0)), w, ic) <==> Matches(ast, w, ic)
  {
    hide Wired, Size, Entry, Matches;
    if Accepts(P, To(Entry(ast, 0)), w, ic) {
      var n: nat :| AcceptsIn(P, To(Entry(ast, 0)), w, ic, n);
      var i, m := WiredSound(P, ast, 0, To(Size(ast)), w, ic, n);
      assert w[..i] == w;
    }
    if Matches(ast, w, ic) {
      assert w[..|w|] == w && w[|w|..] == [];
      assert AcceptsIn(P, To(Size(ast)), [], ic, 0);
      WiredComplete(P, ast, 0, To(Size(ast)), w, |w|, ic);
    }
  }
}

/** The table of constants (find_prev_const and compile_value, src/compiler/ast_compiler.c:1202-1272):
    a constant gets the place of the first one that compares equal to it. */
module LankyConstants {
  import opened Sequences
  import opened LankySyntax
  import opened LankyLayout
  import opened LankyAssembly
  import opened Doubles

  /** The place of the first constant that is the same, or the length. */
  function FirstSame(c: Constant, table: seq<Constant>): (i: nat)
    ensures i <= |table| && (i < |table| ==> SameConstant(c, table[i]))
    ensures forall k :: 0 <= k < i ==> !SameConstant(c, table[k])
  {
    if table == [] then 0
    else if SameConstant(c, table[0]) then 0
    else
      var i := FirstSame(c, table[1..]);
      assert forall k :: 0 < k < i + 1 ==> table[k] == table[1..][k - 1];
      i + 1
  }

  // ----- the constants of a program, in the order in which they are compiled -----

  /** The constants of e behind cs. */
  function ConstantsE(cs: seq<Constant>, e: Expr): seq<Constant>
    decreases e
  {
    match e
    case Const(c) => cs + [c]
    case Unary(_, a) => ConstantsE(cs, a)
    case Binary(_, a, b) => ConstantsE(ConstantsE(cs, a), b)
    case Cond(_, a, b) => ConstantsE(ConstantsE(cs, a), b)
    case Ternary(a, b, c) => ConstantsE(ConstantsE(ConstantsE(cs, a), b), c)
    case Assign(_, a) => ConstantsE(cs, a)
    case ArrayLit(es) => ConstantsAll(cs, es)
    case Index(t, i) => ConstantsE(ConstantsE(cs, t), i)
    case SetIndex(t, i, v) => ConstantsE(ConstantsE(ConstantsE(cs, v), t), i)
    case Update(_, t, i, v) => ConstantsE(ConstantsE(ConstantsE(cs, t), i), v)
    case Call(es, f) => ConstantsE(ConstantsAll(cs, es), f)
    case _ => cs
  }

  function ConstantsAll(cs: seq<Constant>, es: Exprs): seq<Constant>
    decreases es
  {
    match es
    case Nothing => cs
    case More(e, rest) => ConstantsAll(ConstantsE(cs, e), rest)
  }

  function ConstantsMaybe(cs: seq<Constant>, e: Option<Expr>): seq<Constant> {
    if e.Some? then ConstantsE(cs, e.value) else cs
  }

  function ConstantsS(cs: seq<Constant>, s: Stmt): seq<Constant>
    decreases s
  {
    match s
    case Do(e) => ConstantsE(cs, e)
    case Print(e) => ConstantsE(cs, e)
    case Return(e) => ConstantsMaybe(cs, e)
    case Raise(e) => ConstantsE(cs, e)
    case If(test, body, rest) => ConstantsElse(ConstantsB(ConstantsE(cs, test), body), rest)
    case Loop(init, test, step, body) =>
      ConstantsMaybe(ConstantsB(ConstantsE(ConstantsMaybe(cs, init), test), body), step)
    case ForIn(_, _, e, body) => ConstantsB(ConstantsE(cs, e), body)
    case Try(body, _, handler) => ConstantsB(ConstantsB(cs, body), handler)
    case _ => cs
  }

  function ConstantsElse(cs: seq<Constant>, s: Else): seq<Constant>
    decreases s
  {
    match s
    case NoElse => cs
    case Elif(test, body, rest) => ConstantsElse(ConstantsB(ConstantsE(cs, test), body), rest)
    case ElseBlock(body) => ConstantsB(cs, body)
  }

  function ConstantsB(cs: seq<Constant>, b: Block): seq<Constant>
    decreases b
  {
    match b
    case End => cs
    case Then(s, rest) => ConstantsB(ConstantsS(cs, s), rest)
  }

  lemma CondConstants(cs: seq<Constant>, e: Expr)
    requires e.Cond?
    ensures ConstantsE(cs, e) == ConstantsE(ConstantsE(cs, e.left), e.right)
  {}

  // ----- the table -----

  /** The table afterwards, and the place that the code will load from. */
  function Intern(c: Constant, table: seq<Constant>): (r: (seq<Constant>, nat))
    ensures r.1 < |r.0| && table <= r.0
  {
    var i := FirstSame(c, table);
    if i < |table| then (table, i) else (table + [c], i)
  }

  function InternAll(cs: seq<Constant>): seq<Constant> {
    if cs == [] then [] else Intern(cs[|cs| - 1], InternAll(cs[..|cs| - 1])).0
  }

  lemma InternedNext(cs: seq<Constant>, c: Constant)
    ensures InternAll(cs + [c]) == Intern(c, InternAll(cs)).0
  {
    hide Intern;
    assert (cs + [c])[..|cs|] == cs;
  }

  /** What is loaded for the k-th of the constants cs, compiled in this order; later ones
      only add to the table. */
  function Loaded(cs: seq<Constant>, k: nat): Constant
    requires k < |cs|
  {
    var (table, i) := Intern(cs[k], InternAll(cs[..k]));
    table[i]
  }

  function Ints(cs: seq<Constant>): set<int> {
    set c | c in cs && c.IntConst? :: c.i
  }

  ghost predicate Apart(table: seq<Constant>) {
    forall i, j :: 0 <= i < j < |table| ==> !SameConstant(table[i], table[j])
  }

  lemma SameIsSymmetric(a: Constant, b: Constant)
    ensures SameConstant(a, b) == SameConstant(b, a)
  {}

  lemma {:induction false} TableApart(cs: seq<Constant>)
    ensures Apart(InternAll(cs)) && forall c <- InternAll(cs) :: c in cs
    decreases |cs|
  {
    hide SameConstant;
    if cs != [] {
      var c, before := cs[|cs| - 1], InternAll(cs[..|cs| - 1]);
      TableApart(cs[..|cs| - 1]);
      forall k | 0 <= k < |before|
        ensures SameConstant(before[k], c) == SameConstant(c, before[k])
      {
        SameIsSymmetric(before[k], c);
      }
    }
  }

  lemma {:induction false} TableGrows(cs: seq<Constant>, k: nat)
    requires k <= |cs|
    ensures InternAll(cs[..k]) <= InternAll(cs)
    decreases |cs|
  {
    hide Intern;
    if k < |cs| {
      TableGrows(cs[..|cs| - 1], k);
      assert cs[..|cs| - 1][..k] == cs[..k];
    } else {
      assert cs[..k] == cs;
    }
  }

  lemma InternedIn(cs: seq<Constant>, k: nat)
    requires k < |cs| && Loaded(cs, k) == cs[k]
    ensures cs[k] in InternAll(cs[..k + 1])
  {
    assert cs[..k + 1][..k] == cs[..k];
  }

  lemma LoadedApart(cs: seq<Constant>, a: nat, b: nat)
    requires a < b < |cs| && Loaded(cs, a) == cs[a] && Loaded(cs, b) == cs[b] && SameConstant(cs[a], cs[b])
    ensures cs[a] == cs[b]
  {
    hide InternAll, SameConstant;
    InternedIn(cs, a);
    InternedIn(cs, b);
    var table := InternAll(cs[..b + 1]);
    assert cs[..b + 1][..a + 1] == cs[..a + 1];
    TableGrows(cs[..b + 1], a + 1);
    TableApart(cs[..b + 1]);
    var i :| 0 <= i < |InternAll(cs[..a + 1])| && InternAll(cs[..a + 1])[i] == cs[a];
    var j :| 0 <= j < |table| && table[j] == cs[b];
    assert table[i] == cs[a];
    SameIsSymmetric(cs[a], cs[b]);
  }

  /** Every constant is loaded as it was written exactly when no two of the integers are
      the same double. */
  lemma LoadedExactly(cs: seq<Constant>)
    ensures (forall k :: 0 <= k < |cs| ==> Loaded(cs, k) == cs[k]) <==> ToldApart(Ints(cs))
  {
    hide InternAll, Intern, Loaded;
    if ToldApart(Ints(cs)) {
      forall k | 0 <= k < |cs|
        ensures Loaded(cs, k) == cs[k]
      {
        LoadedSame(cs, k);
        SameMeansEqual(cs[k], Loaded(cs, k), Ints(cs));
      }
    }
    if forall k :: 0 <= k < |cs| ==> Loaded(cs, k) == cs[k] {
      forall i, j | i in Ints(cs) && j in Ints(cs) && ToDouble(i) == ToDouble(j)
        ensures i == j
      {
        var a :| 0 <= a < |cs| && cs[a] == IntConst(i);
        var b :| 0 <= b < |cs| && cs[b] == IntConst(j);
        if a < b {
          LoadedApart(cs, a, b);
        } else if b < a {
          LoadedApart(cs, b, a);
        }
      }
    }
  }

  lemma LoadedSame(cs: seq<Constant>, k: nat)
    requires k < |cs|
    ensures SameConstant(cs[k], Loaded(cs, k)) && Loaded(cs, k) in cs
  {
    hide InternAll, FirstSame;
    TableApart(cs[..k]);
    SameAsItself(cs[k]);
    var (table, i) := Intern(cs[k], InternAll(cs[..k]));
    assert table[i] in InternAll(cs[..k]) || table[i] == cs[k];
  }

  lemma SameAsItself(c: Constant)
    ensures SameConstant(c, c)
  {}

  /** Up to 2^53 in size they are; the next integer is loaded as 2^53 if that is a constant
      of the program too. */
  lemma SmallToldApart(ints: set<int>)
    requires forall i <- ints :: -TWO53 <= i <= TWO53
    ensures ToldApart(ints)
  {
    forall i, j | i in ints && j in ints && ToDouble(i) == ToDouble(j)
      ensures i == j
    {
      ExactBelow(i);
      ExactBelow(j);
    }
  }

  lemma WrongConstant()
    ensures Loaded([IntConst(TWO53), IntConst(TWO53 + 1)], 1) == IntConst(TWO53)
  {
    hide ToDouble;
    var a, b := IntConst(TWO53), IntConst(TWO53 + 1);
    FirstCollision();
    assert [a, b][..1] == [a] && [a][..0] == [];
    assert InternAll([a]) == [a];
    assert SameConstant(b, a);
  }
}

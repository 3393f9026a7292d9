/** Compiled programs whose operands the analyzer takes for opcodes
    (src/compiler/bytecode_analyzer.c:56-137), so that it says too little. */
module LankyOperands {
  import opened Sequences
  import opened LankySyntax
  import opened LankySemantics
  import opened LankyMachine
  import opened LankyLayout
  import opened LankyAssembly
  import opened LankyConstants
  import opened LankyRuns
  import opened LankyExpressions
  import opened LankyDepth
  import opened LankyProgram
  import opened BytecodeAnalyzer
  import opened Doubles

  // ----- the statements 0; 1; ..; n - 1; -----

  function Number(i: int): Expr {
    Const(IntConst(i))
  }

  /** The statements i; ..; n - 1; in front of others. */
  function Counting(i: nat, n: nat, rest: Block): Block
    decreases n - i
  {
    if i >= n then rest else Then(Do(Number(i)), Counting(i + 1, n, rest))
  }

  function Numbers(n: nat): seq<Constant> {
    seq(n, i => IntConst(i))
  }

  lemma {:induction false} CountingConstants(i: nat, n: nat, rest: Block)
    requires i <= n
    ensures ConstantsB(Numbers(i), Counting(i, n, rest)) == ConstantsB(Numbers(n), rest)
    decreases n - i
  {
    if i < n {
      CountingConstants(i + 1, n, rest);
      assert Numbers(i) + [IntConst(i)] == Numbers(i + 1);
      assert ConstantsS(Numbers(i), Do(Number(i))) == Numbers(i + 1);
    }
  }

  /** A number below m is in the table already, the number m gets the next place. */
  lemma InternNumber(m: nat, i: nat)
    requires i <= m < TWO53
    ensures Intern(IntConst(i), Numbers(m)).0 == Numbers(if i < m then m else m + 1)
  {
    hide ToDouble;
    var table, at := Numbers(m), FirstSame(IntConst(i), Numbers(m));
    forall k: nat | k <= m ensures ToDouble(k) == k {
      ExactBelow(k);
    }
    if i < m {
      assert SameConstant(IntConst(i), table[i]);
      assert table[at] == IntConst(at);
    } else {
      forall k: nat | k < m ensures !SameConstant(IntConst(m), table[k]) {
        assert table[k] == IntConst(k);
      }
      assert Numbers(m) + [IntConst(m)] == Numbers(m + 1);
    }
  }

  lemma {:induction false} NumbersInterned(n: nat)
    requires n <= TWO53
    ensures InternAll(Numbers(n)) == Numbers(n)
  {
    hide Intern;
    if n > 0 {
      NumbersInterned(n - 1);
      InternNumber(n - 1, n - 1);
      assert Numbers(n)[..n - 1] == Numbers(n - 1);
    }
  }

  lemma InternedNumber(cs: seq<Constant>, m: nat, i: nat)
    requires InternAll(cs) == Numbers(m) && i <= m < TWO53
    ensures InternAll(cs + [IntConst(i)]) == Numbers(if i < m then m else m + 1)
  {
    hide Intern, InternAll;
    InternedNext(cs, IntConst(i));
    InternNumber(m, i);
  }

  lemma {:induction false} CountingFits(i: nat, n: nat, rest: Block, lim: Limits)
    requires i <= n && WellFormedBlock(rest, false, lim) && forall k: nat :: k < n ==> k in lim.ints
    ensures WellFormedBlock(Counting(i, n, rest), false, lim)
    ensures SizeB(Counting(i, n, rest)) == 6 * (n - i) + SizeB(rest)
    decreases n - i
  {
    if i < n {
      CountingFits(i + 1, n, rest, lim);
    }
  }

  lemma {:induction false} CountingEnds(i: nat, n: nat, rest: Block)
    requires rest.Then?
    ensures EndsInReturn(Counting(i, n, rest)) == EndsInReturn(rest) && Counting(i, n, rest).Then?
    decreases n - i
  {
    if i < n {
      CountingEnds(i + 1, n, rest);
    }
  }

  /** The number i has the place i. */
  lemma NumberAt(k: Tables, ops: Ops, p: nat, i: nat)
    requires k.exact && ConstAt(k, ops, p, IntConst(i)) && exists m: nat :: i < m && k.consts == Numbers(m)
    ensures Wide(ops, p, LOAD_CONST, i)
  {}

  /** The tables of a program whose constants are the numbers below m. */
  predicate Numbered(k: Tables, m: nat) {
    k.exact && k.resolved && k.consts == Numbers(m)
  }

  lemma NumberCode(k: Tables, ops: Ops, m: nat, p: nat, i: nat)
    requires Numbered(k, m) && i < m && CodeE(k, ops, p, Number(i))
    ensures Wide(ops, p, LOAD_CONST, i) && SizeE(Number(i)) == 5
  {
    NumberAt(k, ops, p, i);
  }

  lemma CountStep(k: Tables, ops: Ops, m: nat, i: nat, n: nat, rest: Block)
    requires Numbered(k, m) && i < n <= m && CodeB(k, ops, 6 * i, Counting(i, n, rest), -1, -1)
    ensures CodeE(k, ops, 6 * i, Number(i)) && Wide(ops, 6 * i, LOAD_CONST, i) && At(ops, 6 * i + 5, POP)
    ensures CodeB(k, ops, 6 * (i + 1), Counting(i + 1, n, rest), -1, -1)
  {
    hide CodeE, Wide;
    var s := Do(Number(i));
    assert SizeE(Number(i)) == 5 && SizeS(s) == 6;
    assert CodeS(k, ops, 6 * i, s, -1, -1);
    NumberCode(k, ops, m, 6 * i, i);
  }

  // ----- what the analyzer makes of them -----

  /** The upper bytes of an operand below 12800 look like nothing. */
  lemma LoadPassed(ops: Ops, p: nat, o: int, i: nat, now: int, most: int)
    requires Wide(ops, p, o, i) && o in {LOAD_CONST, MAKE_ARRAY} && i < OPERAND_LIMIT && now <= most
    ensures Deepest(ops, p, now, most) == Deepest(ops, p + 5, now + 1, if now < most then most else now + 1)
  {
    hide Operand, Deepest;
    UpperBytes(ops, p + 1);
    var next, top := now + 1, if now < most then most else now + 1;
    assert StackEffect(ops, p) == (1, 1);
    DeepestNext(ops, p, now, most, 1, 1);
    Unseen(ops, p + 2, next, top);
    Unseen(ops, p + 3, next, top);
    Unseen(ops, p + 4, next, top);
  }

  lemma DeepestNext(ops: Ops, p: nat, now: int, most: int, effect: int, skip: nat)
    requires p < |ops| && StackEffect(ops, p) == (effect, skip)
    ensures Deepest(ops, p, now, most)
            == Deepest(ops, p + skip + 1, now + effect, if now + effect > most then now + effect else most)
  {
    hide StackEffect;
  }

  lemma Unseen(ops: Ops, p: nat, now: int, most: int)
    requires p < |ops| && 0 <= ops[p] < BINARY_FIRST && now <= most
    ensures Deepest(ops, p, now, most) == Deepest(ops, p + 1, now, most)
  {}

  lemma PopPassed(ops: Ops, p: nat, now: int, most: int)
    requires At(ops, p, POP) && now <= most
    ensures Deepest(ops, p, now, most) == Deepest(ops, p + 1, now - 1, most)
  {}

  lemma {:induction false} CountingPassed(k: Tables, ops: Ops, m: nat, i: nat, n: nat, rest: Block, most: int)
    requires Numbered(k, m) && i <= n <= m && n <= OPERAND_LIMIT && 0 <= most <= 1
    requires CodeB(k, ops, 6 * i, Counting(i, n, rest), -1, -1)
    ensures CodeB(k, ops, 6 * n, rest, -1, -1)
    ensures Deepest(ops, 6 * i, 0, most) == Deepest(ops, 6 * n, 0, if i < n then 1 else most)
    decreases n - i
  {
    hide Deepest, CodeB, CodeE, Wide, Numbered;
    if i < n {
      CountStep(k, ops, m, i, n, rest);
      LoadPassed(ops, 6 * i, LOAD_CONST, i, 0, most);
      PopPassed(ops, 6 * i + 5, 1, 1);
      CountingPassed(k, ops, m, i + 1, n, rest, 1);
    }
  }

  // ----- what the machine makes of them -----

  lemma {:induction false} CountingRun(rt: Runtime, code: Code, k: Tables, m: nat, i: nat, n: nat, rest: Block,
                                       w: World)
    requires Describes(k, code) && Numbered(k, m) && i <= n <= m
    requires CodeB(k, code.ops, 6 * i, Counting(i, n, rest), -1, -1)
    ensures Reach(rt, code, F([], 6 * i - 1, [], w), Running(F([], 6 * n - 1, [], w)))
    decreases n - i
  {
    hide CodeB, CodeE, Wide, Numbered;
    if i < n {
      CountStep(k, code.ops, m, i, n, rest);
      var v := Val(Int(i));
      NumberRun(rt, code, k, 6 * i, i, [], w);
      RunPop(rt, code, [], 6 * i + 5, [], v, w);
      CountingRun(rt, code, k, m, i + 1, n, rest, w);
      hide Reach;
      var last := Running(F([], 6 * n - 1, [], w));
      ReachTrans(rt, code, F([], 6 * i + 4, [] + [v], w), F([], 6 * i + 5, [], w), last);
      ReachTrans(rt, code, F([], 6 * i - 1, [], w), F([], 6 * i + 4, [] + [v], w), last);
    } else {
      ReachSelf(rt, code, F([], 6 * i - 1, [], w));
    }
  }

  lemma NumberRun(rt: Runtime, code: Code, k: Tables, p: nat, i: nat, stack: seq<Entry>, w: World)
    requires Describes(k, code) && CodeE(k, code.ops, p, Number(i))
    ensures Reach(rt, code, F([], p - 1, stack, w), Running(F([], p + 4, stack + [Val(Int(i))], w)))
  {
    hide Reach;
    RunConst(rt, code, [], k, p, IntConst(i), stack, w);
  }

  // ----- large operands -----

  /** What the compiler says of the code of b. */
  predicate Compiled(code: Code, b: Block) {
    ProgramCode(Tables(true, code.constants, code.names), code.ops, b)
    && code.constants == InternAll(ConstantsB([], b))
  }

  lemma {:induction false} CountingCompiled(code: Code, n: nat, rest: Block, m: nat)
    requires Compiled(code, Counting(0, n, rest)) && n <= OPERAND_LIMIT && n < m && rest.Then? && !EndsInReturn(rest)
    requires InternAll(ConstantsB(Numbers(n), rest)) == Numbers(m)
    ensures var k := Tables(true, code.constants, code.names);
            Numbered(k, m) && CodeB(k, code.ops, 0, Counting(0, n, rest), -1, -1)
            && At(code.ops, 6 * n + SizeB(rest), PUSH_NIL) && At(code.ops, 6 * n + SizeB(rest) + 1, RETURN)
            && |code.ops| == 6 * n + SizeB(rest) + 2
  {
    hide CodeB, EndsInReturn, ConstantsB, InternAll, WellFormedBlock;
    CountingConstants(0, n, rest);
    CountingEnds(0, n, rest);
    CountingSize(0, n, rest);
    assert Numbers(0) == [];
  }

  lemma {:induction false} CountingSize(i: nat, n: nat, rest: Block)
    requires i <= n
    ensures SizeB(Counting(i, n, rest)) == 6 * (n - i) + SizeB(rest)
    decreases n - i
  {
    if i < n {
      CountingSize(i + 1, n, rest);
    }
  }

  function LoaderEnd(): Block {
    Then(Do(Binary(Add, Number(OPERAND_LIMIT), Number(OPERAND_LIMIT))), End)
  }

  /** 0; ..; 12799; 12800 + 12800; */
  function Loader(): Block {
    Counting(0, OPERAND_LIMIT, LoaderEnd())
  }

  lemma LoaderConstants()
    ensures InternAll(ConstantsB(Numbers(OPERAND_LIMIT), LoaderEnd())) == Numbers(OPERAND_LIMIT + 1)
    ensures LoaderEnd().Then? && !EndsInReturn(LoaderEnd())
  {
    hide InternAll, Numbers;
    var n, c := OPERAND_LIMIT, IntConst(OPERAND_LIMIT);
    NumbersInterned(n);
    InternedNumber(Numbers(n), n, n);
    InternedNumber(Numbers(n) + [c], n + 1, n);
    assert ConstantsE(Numbers(n), Binary(Add, Number(n), Number(n))) == Numbers(n) + [c] + [c];
    assert ConstantsB(Numbers(n), LoaderEnd()) == Numbers(n) + [c] + [c];
  }

  lemma LoaderParts(k: Tables, ops: Ops, p: nat)
    requires Numbered(k, OPERAND_LIMIT + 1) && CodeB(k, ops, p, LoaderEnd(), -1, -1)
    ensures CodeE(k, ops, p, Number(OPERAND_LIMIT)) && CodeE(k, ops, p + 5, Number(OPERAND_LIMIT))
    ensures Wide(ops, p, LOAD_CONST, OPERAND_LIMIT) && Wide(ops, p + 5, LOAD_CONST, OPERAND_LIMIT)
    ensures At(ops, p + 10, 50) && At(ops, p + 11, POP) && SizeB(LoaderEnd()) == 12
  {
    hide Wide;
    var e := Number(OPERAND_LIMIT);
    var sum := Binary(Add, e, e);
    assert SizeE(e) == 5 && SizeE(sum) == 11;
    assert CodeS(k, ops, p, Do(sum), -1, -1);
    assert CodeBinary(k, ops, p, Add, e, e);
    NumberCode(k, ops, OPERAND_LIMIT + 1, p, OPERAND_LIMIT);
    NumberCode(k, ops, OPERAND_LIMIT + 1, p + 5, OPERAND_LIMIT);
  }

  /** The third byte of the operand 12800 looks like an addition. */
  lemma LargePassed(ops: Ops, p: nat, now: int, most: int)
    requires Wide(ops, p, LOAD_CONST, OPERAND_LIMIT) && now < most
    ensures Deepest(ops, p, now, most) == Deepest(ops, p + 5, now, most)
  {
    hide Deepest;
    assert ops[p + 1] == 0 && ops[p + 2] == 50 && ops[p + 3] == 0 && ops[p + 4] == 0;
    DeepestNext(ops, p, now, most, 1, 1);
    DeepestNext(ops, p + 2, now + 1, most, -1, 0);
    Unseen(ops, p + 3, now, most);
    Unseen(ops, p + 4, now, most);
  }

  lemma LoaderPassed(ops: Ops, p: nat)
    requires Wide(ops, p, LOAD_CONST, OPERAND_LIMIT) && Wide(ops, p + 5, LOAD_CONST, OPERAND_LIMIT)
    requires At(ops, p + 10, 50) && At(ops, p + 11, POP) && At(ops, p + 12, PUSH_NIL) && At(ops, p + 13, RETURN)
    requires |ops| == p + 14
    ensures Deepest(ops, p, 0, 1) == 1
  {
    hide Deepest, Wide;
    LargePassed(ops, p, 0, 1);
    LargePassed(ops, p + 5, 0, 1);
    DeepestNext(ops, p + 10, 0, 1, -1, 0);
    PopPassed(ops, p + 11, -1, 1);
    EndPassed(ops, p + 12, -2, 1);
  }

  lemma EndPassed(ops: Ops, p: nat, now: int, most: int)
    requires At(ops, p, PUSH_NIL) && At(ops, p + 1, RETURN) && |ops| == p + 2 && now < most
    ensures Deepest(ops, p, now, most) == most
  {
    assert Deepest(ops, p + 1, now + 1, most) == Deepest(ops, p + 2, now, most) == most;
  }

  lemma LoaderEstimate(code: Code)
    requires Compiled(code, Loader())
    ensures Deepest(code.ops, 0, 0, 0) == 1
  {
    var k, n, p := Tables(true, code.constants, code.names), OPERAND_LIMIT, 6 * OPERAND_LIMIT;
    LoaderConstants();
    hide Compiled, CodeB, Deepest, Counting, LoaderEnd, Numbers, Numbered, Wide, CodeE;
    CountingCompiled(code, n, LoaderEnd(), n + 1);
    CountingPassed(k, code.ops, n + 1, 0, n, LoaderEnd(), 0);
    LoaderParts(k, code.ops, p);
    LoaderPassed(code.ops, p);
  }

  /** Both operands of the last addition wait. */
  function LoaderPeak(w: World): Frame {
    F([], 6 * OPERAND_LIMIT + 9, [Val(Int(OPERAND_LIMIT)), Val(Int(OPERAND_LIMIT))], w)
  }

  lemma LoaderRun(rt: Runtime, code: Code, w: World)
    requires Compiled(code, Loader())
    ensures Reach(rt, code, Start(w), Running(LoaderPeak(w)))
  {
    var k, n, p := Tables(true, code.constants, code.names), OPERAND_LIMIT, 6 * OPERAND_LIMIT;
    LoaderConstants();
    hide Compiled, CodeB, Counting, Reach, LoaderEnd, Numbers, Numbered, Wide, CodeE;
    CountingCompiled(code, n, LoaderEnd(), n + 1);
    CountingPassed(k, code.ops, n + 1, 0, n, LoaderEnd(), 0);
    LoaderParts(k, code.ops, p);
    CountingRun(rt, code, k, n + 1, 0, n, LoaderEnd(), w);
    var v := Val(Int(n));
    NumberRun(rt, code, k, p, n, [], w);
    NumberRun(rt, code, k, p + 5, n, [v], w);
    assert [] + [v] == [v] && [v] + [v] == [v, v];
    ReachTrans(rt, code, F([], p - 1, [], w), F([], p + 4, [v], w), Running(F([], p + 9, [v, v], w)));
    ReachTrans(rt, code, Start(w), F([], p - 1, [], w), Running(F([], p + 9, [v, v], w)));
  }

  /** Such a program can be compiled, as far as its end can. */
  lemma CountingGoes(n: nat, rest: Block, m: nat)
    requires n <= m <= TWO53 && rest.Then? && WellFormedBlock(rest, false, Limits(Ints(Numbers(m)), 0))
    requires 6 * n + SizeB(rest) + 2 < CODE_LIMIT
    ensures var b, lim := Counting(0, n, rest), Limits(Ints(Numbers(m)), 0);
            b.Then? && WellFormedBlock(b, false, lim) && SizeB(b) + 2 < CODE_LIMIT && AsWritten(lim)
  {
    hide WellFormedBlock, SizeB, Counting, ToldApart;
    var lim := Limits(Ints(Numbers(m)), 0);
    forall k: nat | k < n ensures k in lim.ints {
      assert Numbers(m)[k] == IntConst(k);
    }
    CountingFits(0, n, rest, lim);
    CountingEnds(0, n, rest);
    SmallToldApart(lim.ints);
  }

  lemma NumberFits(m: nat, i: nat)
    requires i < m
    ensures Fits(Number(i), Limits(Ints(Numbers(m)), 0)) && SizeE(Number(i)) == 5
  {
    assert Numbers(m)[i] == IntConst(i);
  }

  lemma LoaderGoes()
    ensures var lim := Limits(Ints(Numbers(OPERAND_LIMIT + 1)), 0);
            Loader().Then? && WellFormedBlock(Loader(), false, lim) && SizeB(Loader()) + 2 < CODE_LIMIT
              && AsWritten(lim)
  {
    var lim := Limits(Ints(Numbers(OPERAND_LIMIT + 1)), 0);
    var e := Number(OPERAND_LIMIT);
    var sum := Binary(Add, e, e);
    NumberFits(OPERAND_LIMIT + 1, OPERAND_LIMIT);
    assert SizeE(sum) == 11 && Fits(sum, lim);
    assert SizeS(Do(sum)) == 12 && SizeB(LoaderEnd()) == 12 && WellFormed(Do(sum), false, lim);
    assert WellFormedBlock(LoaderEnd(), false, lim);
    hide LoaderEnd, WellFormedBlock, SizeB, AsWritten, Counting, Numbers;
    CountingGoes(OPERAND_LIMIT, LoaderEnd(), OPERAND_LIMIT + 1);
  }

  /** Compiled and run: the analyzer says one, and every run has two operands on the stack. */
  method LargeOperandsNeedMore() returns (code: Code, stackSize: nat)
    ensures Compiled(code, Loader()) && stackSize == 1
    ensures forall rt, w :: Reach(rt, code, Start(w), Running(LoaderPeak(w)))
  {
    hide Loader, WellFormedBlock, ProgramCode, Deepest, Reach, SizeB, AsWritten, LoaderPeak;
    LoaderGoes();
    ghost var lim := Limits(Ints(Numbers(OPERAND_LIMIT + 1)), 0);
    var catchSize;
    code, stackSize, catchSize := CompileProgram(Loader(), lim);
    LoaderEstimate(code);
    forall rt, w ensures Reach(rt, code, Start(w), Running(LoaderPeak(w))) {
      LoaderRun(rt, code, w);
    }
  }

  // ----- loading an element: the byte behind LOAD_INDEX is skipped -----

  /** [0][0] */
  function Element(): Expr {
    Index(ArrayLit(More(Number(0), Nothing)), Number(0))
  }

  function Four(): Exprs {
    var c := Number(JUMP_FALSE);
    More(c, More(c, More(c, More(c, Nothing))))
  }

  function IndexerEnd(): Block {
    Then(Do(ArrayLit(More(Element(), Four()))), End)
  }

  /** 0; ..; 74; [[0][0], 75, 75, 75, 75]; where 75 is the opcode JUMP_FALSE. */
  function Indexer(): Block {
    Counting(0, JUMP_FALSE, IndexerEnd())
  }

  lemma FourConstants(cs: seq<Constant>)
    ensures var c := IntConst(JUMP_FALSE); ConstantsAll(cs, Four()) == cs + [c] + [c] + [c] + [c]
  {
    var e, c := Number(JUMP_FALSE), IntConst(JUMP_FALSE);
    var e1 := More(e, Nothing);
    var e2 := More(e, e1);
    var e3 := More(e, e2);
    assert ConstantsAll(cs + [c] + [c] + [c], e1) == cs + [c] + [c] + [c] + [c];
    assert ConstantsAll(cs + [c] + [c], e2) == ConstantsAll(cs + [c] + [c] + [c], e1);
    assert ConstantsAll(cs + [c], e3) == ConstantsAll(cs + [c] + [c], e2);
  }

  lemma IndexerConstants()
    ensures InternAll(ConstantsB(Numbers(JUMP_FALSE), IndexerEnd())) == Numbers(JUMP_FALSE + 1)
    ensures IndexerEnd().Then? && !EndsInReturn(IndexerEnd())
  {
    hide InternAll, Numbers, Four;
    var n, zero, c := JUMP_FALSE, IntConst(0), IntConst(JUMP_FALSE);
    var cs := Numbers(n) + [zero] + [zero];
    NumbersInterned(n);
    InternedNumber(Numbers(n), n, 0);
    InternedNumber(Numbers(n) + [zero], n, 0);
    InternedNumber(cs, n, n);
    InternedNumber(cs + [c], n + 1, n);
    InternedNumber(cs + [c] + [c], n + 1, n);
    InternedNumber(cs + [c] + [c] + [c], n + 1, n);
    FourConstants(cs);
    assert ConstantsE(Numbers(n), Element()) == cs;
    assert ConstantsAll(Numbers(n), More(Element(), Four())) == ConstantsAll(cs, Four());
  }

  /** The bytes of [0][0]. */
  lemma ElementParts(k: Tables, ops: Ops, p: nat)
    requires Numbered(k, JUMP_FALSE + 1) && CodeE(k, ops, p, Element())
    ensures Wide(ops, p, LOAD_CONST, 0) && Wide(ops, p + 5, MAKE_ARRAY, 1) && Wide(ops, p + 10, LOAD_CONST, 0)
    ensures At(ops, p + 15, LOAD_INDEX) && SizeE(Element()) == 16
  {
    hide Wide;
    var zero := Number(0);
    var one := More(zero, Nothing);
    assert SizeE(zero) == 5 && SizeAll(one) == 5 && SizeE(ArrayLit(one)) == 10;
    assert CodeIndex(k, ops, p, ArrayLit(one), zero);
    assert CodeE(k, ops, p, ArrayLit(one));
    assert CodeArray(k, ops, p, one) && Count(one) == 1;
    NumberCode(k, ops, JUMP_FALSE + 1, p, 0);
    NumberCode(k, ops, JUMP_FALSE + 1, p + 10, 0);
  }

  /** The bytes of the four numbers. */
  lemma FourParts(k: Tables, ops: Ops, p: nat)
    requires Numbered(k, JUMP_FALSE + 1) && CodeAll(k, ops, p, Four())
    ensures forall i :: 0 <= i < 4 ==>
              CodeE(k, ops, p + 5 * i, Number(JUMP_FALSE)) && Wide(ops, p + 5 * i, LOAD_CONST, JUMP_FALSE)
    ensures SizeAll(Four()) == 20 && Count(Four()) == 4
  {
    hide Wide, CodeE;
    var c := Number(JUMP_FALSE);
    var e1 := More(c, Nothing);
    var e2 := More(c, e1);
    var e3 := More(c, e2);
    assert SizeE(c) == 5;
    assert SizeAll(e1) == 5 && SizeAll(e2) == 10 && SizeAll(e3) == 15;
    assert Count(e1) == 1 && Count(e2) == 2 && Count(e3) == 3;
    assert CodeAll(k, ops, p + 5, e3);
    assert CodeAll(k, ops, p + 10, e2);
    assert CodeAll(k, ops, p + 15, e1);
    NumberCode(k, ops, JUMP_FALSE + 1, p, JUMP_FALSE);
    NumberCode(k, ops, JUMP_FALSE + 1, p + 5, JUMP_FALSE);
    NumberCode(k, ops, JUMP_FALSE + 1, p + 10, JUMP_FALSE);
    NumberCode(k, ops, JUMP_FALSE + 1, p + 15, JUMP_FALSE);
  }

  lemma IndexerParts(k: Tables, ops: Ops, p: nat)
    requires Numbered(k, JUMP_FALSE + 1) && CodeB(k, ops, p, IndexerEnd(), -1, -1)
    ensures CodeE(k, ops, p, Element()) && CodeAll(k, ops, p + 16, Four())
    ensures Wide(ops, p + 36, MAKE_ARRAY, 5) && At(ops, p + 41, POP) && SizeB(IndexerEnd()) == 42
  {
    var items := More(Element(), Four());
    IndexerSizes();
    hide Four, Element, Wide, Numbers;
    assert SizeAll(items) == 36 && Count(items) == 5;
    assert SizeE(ArrayLit(items)) == 41 && SizeS(Do(ArrayLit(items))) == 42;
    assert CodeS(k, ops, p, Do(ArrayLit(items)), -1, -1);
    assert CodeE(k, ops, p, ArrayLit(items));
    assert CodeArray(k, ops, p, items);
    assert CodeAll(k, ops, p, items);
  }

  lemma IndexerSizes()
    ensures SizeE(Element()) == 16 && SizeAll(Four()) == 20 && Count(Four()) == 4
  {
    var zero, c := Number(0), Number(JUMP_FALSE);
    var e1 := More(c, Nothing);
    var e2 := More(c, e1);
    var e3 := More(c, e2);
    assert SizeE(c) == 5 && SizeE(zero) == 5;
    assert SizeAll(e1) == 5 && SizeAll(e2) == 10 && SizeAll(e3) == 15;
    assert Count(e1) == 1 && Count(e2) == 2 && Count(e3) == 3;
    assert SizeAll(More(zero, Nothing)) == 5 && SizeE(ArrayLit(More(zero, Nothing))) == 10;
  }

  /** An operand that looks like JUMP_FALSE, and four bytes that are skipped for its sake. */
  lemma LikeJump(ops: Ops, p: nat, now: int, most: int)
    requires At(ops, p, JUMP_FALSE) && now <= most
    ensures Deepest(ops, p, now, most) == Deepest(ops, p + 5, now - 1, most)
  {}

  lemma IndexerPassed(k: Tables, ops: Ops, p: nat)
    requires Numbered(k, JUMP_FALSE + 1) && CodeE(k, ops, p, Element()) && CodeAll(k, ops, p + 16, Four())
    requires Wide(ops, p + 36, MAKE_ARRAY, 5) && At(ops, p + 41, POP)
    requires At(ops, p + 42, PUSH_NIL) && At(ops, p + 43, RETURN) && |ops| == p + 44
    ensures Deepest(ops, p, 0, 1) == 4
  {
    ElementParts(k, ops, p);
    FourParts(k, ops, p + 16);
    hide Element, Four, Numbers, Deepest, CodeE, CodeAll;
    LoadPassed(ops, p, LOAD_CONST, 0, 0, 1);
    LoadPassed(ops, p + 5, MAKE_ARRAY, 1, 1, 1);
    LoadPassed(ops, p + 10, LOAD_CONST, 0, 2, 2);
    DeepestNext(ops, p + 15, 3, 3, 1, 1);
    FourPassed(ops, p + 16);
  }

  lemma FourPassed(ops: Ops, p: nat)
    requires forall i :: 0 <= i < 4 ==> Wide(ops, p + 5 * i, LOAD_CONST, JUMP_FALSE)
    requires Wide(ops, p + 20, MAKE_ARRAY, 5) && At(ops, p + 25, POP)
    requires At(ops, p + 26, PUSH_NIL) && At(ops, p + 27, RETURN) && |ops| == p + 28
    ensures Deepest(ops, p + 1, 4, 4) == 4
  {
    hide Deepest;
    assert Wide(ops, p + 5 * 0, LOAD_CONST, JUMP_FALSE) && Wide(ops, p + 5 * 1, LOAD_CONST, JUMP_FALSE)
           && Wide(ops, p + 5 * 2, LOAD_CONST, JUMP_FALSE) && Wide(ops, p + 5 * 3, LOAD_CONST, JUMP_FALSE);
    LikeJump(ops, p + 1, 4, 4);
    LikeJump(ops, p + 6, 3, 4);
    LikeJump(ops, p + 11, 2, 4);
    LikeJump(ops, p + 16, 1, 4);
    Unseen(ops, p + 21, 0, 4);
    Unseen(ops, p + 22, 0, 4);
    Unseen(ops, p + 23, 0, 4);
    Unseen(ops, p + 24, 0, 4);
    PopPassed(ops, p + 25, 0, 4);
    EndPassed(ops, p + 26, -1, 4);
  }

  lemma IndexerEstimate(code: Code)
    requires Compiled(code, Indexer())
    ensures Deepest(code.ops, 0, 0, 0) == 4
  {
    var k, n, p := Tables(true, code.constants, code.names), JUMP_FALSE, 6 * JUMP_FALSE;
    IndexerConstants();
    hide Compiled, CodeB, Deepest, Counting, IndexerEnd, Numbers, Numbered, Wide, CodeE, CodeAll;
    CountingCompiled(code, n, IndexerEnd(), n + 1);
    CountingPassed(k, code.ops, n + 1, 0, n, IndexerEnd(), 0);
    IndexerParts(k, code.ops, p);
    IndexerPassed(k, code.ops, p);
  }

  /** The element is loaded from a new array, and the four numbers wait above it. */
  function IndexerPeak(w: World): Frame {
    var c := Val(Int(JUMP_FALSE));
    F([], 6 * JUMP_FALSE + 35, [Val(Int(0)), c, c, c, c], w.(arrays := w.arrays + [[Int(0)]]))
  }

  lemma ElementIs(rt: Runtime, w: World)
    ensures EvalExpr(rt, Element(), w) == Ok(Int(0), w.(arrays := w.arrays + [[Int(0)]]))
  {
    var zero, w1 := Number(0), w.(arrays := w.arrays + [[Int(0)]]);
    var one := More(zero, Nothing);
    assert EvalExpr(rt, zero, w) == Ok(Int(0), w) && EvalExpr(rt, zero, w1) == Ok(Int(0), w1);
    assert EvalAll(rt, Nothing, w) == Oks([], w);
    assert EvalAll(rt, one, w) == Oks([Int(0)], w);
    assert EvalArray(rt, one, w) == Ok(Array(|w.arrays|), w1);
    assert EvalExpr(rt, ArrayLit(one), w) == Ok(Array(|w.arrays|), w1);
    assert EvalIndex(rt, ArrayLit(one), zero, w) == Ok(Int(0), w1);
  }

  lemma ElementRuns(rt: Runtime, code: Code, k: Tables, p: nat, w: World)
    requires Describes(k, code) && CodeE(k, code.ops, p, Element())
    ensures Reach(rt, code, F([], p - 1, [], w), Running(F([], p + 15, [Val(Int(0))], IndexerPeak(w).w)))
  {
    IndexerSizes();
    ElementIs(rt, w);
    hide Element, CodeE, EvalExpr, Reach;
    ExprRuns(rt, code, [], k, p, Element(), [], w);
    assert [] + [Val(Int(0))] == [Val(Int(0))];
  }

  lemma FourRun(rt: Runtime, code: Code, k: Tables, p: nat, x: Entry, w: World)
    requires Describes(k, code) && forall i :: 0 <= i < 4 ==> CodeE(k, code.ops, p + 5 * i, Number(JUMP_FALSE))
    ensures var c := Val(Int(JUMP_FALSE));
            Reach(rt, code, F([], p - 1, [x], w), Running(F([], p + 19, [x, c, c, c, c], w)))
  {
    hide CodeE, Reach;
    var c, n := Val(Int(JUMP_FALSE)), JUMP_FALSE;
    assert CodeE(k, code.ops, p + 5 * 0, Number(n)) && CodeE(k, code.ops, p + 5 * 1, Number(n))
           && CodeE(k, code.ops, p + 5 * 2, Number(n)) && CodeE(k, code.ops, p + 5 * 3, Number(n));
    NumberRun(rt, code, k, p, n, [x], w);
    NumberRun(rt, code, k, p + 5, n, [x, c], w);
    NumberRun(rt, code, k, p + 10, n, [x, c, c], w);
    NumberRun(rt, code, k, p + 15, n, [x, c, c, c], w);
    assert [x] + [c] == [x, c] && [x, c] + [c] == [x, c, c] && [x, c, c] + [c] == [x, c, c, c]
           && [x, c, c, c] + [c] == [x, c, c, c, c];
    var last := Running(F([], p + 19, [x, c, c, c, c], w));
    ReachTrans(rt, code, F([], p + 9, [x, c, c], w), F([], p + 14, [x, c, c, c], w), last);
    ReachTrans(rt, code, F([], p + 4, [x, c], w), F([], p + 9, [x, c, c], w), last);
    ReachTrans(rt, code, F([], p - 1, [x], w), F([], p + 4, [x, c], w), last);
  }

  lemma IndexerRun(rt: Runtime, code: Code, w: World)
    requires Compiled(code, Indexer())
    ensures Reach(rt, code, Start(w), Running(IndexerPeak(w)))
  {
    var k, n, p := Tables(true, code.constants, code.names), JUMP_FALSE, 6 * JUMP_FALSE;
    IndexerConstants();
    hide Compiled, CodeB, Counting, Reach, IndexerEnd, Numbers, Numbered, Wide, CodeE, CodeAll, Element, Four;
    CountingCompiled(code, n, IndexerEnd(), n + 1);
    CountingPassed(k, code.ops, n + 1, 0, n, IndexerEnd(), 0);
    IndexerParts(k, code.ops, p);
    FourParts(k, code.ops, p + 16);
    CountingRun(rt, code, k, n + 1, 0, n, IndexerEnd(), w);
    ElementRuns(rt, code, k, p, w);
    FourRun(rt, code, k, p + 16, Val(Int(0)), IndexerPeak(w).w);
    var f, g := F([], p - 1, [], w), F([], p + 15, [Val(Int(0))], IndexerPeak(w).w);
    ReachTrans(rt, code, f, g, Running(IndexerPeak(w)));
    ReachTrans(rt, code, Start(w), f, Running(IndexerPeak(w)));
  }

  lemma IndexerFits(lim: Limits)
    requires lim == Limits(Ints(Numbers(JUMP_FALSE + 1)), 0)
    ensures WellFormedBlock(IndexerEnd(), false, lim)
  {
    NumberFits(JUMP_FALSE + 1, JUMP_FALSE);
    NumberFits(JUMP_FALSE + 1, 0);
    hide Numbers;
    var zero, c := Number(0), Number(JUMP_FALSE);
    var e1 := More(c, Nothing);
    var e2 := More(c, e1);
    var e3 := More(c, e2);
    assert AllFit(e1, lim);
    assert AllFit(e2, lim);
    assert AllFit(e3, lim);
    assert AllFit(Four(), lim);
    assert AllFit(More(zero, Nothing), lim);
    assert Fits(ArrayLit(More(zero, Nothing)), lim);
    assert Fits(Element(), lim);
    hide Element, Four;
    assert AllFit(More(Element(), Four()), lim);
  }

  lemma IndexerGoes()
    ensures var lim := Limits(Ints(Numbers(JUMP_FALSE + 1)), 0);
            Indexer().Then? && WellFormedBlock(Indexer(), false, lim) && SizeB(Indexer()) + 2 < CODE_LIMIT
            && AsWritten(lim)
  {
    var lim := Limits(Ints(Numbers(JUMP_FALSE + 1)), 0);
    IndexerFits(lim);
    IndexerSize();
    IndexerConstants();
    hide IndexerEnd, WellFormedBlock, SizeB, AsWritten, Counting, Numbers;
    CountingGoes(JUMP_FALSE, IndexerEnd(), JUMP_FALSE + 1);
  }

  lemma IndexerSize()
    ensures SizeB(IndexerEnd()) == 42
  {
    IndexerSizes();
    hide Element, Four;
    var items := More(Element(), Four());
    assert SizeAll(items) == 36 && SizeE(ArrayLit(items)) == 41 && SizeS(Do(ArrayLit(items))) == 42;
  }

  /** Compiled and run: the analyzer says four, and every run has five operands on the stack. */
  method IndexNeedsMore() returns (code: Code, stackSize: nat)
    ensures Compiled(code, Indexer()) && stackSize == 4
    ensures forall rt, w :: Reach(rt, code, Start(w), Running(IndexerPeak(w)))
  {
    hide Indexer, WellFormedBlock, ProgramCode, Deepest, Reach, SizeB, AsWritten, IndexerPeak;
    IndexerGoes();
    ghost var lim := Limits(Ints(Numbers(JUMP_FALSE + 1)), 0);
    var catchSize;
    code, stackSize, catchSize := CompileProgram(Indexer(), lim);
    IndexerEstimate(code);
    forall rt, w ensures Reach(rt, code, Start(w), Running(IndexerPeak(w))) {
      IndexerRun(rt, code, w);
    }
  }
}

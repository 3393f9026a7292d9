/** Programs for which the analyzer says too little, or nothing would be enough. */
module LankyEstimates {
  import opened Sequences
  import opened LankySyntax
  import opened LankySemantics
  import opened LankyMachine
  import opened LankyLayout
  import opened LankyRuns
  import opened LankyStatements
  import opened LankyExceptions
  import opened LankyExpressions
  import opened LankyDepth
  import opened LankyStack
  import opened LankyInterpreter
  import opened BytecodeAnalyzer

  // ----- break: the POP behind the jump is counted -----

  /** while true { break } and then nil + nil. */
  function Leaver(): Block {
    Then(Loop(None, BoolLit(true), None, Then(Break, End)), Then(Do(Binary(Add, NilLit, NilLit)), End))
  }

  const LEAVER := [PUSH_BOOL, 1, JUMP_FALSE, 19, 0, 0, 0, JUMP, 19, 0, 0, 0, POP, IGNORE, JUMP, 0, 0, 0, 0, IGNORE,
                   PUSH_NIL, PUSH_NIL, 50, POP, PUSH_NIL, RETURN]

  lemma LeaverLoop()
    ensures var body := Then(Break, End);
            CodeRounds(Tables(true, [], []), LEAVER, 0, BoolLit(true), None, body) && SizeB(body) == 6
  {
    var k, ops := Tables(true, [], []), LEAVER;
    var body := Then(Break, End);
    assert Wide(ops, 2, JUMP_FALSE, 19) && Wide(ops, 7, JUMP, 19) && Wide(ops, 14, JUMP, 0);
    assert CodeS(k, ops, 7, Break, 19, 13);
    assert CodeB(k, ops, 13, End, 19, 13);
    assert CodeB(k, ops, 7, body, 19, 13);
    assert CodeRoundsAt(k, ops, 0, 2, 13, 14, None, body);
  }

  lemma LeaverSum()
    ensures var sum := Binary(Add, NilLit, NilLit);
            CodeB(Tables(true, [], []), LEAVER, 20, Then(Do(sum), End), -1, -1) && SizeE(sum) == 3
  {
    var k, ops, sum := Tables(true, [], []), LEAVER, Binary(Add, NilLit, NilLit);
    assert CodeBinary(k, ops, 20, Add, NilLit, NilLit);
    assert CodeE(k, ops, 20, sum);
    assert CodeS(k, ops, 20, Do(sum), -1, -1);
  }

  lemma LeaverCode()
    ensures ProgramCode(Tables(true, [], []), LEAVER, Leaver())
  {
    hide CodeRounds, CodeE;
    LeaverLoop();
    LeaverSum();
  }

  lemma LeaverEnd()
    ensures Deepest(LEAVER, 16, -1, 1) == 1
  {
    var c := LEAVER;
    assert Deepest(c, 23, 0, 1) == Deepest(c, 24, -1, 1) == Deepest(c, 25, 0, 1) == Deepest(c, 26, -1, 1) == 1;
    assert Deepest(c, 20, -1, 1) == Deepest(c, 21, 0, 1) == Deepest(c, 22, 1, 1) == Deepest(c, 23, 0, 1);
    assert Deepest(c, 16, -1, 1) == Deepest(c, 17, -1, 1) == Deepest(c, 18, -1, 1) == Deepest(c, 19, -1, 1)
           == Deepest(c, 20, -1, 1);
  }

  lemma LeaverMiddle()
    ensures Deepest(LEAVER, 7, 0, 1) == 1
  {
    var c := LEAVER;
    LeaverEnd();
    assert Deepest(c, 12, 0, 1) == Deepest(c, 13, -1, 1) == Deepest(c, 14, -1, 1) == Deepest(c, 16, -1, 1);
    assert Deepest(c, 7, 0, 1) == Deepest(c, 9, 0, 1) == Deepest(c, 10, 0, 1) == Deepest(c, 11, 0, 1)
           == Deepest(c, 12, 0, 1);
  }

  lemma LeaverEstimate()
    ensures Deepest(LEAVER, 0, 0, 0) == 1
  {
    LeaverMiddle();
    assert Deepest(LEAVER, 0, 0, 0) == Deepest(LEAVER, 2, 1, 1) == Deepest(LEAVER, 7, 0, 1);
  }

  function LeaverFrame(pc: int, stack: seq<Entry>, w: World): Status {
    Running(Frame(pc, stack, w, None, None, []))
  }

  lemma LeaverPushes(rt: Runtime, w: World, pc: int, stack: seq<Entry>)
    requires (pc == 19 && stack == []) || (pc == 20 && stack == [Val(Nil)])
    ensures Step(rt, Code(LEAVER, [], []), LeaverFrame(pc, stack, w).f)
            == LeaverFrame(pc + 1, stack + [Val(Nil)], w)
  {}

  /** How many turns the loop takes. */
  function LoopTurns(rt: Runtime): nat {
    if rt.truthy(Yes) then 3 else 2
  }

  lemma LeaverTests(rt: Runtime, w: World)
    ensures var code := Code(LEAVER, [], []);
            Step(rt, code, Start(w)) == LeaverFrame(1, [Val(Yes)], w)
            && Step(rt, code, LeaverFrame(1, [Val(Yes)], w).f) == LeaverFrame(if rt.truthy(Yes) then 6 else 19, [], w)
  {
    assert Operand(LEAVER, 3) == 19;
  }

  lemma LeaverLeaves(rt: Runtime, w: World)
    ensures Step(rt, Code(LEAVER, [], []), LeaverFrame(6, [], w).f) == LeaverFrame(19, [], w)
  {
    assert Operand(LEAVER, 8) == 19;
  }

  lemma LeaverBegins(rt: Runtime, w: World)
    ensures var code, n := Code(LEAVER, [], []), LoopTurns(rt);
            Run(rt, code, Running(Start(w)), n) == LeaverFrame(19, [], w)
            && forall k: nat :: k <= n ==> Room(Run(rt, code, Running(Start(w)), k), 1, 0)
  {
    hide Step;
    LeaverTests(rt, w);
    LeaverLeaves(rt, w);
    var code, s0 := Code(LEAVER, [], []), Running(Start(w));
    var s1, s2 := LeaverFrame(1, [Val(Yes)], w), LeaverFrame(6, [], w);
    assert Run(rt, code, s0, 1) == Run(rt, code, s1, 0) == s1;
    if rt.truthy(Yes) {
      assert Run(rt, code, s0, 2) == Run(rt, code, s1, 1) == Run(rt, code, s2, 0) == s2;
      assert Run(rt, code, s0, 3) == Run(rt, code, s1, 2) == Run(rt, code, s2, 1) == LeaverFrame(19, [], w);
    } else {
      assert Run(rt, code, s0, 2) == Run(rt, code, s1, 1) == LeaverFrame(19, [], w);
    }
  }

  lemma LeaverEnds(rt: Runtime, w: World)
    ensures var code, n := Code(LEAVER, [], []), LoopTurns(rt);
            Run(rt, code, Running(Start(w)), n + 1) == LeaverFrame(20, [Val(Nil)], w)
            && Run(rt, code, Running(Start(w)), n + 2) == LeaverFrame(21, [Val(Nil), Val(Nil)], w)
  {
    hide Step;
    LeaverBegins(rt, w);
    LeaverPushes(rt, w, 19, []);
    LeaverPushes(rt, w, 20, [Val(Nil)]);
    var n, code := LoopTurns(rt), Code(LEAVER, [], []);
    var s, t, u := LeaverFrame(19, [], w), LeaverFrame(20, [Val(Nil)], w), LeaverFrame(21, [Val(Nil), Val(Nil)], w);
    assert [] + [Val(Nil)] == [Val(Nil)] && [Val(Nil)] + [Val(Nil)] == [Val(Nil), Val(Nil)];
    RunMore(rt, code, Running(Start(w)), n, 1);
    RunMore(rt, code, Running(Start(w)), n, 2);
    assert Run(rt, code, t, 0) == t && Run(rt, code, u, 0) == u;
    assert Run(rt, code, s, 1) == t && Run(rt, code, t, 1) == u;
    assert Run(rt, code, s, 2) == u;
  }

  /** The POP behind a break is counted though it is never reached: here the analyzer says
      one, and every run has two operands on the stack. */
  lemma BreakNeedsMore(rt: Runtime, w: World)
    ensures ProgramCode(Tables(true, [], []), LEAVER, Leaver()) && Deepest(LEAVER, 0, 0, 0) == 1
    ensures Run(rt, Code(LEAVER, [], []), Running(Start(w)), LoopTurns(rt) + 2)
            == LeaverFrame(21, [Val(Nil), Val(Nil)], w)
  {
    hide ProgramCode, Deepest;
    LeaverCode();
    LeaverEstimate();
    LeaverEnds(rt, w);
  }

  /** On a stack of the size that the analyzer says, the second operand of the sum goes one
      place beyond it. */
  method LeaverOverruns(rt: Runtime, w: World) returns (frame: StackFrame, end: Pushed, done: nat)
    ensures frame.dataStack.Length == Deepest(LEAVER, 0, 0, 0) && frame.rt == rt && frame.code == Code(LEAVER, [], [])
    ensures end.Beyond? && frame.stackPointer == frame.dataStack.Length
    ensures Run(rt, Code(LEAVER, [], []), Running(Start(w)), done) == LeaverFrame(20, [Val(Nil)], w)
  {
    hide Run, Step, ProgramCode, Deepest;
    BreakNeedsMore(rt, w);
    LeaverBegins(rt, w);
    LeaverEnds(rt, w);
    var code, n := Code(LEAVER, [], []), LoopTurns(rt);
    frame := new StackFrame(rt, code, 1, 0, w);
    end, done := frame.MachEval(n + 2);
    assert !Room(Run(rt, code, Running(Start(w)), n + 2), 1, 0);
    assert done == n + 1;
  }

  // ----- try: what an error leaves is never taken off -----

  /** while true { try { nil + y } catch e { } }, with y undeclared. */
  function Hoarder(): Block {
    Then(Loop(None, BoolLit(true), None, Guarded()), End)
  }

  /** An operand below 256. */
  lemma SmallOperand(ops: Ops, p: nat, o: int, n: nat)
    requires n < 256 && p + 4 < |ops| && ops[p] == o && ops[p + 1] == n
    requires ops[p + 2] == 0 && ops[p + 3] == 0 && ops[p + 4] == 0
    ensures Wide(ops, p, o, n)
  {}

  function HoarderOps(): Ops {
    HoarderFront() + HoarderBack()
  }

  function HoarderFront(): Ops {
    [PUSH_BOOL, 1, JUMP_FALSE, 40, 0, 0, 0, PUSH_CATCH, 26, 0, 0, 0]
  }

  function HoarderBack(): Ops {
    [PUSH_NIL, LOAD_CLOSE, 0, 0, 0, 0, 50, POP, POP_CATCH, JUMP, 33, 0, 0, 0,
     IGNORE, SAVE_CLOSE, 1, 0, 0, 0, POP, IGNORE, IGNORE, JUMP, 0, 0, 0, 0, IGNORE, PUSH_NIL, RETURN]
  }

  lemma HoarderHead()
    ensures At(HoarderOps(), 0, PUSH_BOOL) && At(HoarderOps(), 1, 1) && Wide(HoarderOps(), 2, JUMP_FALSE, 40)
  {
    var ops := HoarderOps();
    hide Wide;
    SmallOperand(ops, 2, JUMP_FALSE, 40);
  }

  lemma HoarderCatch()
    ensures Wide(HoarderOps(), 7, PUSH_CATCH, 26)
  {
    hide Wide;
    SmallOperand(HoarderOps(), 7, PUSH_CATCH, 26);
  }

  lemma HoarderMiddle()
    ensures var ops := HoarderOps();
            At(ops, 12, PUSH_NIL) && Wide(ops, 13, LOAD_CLOSE, 0) && At(ops, 18, 50)
  {
    var ops := HoarderOps();
    hide Wide;
    SmallOperand(ops, 13, LOAD_CLOSE, 0);
  }

  lemma HoarderBytes()
    ensures var ops := HoarderOps();
            |ops| == 43 && At(ops, 0, PUSH_BOOL) && At(ops, 1, 1) && At(ops, 12, PUSH_NIL) && At(ops, 18, 50)
            && At(ops, 19, POP) && At(ops, 20, POP_CATCH)
    ensures var ops := HoarderOps();
            Wide(ops, 2, JUMP_FALSE, 40) && Wide(ops, 7, PUSH_CATCH, 26) && Wide(ops, 13, LOAD_CLOSE, 0)
            && Wide(ops, 21, JUMP, 33)
  {
    var ops := HoarderOps();
    hide Wide;
    HoarderHead();
    HoarderCatch();
    HoarderMiddle();
    SmallOperand(ops, 21, JUMP, 33);
  }

  lemma HoarderTail()
    ensures var ops := HoarderOps();
            At(ops, 26, IGNORE) && At(ops, 32, POP) && At(ops, 33, IGNORE) && At(ops, 34, IGNORE)
            && At(ops, 40, IGNORE) && At(ops, 41, PUSH_NIL) && At(ops, 42, RETURN)
    ensures Wide(HoarderOps(), 27, SAVE_CLOSE, 1) && Wide(HoarderOps(), 35, JUMP, 0)
  {
    var ops := HoarderOps();
    hide Wide;
    SmallOperand(ops, 27, SAVE_CLOSE, 1);
    SmallOperand(ops, 35, JUMP, 0);
  }

  function HoarderTables(): Tables {
    Tables(true, [], ["y", "e"])
  }

  lemma FailingCode()
    ensures CodeB(HoarderTables(), HoarderOps(), 12, Failing(), 40, 34) && SizeB(Failing()) == 8
  {
    HoarderBytes();
    hide HoarderOps;
    var k, ops, y := HoarderTables(), HoarderOps(), Var("y");
    var sum := Binary(Add, NilLit, y);
    assert NameAt(k, ops, 13, LOAD_CLOSE, "y");
    hide Wide, NameAt;
    assert CodeE(k, ops, 12, NilLit) && SizeE(NilLit) == 1 && CodeE(k, ops, 13, y) && SizeE(y) == 5;
    assert CodeBinary(k, ops, 12, Add, NilLit, y);
    assert CodeE(k, ops, 12, sum) && SizeE(sum) == 7;
    assert CodeS(k, ops, 12, Do(sum), 40, 34);
  }

  lemma GuardedAt()
    ensures CodeTryAt(HoarderTables(), HoarderOps(), 7, 20, 26, 33, "e")
  {
    HoarderBytes();
    HoarderTail();
    hide HoarderOps;
    assert NameAt(HoarderTables(), HoarderOps(), 27, SAVE_CLOSE, "e");
  }

  lemma GuardedCode()
    ensures CodeB(HoarderTables(), HoarderOps(), 7, Guarded(), 40, 34) && SizeB(Guarded()) == 27
  {
    FailingCode();
    GuardedAt();
    hide Failing, CodeTryAt, HoarderOps;
    var k, ops, s := HoarderTables(), HoarderOps(), Try(Failing(), "e", End);
    assert CodeB(k, ops, 33, End, 40, 34) && SizeB(End) == 0;
    assert CodeTry(k, ops, 7, Failing(), "e", End, 40, 34);
    assert CodeS(k, ops, 7, s, 40, 34) && SizeS(s) == 27;
    assert CodeB(k, ops, 34, End, 40, 34);
  }

  lemma HoarderRounds()
    ensures CodeRounds(HoarderTables(), HoarderOps(), 0, BoolLit(true), None, Guarded())
  {
    HoarderBytes();
    HoarderTail();
    GuardedCode();
    hide Guarded, CodeB, HoarderOps, Wide;
    var k, ops := HoarderTables(), HoarderOps();
    assert CodeE(k, ops, 0, BoolLit(true)) && SizeE(BoolLit(true)) == 2 && SizeMaybe(None) == 0;
    assert CodeRoundsAt(k, ops, 0, 2, 34, 35, None, Guarded());
  }

  lemma HoarderCode()
    ensures ProgramCode(HoarderTables(), HoarderOps(), Hoarder())
  {
    HoarderBytes();
    HoarderTail();
    GuardedCode();
    HoarderRounds();
    hide CodeRounds, Guarded, HoarderOps, Wide;
    var k, ops, loop := HoarderTables(), HoarderOps(), Loop(None, BoolLit(true), None, Guarded());
    assert SizeE(BoolLit(true)) == 2 && SizeMaybe(None) == 0;
    assert CodeLoop(k, ops, 0, None, BoolLit(true), None, Guarded());
    assert CodeS(k, ops, 0, loop, -1, -1) && SizeS(loop) == 41;
    assert CodeB(k, ops, 41, End, -1, -1);
    assert CodeB(k, ops, 0, Hoarder(), -1, -1) && SizeB(Hoarder()) == 41;
  }

  function AfterRound(w: World): World {
    SaveVar("e", Exception(Undeclared("y")), w)
  }

  lemma MissingThen(w: World)
    requires Missing(w)
    ensures Missing(AfterRound(w))
  {
    StillMissing("e", Exception(Undeclared("y")), w);
  }

  lemma GuardRuns(rt: Runtime, code: Code, stack: seq<Entry>, w: World)
    requires At(code.ops, 0, PUSH_BOOL) && At(code.ops, 1, 1) && Wide(code.ops, 2, JUMP_FALSE, 40) && rt.truthy(Yes)
    ensures Reach(rt, code, F([], -1, stack, w), Running(F([], 6, stack, w)))
  {
    var f, g := F([], -1, stack, w), F([], 1, stack + [Val(Yes)], w);
    ReachStep(rt, code, f);
    assert Step(rt, code, f) == Running(g);
    RunJumpFalse(rt, code, [], 2, 40, stack, Yes, w);
    hide Reach, Step;
    ReachTrans(rt, code, f, g, Running(F([], 6, stack, w)));
  }

  lemma AroundAgain(rt: Runtime, code: Code, stack: seq<Entry>, w: World)
    requires At(code.ops, 33, IGNORE) && At(code.ops, 34, IGNORE) && Wide(code.ops, 35, JUMP, 0)
    ensures Reach(rt, code, F([], 32, stack, w), Running(F([], -1, stack, w)))
  {
    RunMark(rt, code, [], 33, stack, w);
    RunMark(rt, code, [], 34, stack, w);
    RunJump(rt, code, [], 35, 0, stack, w);
    hide Reach, Wide;
    var last := Running(F([], -1, stack, w));
    ReachTrans(rt, code, F([], 33, stack, w), F([], 34, stack, w), last);
    ReachTrans(rt, code, F([], 32, stack, w), F([], 33, stack, w), last);
  }

  /** Every round leaves an operand. */
  lemma RoundHoards(rt: Runtime, stack: seq<Entry>, w: World)
    requires Missing(w) && rt.truthy(Yes)
    ensures Reach(rt, Code(HoarderOps(), [], ["y", "e"]), F([], -1, stack, w),
                  Running(F([], -1, stack + [Val(Nil)], AfterRound(w))))
  {
    var code, k := Code(HoarderOps(), [], ["y", "e"]), HoarderTables();
    var top, w1 := stack + [Val(Nil)], AfterRound(w);
    HoarderBytes();
    HoarderTail();
    FailingCode();
    GuardedAt();
    assert CodeTry(k, HoarderOps(), 7, Failing(), "e", End, 40, 34);
    FailingCaught(rt, code, [], k, 7, "e", End, 40, 34, stack, w);
    hide HoarderOps, Wide, Reach, CodeTry;
    GuardRuns(rt, code, stack, w);
    AroundAgain(rt, code, top, w1);
    var last := Running(F([], -1, top, w1));
    ReachTrans(rt, code, F([], 6, stack, w), F([], 32, top, w1), last);
    ReachTrans(rt, code, F([], -1, stack, w), F([], 6, stack, w), last);
  }

  /** So no size of the stack is enough, while the program itself only goes round and round. */
  lemma {:induction false} TryNeedsMore(rt: Runtime, w: World, n: nat)
    requires Missing(w) && rt.truthy(Yes)
    ensures ProgramCode(HoarderTables(), HoarderOps(), Hoarder())
    ensures exists top, w' :: |top| == n && Missing(w')
                              && Reach(rt, Code(HoarderOps(), [], ["y", "e"]), Start(w), Running(F([], -1, top, w')))
  {
    hide ProgramCode, Reach, AfterRound, HoarderOps;
    HoarderCode();
    var code := Code(HoarderOps(), [], ["y", "e"]);
    if n == 0 {
      ReachSelf(rt, code, Start(w));
      assert Reach(rt, code, Start(w), Running(F([], -1, [], w)));
    } else {
      TryNeedsMore(rt, w, n - 1);
      var top, w' :| |top| == n - 1 && Missing(w') && Reach(rt, code, Start(w), Running(F([], -1, top, w')));
      MissingThen(w');
      RoundHoards(rt, top, w');
      ReachTrans(rt, code, Start(w), F([], -1, top, w'), Running(F([], -1, top + [Val(Nil)], AfterRound(w'))));
      assert |top + [Val(Nil)]| == n;
    }
  }

  lemma {:induction false} HoarderGoesOn(rt: Runtime, w: World, fuel: nat)
    requires Missing(w) && rt.truthy(Yes)
    ensures ExecRounds(rt, BoolLit(true), None, Guarded(), w, fuel) == Timeout
    ensures RunProgram(rt, Hoarder(), w, fuel) == None
    decreases fuel
  {
    if fuel > 0 {
      MissingThen(w);
      HoarderGoesOn(rt, AfterRound(w), fuel - 1);
      FailingThrows(rt, w, fuel);
      hide Failing;
      assert ExecTry(rt, Failing(), "e", End, w, fuel) == Normal(AfterRound(w));
      assert ExecBlock(rt, Guarded(), w, fuel) == Normal(AfterRound(w));
      assert EvalExpr(rt, BoolLit(true), w) == Ok(Yes, w);
      hide Guarded, AfterRound;
      assert ExecNext(rt, BoolLit(true), None, Guarded(), AfterRound(w), fuel) == Timeout;
    }
    hide Guarded, ExecRounds;
    var loop := Loop(None, BoolLit(true), None, Guarded());
    assert ExecLoop(rt, None, BoolLit(true), None, Guarded(), w, fuel) == Timeout;
    assert ExecStmt(rt, loop, w, fuel) == Timeout;
    assert ExecBlock(rt, Hoarder(), w, fuel) == Timeout;
  }
}

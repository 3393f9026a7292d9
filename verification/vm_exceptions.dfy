/** Two programs whose try makes the machine do something else than they mean, so that
    Restores has to shut them out: an iterator is buried under what an error has left, and
    a handler goes on waiting after a break. */
module LankyExceptions {
  import opened Sequences
  import opened LankySyntax
  import opened LankySemantics
  import opened LankyMachine
  import opened LankyLayout
  import opened LankyRuns
  import opened LankyExpressions
  import opened LankyStatements

  // ----- an error with an operand pending -----

  /** nil + y. */
  function Failing(): Block {
    Then(Do(Binary(Add, NilLit, Var("y"))), End)
  }

  /** y is declared nowhere. */
  predicate Missing(w: World) {
    w.parents == [] && "y" !in w.bucket
  }

  lemma StillMissing(name: string, v: Value, w: World)
    requires Missing(w) && |name| == 1 && name[0] != 'y'
    ensures Missing(SaveVar(name, v, w)) && SaveVar(name, v, w) == w.(bucket := w.bucket[name := v])
  {
    assert name[0] != "y"[0];
  }

  lemma FailingThrows(rt: Runtime, w: World, fuel: nat)
    requires Missing(w)
    ensures ExecBlock(rt, Failing(), w, fuel) == Threw(Undeclared("y"), w)
  {
    assert EvalExpr(rt, Var("y"), w) == Raised(Undeclared("y"), w);
    assert EvalExpr(rt, Binary(Add, NilLit, Var("y")), w) == Raised(Undeclared("y"), w);
  }

  lemma FailingParts(k: Tables, ops: Ops, p: nat, brk: int, cont: int)
    requires CodeB(k, ops, p, Failing(), brk, cont)
    ensures SizeB(Failing()) == 8 && At(ops, p, PUSH_NIL) && NameAt(k, ops, p + 1, LOAD_CLOSE, "y")
  {
    var sum := Binary(Add, NilLit, Var("y"));
    assert CodeS(k, ops, p, Do(sum), brk, cont) && SizeS(Do(sum)) == 8;
    assert CodeE(k, ops, p, sum);
    assert CodeBinary(k, ops, p, Add, NilLit, Var("y"));
    assert CodeE(k, ops, p, NilLit) && CodeE(k, ops, p + 1, Var("y")) && SizeE(NilLit) == 1;
  }

  /** The error is noted with the nil on the stack. */
  lemma FailingNotes(rt: Runtime, code: Code, hs: seq<int>, k: Tables, p: nat, stack: seq<Entry>, w: World)
    requires Describes(k, code) && At(code.ops, p, PUSH_NIL) && NameAt(k, code.ops, p + 1, LOAD_CLOSE, "y")
             && Missing(w)
    ensures Reach(rt, code, F(hs, p - 1, stack, w),
                  Running(Noted(hs, p + 5, stack + [Val(Nil)], Undeclared("y"), w)))
  {
    var g := F(hs, p, stack + [Val(Nil)], w);
    var last := Running(Noted(hs, p + 5, stack + [Val(Nil)], Undeclared("y"), w));
    RunPush(rt, code, hs, p, stack, w);
    ReachStep(rt, code, g);
    assert Step(rt, code, g) == last;
    hide Reach, Step;
    ReachTrans(rt, code, F(hs, p - 1, stack, w), g, last);
  }

  /** The error is caught with the nil still there. */
  lemma FailingCaught(rt: Runtime, code: Code, hs: seq<int>, k: Tables, p: nat, name: string, handler: Block,
                      brk: int, cont: int, stack: seq<Entry>, w: World)
    requires Describes(k, code) && CodeTry(k, code.ops, p, Failing(), name, handler, brk, cont) && Missing(w)
    ensures Reach(rt, code, F(hs, p - 1, stack, w),
                  Running(F(hs, p + 25, stack + [Val(Nil)], SaveVar(name, Exception(Undeclared("y")), w))))
  {
    FailingParts(k, code.ops, p + 5, brk, cont);
    hide Failing, CodeTryAt, SaveVar, Reach, At, NameAt, Missing;
    var c, top, err := p + 19, stack + [Val(Nil)], Undeclared("y");
    var out := c + 7 + SizeB(handler);
    var f, g := F(hs + [c], p + 4, stack, w), Noted(hs + [c], p + 10, top, err, w);
    var last := Running(F(hs, c + 6, top, SaveVar(name, Exception(err), w)));
    RunPushCatch(rt, code, hs, k, p, p + 13, c, out, name, stack, w);
    FailingNotes(rt, code, hs + [c], k, p + 5, stack, w);
    CaughtAt(rt, code, hs, k, p, p + 13, c, out, name, p + 10, top, err, w);
    ReachTrans(rt, code, f, g, last);
    ReachTrans(rt, code, F(hs, p - 1, stack, w), f, last);
  }

  // ----- an iterator that is buried -----

  /** try { nil + y } catch e { } */
  function Guarded(): Block {
    Then(Try(Failing(), "e", End), End)
  }

  /** for x, i in [nil, nil] { try { nil + y } catch e { } } */
  function Burying(): Block {
    Then(ForIn("x", Some("i"), TwoNils(), Guarded()), End)
  }

  function AfterItem(i: nat, w: World): World {
    SaveVar("e", Exception(Undeclared("y")), BindItem("x", Some("i"), Nil, i, w))
  }

  lemma ItemMissing(i: nat, w: World)
    requires Missing(w)
    ensures var w1 := BindItem("x", Some("i"), Nil, i, w);
            Missing(w1) && Missing(AfterItem(i, w)) && w1.arrays == AfterItem(i, w).arrays == w.arrays
    ensures "i" in AfterItem(i, w).bucket && AfterItem(i, w).bucket["i"] == Int(i)
  {
    var w1 := SaveVar("x", Nil, w);
    StillMissing("x", Nil, w);
    StillMissing("i", Int(i), w1);
    StillMissing("e", Exception(Undeclared("y")), SaveVar("i", Int(i), w1));
    assert "e"[0] != "i"[0];
  }

  /** The loop at n; its body begins at n + 18. */
  lemma BuryingParts(k: Tables, ops: Ops, n: nat)
    requires k.resolved && CodeItems(k, ops, n, "x", Some("i"), Guarded())
    ensures SizeB(Guarded()) == 27 && CodeTry(k, ops, n + 18, Failing(), "e", End, n + 51, n + 45)
    ensures CodeItem(k, ops, n + 5, "x", Some("i")) && Wide(ops, n, NEXT_ITER_OR_JUMP, n + 51)
    ensures At(ops, n + 44, IGNORE) && At(ops, n + 45, IGNORE) && Wide(ops, n + 46, JUMP, n) && At(ops, n + 52, POP)
  {
    hide CodeItem, Wide, At, NameAt;
    var b := n + 18;
    assert CodeS(k, ops, b, Try(Failing(), "e", End), b + 33, b + 27);
    FailingParts(k, ops, b + 5, b + 33, b + 27);
  }

  /** The first element is bound. */
  lemma FirstBound(rt: Runtime, code: Code, k: Tables, n: nat, a: nat, w: World)
    requires Describes(k, code) && Wide(code.ops, n, NEXT_ITER_OR_JUMP, n + 51)
             && CodeItem(k, code.ops, n + 5, "x", Some("i"))
    requires a < |w.arrays| && w.arrays[a] == [Nil, Nil]
    ensures Reach(rt, code, F([], n - 1, [Iter(a, 0)], w),
                  Running(F([], n + 17, [Iter(a, 1)], BindItem("x", Some("i"), Nil, 0, w))))
  {
    var w1 := BindItem("x", Some("i"), Nil, 0, w);
    var f, g := F([], n - 1, [Iter(a, 0)], w), F([], n + 4, [Iter(a, 1)] + [Val(Nil)], w);
    FirstItem(rt, code, n, a, w);
    hide BindItem, Reach, CodeItem, Wide;
    assert [] + [Iter(a, 1)] == [Iter(a, 1)];
    BindRuns(rt, code, [], k, n + 5, "x", Some("i"), a, 0, Nil, [], w);
    ReachTrans(rt, code, f, g, Running(F([], n + 17, [Iter(a, 1)], w1)));
  }

  lemma FirstItem(rt: Runtime, code: Code, n: nat, a: nat, w: World)
    requires Wide(code.ops, n, NEXT_ITER_OR_JUMP, n + 51) && a < |w.arrays| && w.arrays[a] == [Nil, Nil]
    ensures Reach(rt, code, F([], n - 1, [Iter(a, 0)], w), Running(F([], n + 4, [Iter(a, 1)] + [Val(Nil)], w)))
  {
    RunNextIter(rt, code, [], n, n + 51, [], a, 0, w);
    ReachStep(rt, code, F([], n - 1, [Iter(a, 0)], w));
    hide Step, Reach;
    assert [] + [Iter(a, 1)] == [Iter(a, 1)] && [] + [Iter(a, 0)] == [Iter(a, 0)];
  }

  /** With the nil above the iterator, the loop goes back and is left at once. */
  lemma LeftEarly(rt: Runtime, code: Code, n: nat, it: Entry, w: World)
    requires Wide(code.ops, n, NEXT_ITER_OR_JUMP, n + 51) && At(code.ops, n + 44, IGNORE)
             && At(code.ops, n + 45, IGNORE)
    requires Wide(code.ops, n + 46, JUMP, n) && At(code.ops, n + 52, POP)
    ensures Reach(rt, code, F([], n + 43, [it] + [Val(Nil)], w), Running(F([], n + 52, [it], w)))
  {
    var top := [it] + [Val(Nil)];
    var f, g := F([], n - 1, top, w), F([], n + 51, top, w);
    RunMark(rt, code, [], n + 44, top, w);
    RunMark(rt, code, [], n + 45, top, w);
    RunJump(rt, code, [], n + 46, n, top, w);
    ReachStep(rt, code, f);
    assert Step(rt, code, f) == Running(g);
    RunPop(rt, code, [], n + 52, [it], Val(Nil), w);
    hide Step, Reach, Wide, At;
    var last := Running(F([], n + 52, [it], w));
    ReachTrans(rt, code, f, g, last);
    ReachTrans(rt, code, F([], n + 45, top, w), f, last);
    ReachTrans(rt, code, F([], n + 44, top, w), F([], n + 45, top, w), last);
    ReachTrans(rt, code, F([], n + 43, top, w), F([], n + 44, top, w), last);
  }

  /** So there is one round only. */
  lemma OneRound(rt: Runtime, code: Code, k: Tables, n: nat, a: nat, w: World)
    requires Describes(k, code) && CodeItems(k, code.ops, n, "x", Some("i"), Guarded()) && Missing(w)
    requires a < |w.arrays| && w.arrays[a] == [Nil, Nil]
    ensures Reach(rt, code, F([], n - 1, [Iter(a, 0)], w), Running(F([], n + 52, [Iter(a, 1)], AfterItem(0, w))))
  {
    var w1, w2 := BindItem("x", Some("i"), Nil, 0, w), AfterItem(0, w);
    var g, h := F([], n + 17, [Iter(a, 1)], w1), F([], n + 43, [Iter(a, 1)] + [Val(Nil)], w2);
    BuryingParts(k, code.ops, n);
    hide Failing, BindItem, CodeTry, CodeItem, CodeItems, Wide, At, Reach;
    FirstBound(rt, code, k, n, a, w);
    ItemMissing(0, w);
    FailingCaught(rt, code, [], k, n + 18, "e", End, n + 51, n + 45, [Iter(a, 1)], w1);
    LeftEarly(rt, code, n, Iter(a, 1), w2);
    var last := Running(F([], n + 52, [Iter(a, 1)], w2));
    ReachTrans(rt, code, g, h, last);
    ReachTrans(rt, code, F([], n - 1, [Iter(a, 0)], w), g, last);
  }

  function TwoNils(): Expr {
    ArrayLit(More(NilLit, More(NilLit, Nothing)))
  }

  lemma TwoNilsMeans(rt: Runtime, w: World)
    requires Missing(w)
    ensures var w0 := w.(arrays := w.arrays + [[Nil, Nil]]);
            EvalExpr(rt, TwoNils(), w) == Ok(Array(|w.arrays|), w0)
              && IterableOf(rt, Array(|w.arrays|), w0) == Ok(Array(|w.arrays|), w0)
            && Missing(w0) && w0.arrays[|w.arrays|] == [Nil, Nil]
  {
    var one := More(NilLit, Nothing);
    assert EvalExpr(rt, NilLit, w) == Ok(Nil, w);
    assert EvalAll(rt, one, w) == Oks([Nil], w) by {
      assert [Nil] + [] == [Nil];
    }
    assert EvalAll(rt, More(NilLit, one), w) == Oks([Nil, Nil], w) by {
      assert [Nil] + [Nil] == [Nil, Nil];
    }
  }

  /** The program has two rounds. */
  lemma TwoRounds(rt: Runtime, a: nat, w: World)
    requires Missing(w) && a < |w.arrays| && w.arrays[a] == [Nil, Nil]
    ensures ExecItems(rt, "x", Some("i"), a, 0, Guarded(), w, 3) == Normal(AfterItem(1, AfterItem(0, w)))
  {
    var w2 := AfterItem(0, w);
    var w4 := AfterItem(1, w2);
    ItemMissing(0, w);
    ItemMissing(1, w2);
    GuardedMeans(rt, BindItem("x", Some("i"), Nil, 0, w), 3);
    GuardedMeans(rt, BindItem("x", Some("i"), Nil, 1, w2), 2);
    hide Guarded, BindItem;
    assert ExecItems(rt, "x", Some("i"), a, 2, Guarded(), w4, 1) == Normal(w4);
    assert ExecItems(rt, "x", Some("i"), a, 1, Guarded(), w2, 2) == Normal(w4);
  }

  lemma GuardedMeans(rt: Runtime, w: World, fuel: nat)
    requires Missing(w)
    ensures ExecBlock(rt, Guarded(), w, fuel) == Normal(SaveVar("e", Exception(Undeclared("y")), w))
  {
    FailingThrows(rt, w, fuel);
    hide Failing, SaveVar;
    var w1 := SaveVar("e", Exception(Undeclared("y")), w);
    assert ExecBlock(rt, End, w1, fuel) == Normal(w1);
    assert ExecTry(rt, Failing(), "e", End, w, fuel) == Normal(w1);
  }

  lemma ProgramParts(k: Tables, ops: Ops)
    requires k.resolved && CodeProgram(k, ops, Burying())
    ensures CodeE(k, ops, 0, TwoNils()) && SizeE(TwoNils()) == 7 && At(ops, 7, MAKE_ITER)
    ensures CodeItems(k, ops, 8, "x", Some("i"), Guarded()) && At(ops, 61, PUSH_NIL) && At(ops, 62, RETURN)
  {
    TwoNilsSize();
    hide TwoNils, Guarded, CodeItems, CodeE;
    var s := ForIn("x", Some("i"), TwoNils(), Guarded());
    assert CodeS(k, ops, 0, s, -1, -1);
    assert CodeForIn(k, ops, 0, "x", Some("i"), TwoNils(), Guarded());
    BuryingParts(k, ops, 8);
    assert SizeS(s) == 61 && SizeB(Burying()) == 61 && !EndsInReturn(Burying());
  }

  lemma TwoNilsSize()
    ensures SizeE(TwoNils()) == 7
  {
    var one := More(NilLit, Nothing);
    assert SizeE(NilLit) == 1 && SizeAll(one) == 1 && SizeAll(More(NilLit, one)) == 2;
  }

  /** An error caught in the body of a for-in with an operand pending ends the loop: this
      program has two rounds, and the machine on its code makes one. */
  lemma BuriedIterator(rt: Runtime, code: Code, w: World)
    requires Missing(w) && CodeProgram(Tables(true, code.constants, code.names), code.ops, Burying())
    ensures var w0 := w.(arrays := w.arrays + [[Nil, Nil]]);
            var once := AfterItem(0, w0);
            Reach(rt, code, Start(w), LankyMachine.Finished(Answer(Nil, once)))
            && RunProgram(rt, Burying(), w, 3) == Some(Answer(Nil, AfterItem(1, once))) && AfterItem(1, once) != once
  {
    hide CodeProgram, CodeItems, CodeE, SizeE, TwoNils, Guarded, AfterItem, Missing, IterableOf, EvalExpr, RunProgram,
         Burying;
    var w0, a, k := w.(arrays := w.arrays + [[Nil, Nil]]), |w.arrays|, Tables(true, code.constants, code.names);
    ProgramParts(k, code.ops);
    TwoNilsMeans(rt, w);
    BuryingMeans(rt, w);
    ItemMissing(0, w0);
    ItemMissing(1, AfterItem(0, w0));
    BurialRuns(rt, code, k, w, w0, a);
  }

  /** Such a program is shut out: the sum can fail with an operand waiting. */
  lemma BuryingShutOut()
    ensures !RestoresB(Burying(), Loose)
  {
    hide StaysB, StaysElse, RestoresElse, TwoNils;
    assert !Tidy(Binary(Add, NilLit, Var("y")));
    BlockShutOut(Failing(), Neat);
    hide Failing, RestoresB;
    assert !Restores(Try(Failing(), "e", End), Exact);
    BlockShutOut(Guarded(), Exact);
    hide Guarded;
    assert !Restores(ForIn("x", Some("i"), TwoNils(), Guarded()), Loose);
    BlockShutOut(Burying(), Loose);
  }

  lemma BlockShutOut(b: Block, mode: Keeping)
    requires b.Then? && !Restores(b.first, mode)
    ensures !RestoresB(b, mode)
  {
    hide Restores;
  }

  lemma BuryingMeans(rt: Runtime, w: World)
    requires Missing(w)
    ensures var w0 := w.(arrays := w.arrays + [[Nil, Nil]]);
            RunProgram(rt, Burying(), w, 3) == Some(Answer(Nil, AfterItem(1, AfterItem(0, w0))))
  {
    var w0 := w.(arrays := w.arrays + [[Nil, Nil]]);
    var twice := AfterItem(1, AfterItem(0, w0));
    TwoNilsMeans(rt, w);
    TwoRounds(rt, |w.arrays|, w0);
    hide TwoNils, Guarded, AfterItem, Missing, IterableOf, EvalExpr, ExecItems;
    assert ExecForIn(rt, "x", Some("i"), TwoNils(), Guarded(), w, 3) == Normal(twice);
    hide ExecForIn;
    assert ExecBlock(rt, End, twice, 3) == Normal(twice);
    assert ExecBlock(rt, Burying(), w, 3) == Normal(twice);
  }

  lemma BurialRuns(rt: Runtime, code: Code, k: Tables, w: World, w0: World, a: nat)
    requires Describes(k, code) && CodeE(k, code.ops, 0, TwoNils()) && SizeE(TwoNils()) == 7
             && At(code.ops, 7, MAKE_ITER)
    requires CodeItems(k, code.ops, 8, "x", Some("i"), Guarded()) && At(code.ops, 61, PUSH_NIL)
             && At(code.ops, 62, RETURN)
    requires EvalExpr(rt, TwoNils(), w) == Ok(Array(a), w0) && IterableOf(rt, Array(a), w0) == Ok(Array(a), w0)
    requires Missing(w0) && a < |w0.arrays| && w0.arrays[a] == [Nil, Nil]
    ensures Reach(rt, code, Start(w), LankyMachine.Finished(Answer(Nil, AfterItem(0, w0))))
  {
    hide CodeE, SizeE, TwoNils, CodeItems, EvalExpr, IterableOf, Guarded, AfterItem, At, Missing;
    var once := AfterItem(0, w0);
    var f, g, h := F([], 6, [] + [Val(Array(a))], w0), F([], 7, [Iter(a, 0)], w0), F([], 60, [Iter(a, 1)], once);
    var last := LankyMachine.Finished(Answer(Nil, once));
    ExprRuns(rt, code, [], k, 0, TwoNils(), [], w);
    RunMakeIter(rt, code, [], 7, [], Array(a), w0);
    OneRound(rt, code, k, 8, a, w0);
    RunPush(rt, code, [], 61, [Iter(a, 1)], once);
    ValueReturns(rt, code, [], h, 61, Nil, once, [Iter(a, 1)]);
    hide Reach;
    assert [] + [Iter(a, 0)] == [Iter(a, 0)];
    ReachTrans(rt, code, g, h, last);
    ReachTrans(rt, code, f, g, last);
    ReachTrans(rt, code, Start(w), f, last);
  }

  // ----- a handler that waits on -----

  /** try { break } catch e { return nil } */
  function Escaping(): Block {
    Then(Try(Then(Break, End), "e", Then(Return(Some(NilLit)), End)), End)
  }

  /** while true { try { break } catch e { return nil } } and then raise nil */
  function Waiting(): Block {
    Then(Loop(None, BoolLit(true), None, Escaping()), Then(Raise(NilLit), End))
  }

  lemma EscapingParts(k: Tables, ops: Ops)
    requires k.resolved && CodeB(k, ops, 7, Escaping(), 40, 34)
    ensures CodeTryAt(k, ops, 7, 18, 24, 33, "e") && Wide(ops, 12, JUMP, 40) && SizeB(Escaping()) == 27
    ensures At(ops, 31, PUSH_NIL) && At(ops, 32, RETURN)
  {
    hide CodeTryAt, Wide;
    var body, handler := Then(Break, End), Then(Return(Some(NilLit)), End);
    assert CodeS(k, ops, 7, Try(body, "e", handler), 40, 34);
    assert CodeS(k, ops, 12, Break, 40, 34) && SizeB(body) == 6;
    assert CodeTry(k, ops, 7, body, "e", handler, 40, 34);
    assert CodeS(k, ops, 31, Return(Some(NilLit)), 40, 34) && SizeE(NilLit) == 1;
    assert CodeE(k, ops, 31, NilLit) && SizeB(handler) == 2;
  }

  lemma EscapingSize()
    ensures SizeB(Escaping()) == 27
  {
    var body, handler := Then(Break, End), Then(Return(Some(NilLit)), End);
    assert SizeB(body) == 6 && SizeE(NilLit) == 1 && SizeB(handler) == 2;
    assert SizeS(Try(body, "e", handler)) == 27;
  }

  lemma WaitingParts(k: Tables, ops: Ops)
    requires k.resolved && CodeProgram(k, ops, Waiting())
    ensures At(ops, 0, PUSH_BOOL) && At(ops, 1, 1) && Wide(ops, 2, JUMP_FALSE, 40)
            && CodeB(k, ops, 7, Escaping(), 40, 34)
    ensures At(ops, 41, PUSH_NIL) && At(ops, 42, RAISE)
  {
    EscapingSize();
    hide Escaping, Wide;
    var loop, rest := Loop(None, BoolLit(true), None, Escaping()), Then(Raise(NilLit), End);
    assert CodeS(k, ops, 0, loop, -1, -1) && SizeE(BoolLit(true)) == 2 && SizeS(loop) == 41;
    assert CodeRounds(k, ops, 0, BoolLit(true), None, Escaping());
    assert CodeE(k, ops, 0, BoolLit(true));
    assert CodeB(k, ops, 41, rest, -1, -1) && CodeS(k, ops, 41, Raise(NilLit), -1, -1) && SizeE(NilLit) == 1;
    assert CodeE(k, ops, 41, NilLit);
  }

  lemma WaitingMeans(rt: Runtime, w: World)
    requires rt.truthy(Yes)
    ensures RunProgram(rt, Waiting(), w, 1) == Some(Fatal(Custom(Nil), w))
  {
    var body, handler := Then(Break, End), Then(Return(Some(NilLit)), End);
    assert ExecBlock(rt, body, w, 1) == Broke(w);
    assert ExecTry(rt, body, "e", handler, w, 1) == Broke(w);
    assert ExecBlock(rt, Escaping(), w, 1) == Broke(w);
    hide Escaping;
    assert EvalExpr(rt, BoolLit(true), w) == Ok(Yes, w) && EvalExpr(rt, NilLit, w) == Ok(Nil, w);
    assert ExecLoop(rt, None, BoolLit(true), None, Escaping(), w, 1) == Normal(w);
    hide ExecLoop;
    assert ExecBlock(rt, Then(Raise(NilLit), End), w, 1) == Threw(Custom(Nil), w);
  }

  /** Into the block, and out of it by the break: the handler is still there. */
  lemma BreakRuns(rt: Runtime, code: Code, k: Tables, w: World)
    requires Describes(k, code) && rt.truthy(Yes) && At(code.ops, 0, PUSH_BOOL) && At(code.ops, 1, 1)
    requires Wide(code.ops, 2, JUMP_FALSE, 40) && CodeTryAt(k, code.ops, 7, 18, 24, 33, "e")
             && Wide(code.ops, 12, JUMP, 40)
    ensures Reach(rt, code, Start(w), Running(F([24], 40, [], w)))
  {
    var f := F([], 1, [] + [Val(Yes)], w);
    ReachStep(rt, code, Start(w));
    assert Step(rt, code, Start(w)) == Running(f);
    hide Step, Reach, CodeTryAt, Wide;
    RunJumpFalse(rt, code, [], 2, 40, [], Yes, w);
    RunPushCatch(rt, code, [], k, 7, 18, 24, 33, "e", [], w);
    RunJump(rt, code, [24], 12, 40, [], w);
    assert [] + [24] == [24];
    var last := Running(F([24], 40, [], w));
    ReachTrans(rt, code, F([], 6, [], w), F([24], 11, [], w), last);
    ReachTrans(rt, code, f, F([], 6, [], w), last);
    ReachTrans(rt, code, Start(w), f, last);
  }

  /** The raise behind the loop goes to it. */
  lemma RaiseRuns(rt: Runtime, code: Code, k: Tables, w: World)
    requires Describes(k, code) && CodeTryAt(k, code.ops, 7, 18, 24, 33, "e")
    requires At(code.ops, 41, PUSH_NIL) && At(code.ops, 42, RAISE)
    ensures Reach(rt, code, F([24], 40, [], w), Running(F([], 30, [], SaveVar("e", Exception(Custom(Nil)), w))))
  {
    var err := Custom(Nil);
    var f, g, h := F([24], 40, [], w), F([24], 41, [Val(Nil)], w), Noted([24], 42, [], err, w);
    ReachStep(rt, code, f);
    assert Step(rt, code, f) == Running(g);
    ReachStep(rt, code, g);
    assert Step(rt, code, g) == Running(h);
    assert [] + [24] == [24];
    hide Step, Reach, CodeTryAt, SaveVar;
    CaughtAt(rt, code, [], k, 7, 18, 24, 33, "e", 42, [], err, w);
    var last := Running(F([], 30, [], SaveVar("e", Exception(err), w)));
    ReachTrans(rt, code, g, h, last);
    ReachTrans(rt, code, f, g, last);
  }

  /** A break out of a guarded block leaves its handler waiting: this program ends with the
      error that is raised behind the loop, and the machine on its code returns nil. */
  lemma StaleHandler(rt: Runtime, code: Code, w: World)
    requires rt.truthy(Yes) && CodeProgram(Tables(true, code.constants, code.names), code.ops, Waiting())
    ensures RunProgram(rt, Waiting(), w, 1) == Some(Fatal(Custom(Nil), w))
    ensures Reach(rt, code, Start(w), LankyMachine.Finished(Answer(Nil, SaveVar("e", Exception(Custom(Nil)), w))))
  {
    hide CodeProgram, RunProgram, Waiting, Escaping, Wide, CodeTryAt, Reach, SaveVar, CodeB;
    var k, w1 := Tables(true, code.constants, code.names), SaveVar("e", Exception(Custom(Nil)), w);
    WaitingMeans(rt, w);
    WaitingParts(k, code.ops);
    EscapingParts(k, code.ops);
    BreakRuns(rt, code, k, w);
    RaiseRuns(rt, code, k, w);
    RunPush(rt, code, [], 31, [], w1);
    ValueReturns(rt, code, [], F([], 30, [], w1), 31, Nil, w1, []);
    var last := LankyMachine.Finished(Answer(Nil, w1));
    ReachTrans(rt, code, F([24], 40, [], w), F([], 30, [], w1), last);
    ReachTrans(rt, code, Start(w), F([24], 40, [], w), last);
  }

  lemma WaitingShutOut()
    ensures !RestoresB(Waiting(), Loose)
  {
    hide RestoresElse, StaysElse;
    var body, handler := Then(Break, End), Then(Return(Some(NilLit)), End);
    assert !Stays(Break, false);
    assert !StaysB(body, false);
    hide StaysB;
    assert !Restores(Try(body, "e", handler), Loose);
    BlockShutOut(Escaping(), Loose);
    hide Escaping;
    assert !Restores(Loop(None, BoolLit(true), None, Escaping()), Loose);
    BlockShutOut(Waiting(), Loose);
  }
}

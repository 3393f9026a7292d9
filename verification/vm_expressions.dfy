/** The machine on the code of an expression computes what the evaluator computes. */
module LankyExpressions {
  import opened LankySyntax
  import opened LankySemantics
  import opened LankyMachine
  import opened LankyLayout
  import opened LankyRuns

  /** The finished bytes of a code object, described by tables k. */
  predicate Describes(k: Tables, code: Code) {
    k == Tables(true, code.constants, code.names)
  }

  /** The run over e, from in front of it to behind it. */
  ghost predicate RunsE(rt: Runtime, code: Code, hs: seq<int>, p: nat, e: Expr, stack: seq<Entry>, w: World) {
    Yields(rt, code, hs, F(hs, p - 1, stack, w), p + SizeE(e) - 1, stack, EvalExpr(rt, e, w))
  }

  lemma {:induction false} ExprRuns(rt: Runtime, code: Code, hs: seq<int>, k: Tables, p: nat, e: Expr,
                                    stack: seq<Entry>, w: World)
    requires Describes(k, code) && CodeE(k, code.ops, p, e)
    ensures RunsE(rt, code, hs, p, e, stack, w)
    decreases e, 2
  {
    hide Yields, CodeE, EvalExpr;
    if e.Const? || e.Var? || e.NilLit? || e.BoolLit? {
      LeafRuns(rt, code, hs, k, p, e, stack, w);
    } else if e.Unary? || e.Binary? || e.Cond? || e.Ternary? || e.Assign? {
      OperatorRuns(rt, code, hs, k, p, e, stack, w);
    } else {
      AccessRuns(rt, code, hs, k, p, e, stack, w);
    }
  }

  lemma LeafRuns(rt: Runtime, code: Code, hs: seq<int>, k: Tables, p: nat, e: Expr, stack: seq<Entry>, w: World)
    requires e.Const? || e.Var? || e.NilLit? || e.BoolLit?
    requires Describes(k, code) && CodeE(k, code.ops, p, e)
    ensures RunsE(rt, code, hs, p, e, stack, w)
  {
    hide Yields, LoadVar, ConstAt, NameAt;
    match e
    case Const(c) => RunConst(rt, code, hs, k, p, c, stack, w);
    case Var(name) => RunLoad(rt, code, hs, k, p, name, stack, w);
    case NilLit => RunPush(rt, code, hs, p, stack, w);
    case BoolLit(b) => RunPush(rt, code, hs, p, stack, w);
  }

  lemma {:induction false} OperatorRuns(rt: Runtime, code: Code, hs: seq<int>, k: Tables, p: nat, e: Expr,
                                        stack: seq<Entry>, w: World)
    requires e.Unary? || e.Binary? || e.Cond? || e.Ternary? || e.Assign?
    requires Describes(k, code) && CodeE(k, code.ops, p, e)
    ensures RunsE(rt, code, hs, p, e, stack, w)
    decreases e, 1
  {
    hide Yields, EvalUnary, EvalBinary, EvalCond, EvalTernary, EvalAssign, CodeUnary, CodeBinary, CodeCond,
         CodeTernary, CodeAssign;
    match e
    case Unary(op, a) => UnaryRuns(rt, code, hs, k, p, op, a, stack, w);
    case Binary(op, a, b) => BinaryRuns(rt, code, hs, k, p, op, a, b, stack, w);
    case Cond(op, a, b) => CondRuns(rt, code, hs, k, p, op, a, b, p + SizeE(e) - 1, stack, w);
    case Ternary(a, b, c) => TernaryRuns(rt, code, hs, k, p, a, b, c, stack, w);
    case Assign(name, a) => AssignRuns(rt, code, hs, k, p, name, a, stack, w);
  }

  lemma {:induction false} AccessRuns(rt: Runtime, code: Code, hs: seq<int>, k: Tables, p: nat, e: Expr,
                                      stack: seq<Entry>, w: World)
    requires e.ArrayLit? || e.Index? || e.SetIndex? || e.Update? || e.Call?
    requires Describes(k, code) && CodeE(k, code.ops, p, e)
    ensures RunsE(rt, code, hs, p, e, stack, w)
    decreases e, 1
  {
    hide Yields, EvalArray, EvalIndex, EvalSetIndex, EvalUpdate, EvalCall, CodeArray, CodeIndex, CodeSetIndex,
         CodeUpdate, CodeCall;
    match e
    case ArrayLit(es) => ArrayRuns(rt, code, hs, k, p, es, stack, w);
    case Index(t, i) => IndexRuns(rt, code, hs, k, p, t, i, stack, w);
    case SetIndex(t, i, v) => SetIndexRuns(rt, code, hs, k, p, t, i, v, stack, w);
    case Update(op, t, i, v) => UpdateRuns(rt, code, hs, k, p, op, t, i, v, stack, w);
    case Call(es, f) => CallRuns(rt, code, hs, k, p, es, f, stack, w);
  }

  /** After x is on the stack, what follows yields r; then so does the whole. */
  lemma Then1(rt: Runtime, code: Code, hs: seq<int>, f: Frame, pc1: int, stack1: seq<Entry>, x: Value, w1: World,
              pc: int, stack: seq<Entry>, r: Eval)
    requires Yields(rt, code, hs, f, pc1, stack1, Ok(x, w1))
    requires Yields(rt, code, hs, F(hs, pc1, stack1 + [Val(x)], w1), pc, stack, r)
    ensures Yields(rt, code, hs, f, pc, stack, r)
  {
    ThenYields(rt, code, hs, f, F(hs, pc1, stack1 + [Val(x)], w1), pc, stack, r);
  }

  lemma FailsAnyway(rt: Runtime, code: Code, hs: seq<int>, f: Frame, pc1: int, stack1: seq<Entry>, pc: int,
                    stack: seq<Entry>, r: Eval)
    requires Yields(rt, code, hs, f, pc1, stack1, r) && !r.Ok? && stack <= stack1
    ensures Yields(rt, code, hs, f, pc, stack, r)
  {
    hide Fails;
    if r.Raised? {
      FailsBelow(rt, code, hs, f, stack1, stack, r.err, r.w);
    }
  }

  lemma {:induction false} UnaryRuns(rt: Runtime, code: Code, hs: seq<int>, k: Tables, p: nat, op: UnOp, a: Expr,
                                     stack: seq<Entry>, w: World)
    requires Describes(k, code) && CodeUnary(k, code.ops, p, op, a)
    ensures Yields(rt, code, hs, F(hs, p - 1, stack, w), p + SizeE(a), stack, EvalUnary(rt, op, a, w))
    decreases Unary(op, a), 0
  {
    hide Yields, CodeE, EvalExpr, SizeE, At;
    var f, q := F(hs, p - 1, stack, w), p + SizeE(a);
    ExprRuns(rt, code, hs, k, p, a, stack, w);
    match EvalExpr(rt, a, w)
    case Ok(x, w1) =>
      RunUnary(rt, code, hs, q, op, stack, x, w1);
      Then1(rt, code, hs, f, q - 1, stack, x, w1, q, stack, rt.unary(op, x, w1));
    case r =>
      FailsAnyway(rt, code, hs, f, q - 1, stack, q, stack, r);
  }

  lemma {:induction false} BinaryRuns(rt: Runtime, code: Code, hs: seq<int>, k: Tables, p: nat, op: BinOp, a: Expr,
                                      b: Expr, stack: seq<Entry>, w: World)
    requires Describes(k, code) && CodeBinary(k, code.ops, p, op, a, b)
    ensures Yields(rt, code, hs, F(hs, p - 1, stack, w), p + SizeE(a) + SizeE(b), stack, EvalBinary(rt, op, a, b, w))
    decreases Binary(op, a, b), 0
  {
    hide Yields, CodeE, EvalExpr, SizeE, At;
    var f, q, r := F(hs, p - 1, stack, w), p + SizeE(a), p + SizeE(a) + SizeE(b);
    TwoRun(rt, code, hs, k, p, a, b, Binary(op, a, b), stack, w);
    match EvalTwo(rt, a, b, w)
    case Oks(xs, w2) =>
      RunBinary(rt, code, hs, r, op, stack, xs[0], xs[1], w2);
      ThenYields(rt, code, hs, f, F(hs, r - 1, stack + [Val(xs[0])] + [Val(xs[1])], w2), r, stack,
                 rt.binary(op, xs[0], xs[1], w2));
    case Failed(x) =>
      FailsAnyway(rt, code, hs, f, r - 1, stack, r, stack, x);
  }

  /** Two expressions, one after the other. */
  function EvalTwo(rt: Runtime, a: Expr, b: Expr, w: World): (r: Evals)
    ensures r.Oks? ==> |r.vs| == 2
    ensures r.Failed? ==> !r.r.Ok?
  {
    match EvalExpr(rt, a, w)
    case Ok(x, w1) =>
      (match EvalExpr(rt, b, w1)
       case Ok(y, w2) => Oks([x, y], w2)
       case other => Failed(other))
    case other => Failed(other)
  }

  ghost predicate YieldsTwo(rt: Runtime, code: Code, hs: seq<int>, f: Frame, pc: int, stack: seq<Entry>, r: Evals) {
    match r
    case Oks(xs, w) => |xs| == 2 && Reach(rt, code, f, Running(F(hs, pc, stack + [Val(xs[0])] + [Val(xs[1])], w)))
    case Failed(x) => !x.Ok? && Yields(rt, code, hs, f, pc, stack, x)
  }

  lemma {:induction false} TwoRun(rt: Runtime, code: Code, hs: seq<int>, k: Tables, p: nat, a: Expr, b: Expr,
                                  whole: Expr, stack: seq<Entry>, w: World)
    requires a < whole && b < whole
    requires Describes(k, code) && CodeE(k, code.ops, p, a) && CodeE(k, code.ops, p + SizeE(a), b)
    ensures YieldsTwo(rt, code, hs, F(hs, p - 1, stack, w), p + SizeE(a) + SizeE(b) - 1, stack, EvalTwo(rt, a, b, w))
    decreases whole, 0, 0
  {
    hide CodeE, EvalExpr, Reach;
    var f, q, r := F(hs, p - 1, stack, w), p + SizeE(a), p + SizeE(a) + SizeE(b) - 1;
    ExprRuns(rt, code, hs, k, p, a, stack, w);
    match EvalExpr(rt, a, w)
    case Ok(x, w1) =>
      ExprRuns(rt, code, hs, k, q, b, stack + [Val(x)], w1);
      Then1(rt, code, hs, f, q - 1, stack, x, w1, r, stack + [Val(x)], EvalExpr(rt, b, w1));
    case x =>
  }

  lemma {:induction false} CondRuns(rt: Runtime, code: Code, hs: seq<int>, k: Tables, p: nat, op: CondOp, a: Expr,
                                    b: Expr, end: nat, stack: seq<Entry>, w: World)
    requires Describes(k, code) && CodeCond(k, code.ops, p, op, a, b, end)
    ensures Yields(rt, code, hs, F(hs, p - 1, stack, w), end, stack, EvalCond(rt, op, a, b, w))
    decreases Cond(op, a, b), 0
  {
    hide Yields, CodeE, EvalExpr, Decides, SizeE, Wide, At;
    var f, q := F(hs, p - 1, stack, w), p + SizeE(a);
    ExprRuns(rt, code, hs, k, p, a, stack, w);
    match EvalExpr(rt, a, w)
    case Ok(x, w1) =>
      RunDecide(rt, code, hs, q, op, end, stack, x, w1);
      var g := F(hs, q - 1, stack + [Val(x)], w1);
      if Decides(rt, op, x) {
        ReachYields(rt, code, hs, g, end, stack, x, w1);
      } else {
        OtherSideRuns(rt, code, hs, k, q + 5, b, end, stack, w1);
        ThenYields(rt, code, hs, g, F(hs, q + 4, stack, w1), end, stack, EvalExpr(rt, b, w1));
      }
      Then1(rt, code, hs, f, q - 1, stack, x, w1, end, stack, EvalCond(rt, op, a, b, w));
    case r =>
      FailsAnyway(rt, code, hs, f, q - 1, stack, end, stack, r);
  }

  /** The right side of a condition runs to the shared marker. */
  lemma {:induction false} OtherSideRuns(rt: Runtime, code: Code, hs: seq<int>, k: Tables, q: nat, b: Expr, end: nat,
                                         stack: seq<Entry>, w: World)
    requires Describes(k, code)
    requires if b.Cond? then CodeCond(k, code.ops, q, b.cop, b.left, b.right, end)
             else CodeE(k, code.ops, q, b) && end == q + SizeE(b) && Mark(k, code.ops, end)
    ensures Yields(rt, code, hs, F(hs, q - 1, stack, w), end, stack, EvalExpr(rt, b, w))
    decreases b, 3
  {
    hide Yields, CodeE, CodeCond, EvalCond;
    if b.Cond? {
      CondRuns(rt, code, hs, k, q, b.cop, b.left, b.right, end, stack, w);
    } else {
      ExprRuns(rt, code, hs, k, q, b, stack, w);
      MarkYields(rt, code, hs, F(hs, q - 1, stack, w), end, stack, EvalExpr(rt, b, w));
    }
  }

  lemma ReachYields(rt: Runtime, code: Code, hs: seq<int>, f: Frame, pc: int, stack: seq<Entry>, x: Value, w: World)
    requires Reach(rt, code, f, Running(F(hs, pc, stack + [Val(x)], w)))
    ensures Yields(rt, code, hs, f, pc, stack, Ok(x, w))
  {}

  /** Stepping over a marker. */
  lemma MarkYields(rt: Runtime, code: Code, hs: seq<int>, f: Frame, m: nat, stack: seq<Entry>, r: Eval)
    requires Yields(rt, code, hs, f, m - 1, stack, r) && At(code.ops, m, IGNORE)
    ensures Yields(rt, code, hs, f, m, stack, r)
  {
    hide Reach;
    if r.Ok? {
      RunMark(rt, code, hs, m, stack + [Val(r.v)], r.w);
      ReachTrans(rt, code, f, F(hs, m - 1, stack + [Val(r.v)], r.w), Running(F(hs, m, stack + [Val(r.v)], r.w)));
    }
  }

  lemma {:induction false} TernaryRuns(rt: Runtime, code: Code, hs: seq<int>, k: Tables, p: nat, a: Expr, b: Expr,
                                       c: Expr, stack: seq<Entry>, w: World)
    requires Describes(k, code) && CodeTernary(k, code.ops, p, a, b, c)
    ensures Yields(rt, code, hs, F(hs, p - 1, stack, w), p + SizeE(a) + 5 + SizeE(b) + 6 + SizeE(c), stack,
                   EvalTernary(rt, a, b, c, w))
    decreases Ternary(a, b, c), 0
  {
    hide Yields, CodeE, EvalExpr, SizeE, Wide, At;
    var f, q := F(hs, p - 1, stack, w), p + SizeE(a);
    var r := q + 5 + SizeE(b);
    var end := r + 6 + SizeE(c);
    ExprRuns(rt, code, hs, k, p, a, stack, w);
    match EvalExpr(rt, a, w)
    case Ok(x, w1) =>
      ExprRuns(rt, code, hs, k, q + 5, b, stack, w1);
      ExprRuns(rt, code, hs, k, r + 6, c, stack, w1);
      TernaryGoesOn(rt, code, hs, q, r, end, x, EvalExpr(rt, b, w1), EvalExpr(rt, c, w1), stack, w1);
      Then1(rt, code, hs, f, q - 1, stack, x, w1, end, stack, EvalTernary(rt, a, b, c, w));
    case x =>
      FailsAnyway(rt, code, hs, f, q - 1, stack, end, stack, x);
  }

  /** From the conditional jump on, over the branch that is not taken. */
  lemma TernaryGoesOn(rt: Runtime, code: Code, hs: seq<int>, q: nat, r: nat, end: nat, x: Value, y: Eval, z: Eval,
                      stack: seq<Entry>, w: World)
    requires Wide(code.ops, q, JUMP_FALSE, r + 5) && Wide(code.ops, r, JUMP, end) && At(code.ops, end, IGNORE)
    requires q + 5 <= r && r + 6 <= end
    requires Yields(rt, code, hs, F(hs, q + 4, stack, w), r - 1, stack, y)
    requires Yields(rt, code, hs, F(hs, r + 5, stack, w), end - 1, stack, z)
    ensures Yields(rt, code, hs, F(hs, q - 1, stack + [Val(x)], w), end, stack, if rt.truthy(x) then y else z)
  {
    RunJumpFalse(rt, code, hs, q, r + 5, stack, x, w);
    hide Yields, Wide, At, Reach;
    var g := F(hs, q - 1, stack + [Val(x)], w);
    if rt.truthy(x) {
      JumpYields(rt, code, hs, F(hs, q + 4, stack, w), r, end, stack, y);
      ThenYields(rt, code, hs, g, F(hs, q + 4, stack, w), end, stack, y);
    } else {
      MarkYields(rt, code, hs, F(hs, r + 5, stack, w), end, stack, z);
      ThenYields(rt, code, hs, g, F(hs, r + 5, stack, w), end, stack, z);
    }
  }

  /** Jumping forward over code with the result on the stack. */
  lemma JumpYields(rt: Runtime, code: Code, hs: seq<int>, f: Frame, p: nat, target: nat, stack: seq<Entry>, r: Eval)
    requires Yields(rt, code, hs, f, p - 1, stack, r) && Wide(code.ops, p, JUMP, target) && target >= p + 5
    ensures Yields(rt, code, hs, f, target, stack, r)
  {
    hide Reach;
    if r.Ok? {
      RunJump(rt, code, hs, p, target, stack + [Val(r.v)], r.w);
      ReachTrans(rt, code, f, F(hs, p - 1, stack + [Val(r.v)], r.w), Running(F(hs, target, stack + [Val(r.v)], r.w)));
    }
  }

  lemma {:induction false} AssignRuns(rt: Runtime, code: Code, hs: seq<int>, k: Tables, p: nat, name: string, a: Expr,
                                      stack: seq<Entry>, w: World)
    requires Describes(k, code) && CodeAssign(k, code.ops, p, name, a)
    ensures Yields(rt, code, hs, F(hs, p - 1, stack, w), p + SizeE(a) + 4, stack, EvalAssign(rt, name, a, w))
    decreases Assign(name, a), 0
  {
    hide Yields, CodeE, EvalExpr, NameAt, SaveVar, SizeE, At;
    var f, q := F(hs, p - 1, stack, w), p + SizeE(a);
    ExprRuns(rt, code, hs, k, p, a, stack, w);
    match EvalExpr(rt, a, w)
    case Ok(x, w1) =>
      var w2 := SaveVar(name, x, w1);
      RunSave(rt, code, hs, k, q, name, stack, x, w1);
      ReachYields(rt, code, hs, F(hs, q - 1, stack + [Val(x)], w1), q + 4, stack, x, w2);
      Then1(rt, code, hs, f, q - 1, stack, x, w1, q + 4, stack, Ok(x, w2));
    case r =>
      FailsAnyway(rt, code, hs, f, q - 1, stack, q + 4, stack, r);
  }

  // ----- lists of expressions -----

  ghost predicate YieldsAll(rt: Runtime, code: Code, hs: seq<int>, f: Frame, pc: int, stack: seq<Entry>, r: Evals) {
    match r
    case Oks(xs, w) => Reach(rt, code, f, Running(F(hs, pc, stack + Vals(xs), w)))
    case Failed(x) => !x.Ok? && Yields(rt, code, hs, f, pc, stack, x)
  }

  lemma {:induction false} AllRun(rt: Runtime, code: Code, hs: seq<int>, k: Tables, p: nat, es: Exprs,
                                  stack: seq<Entry>, w: World)
    requires Describes(k, code) && CodeAll(k, code.ops, p, es)
    ensures YieldsAll(rt, code, hs, F(hs, p - 1, stack, w), p + SizeAll(es) - 1, stack, EvalAll(rt, es, w))
    decreases es, 0
  {
    hide CodeE, EvalExpr, Reach, Yields, SizeE;
    var f := F(hs, p - 1, stack, w);
    match es
    case Nothing =>
      assert stack + Vals([]) == stack;
      ReachSelf(rt, code, f);
    case More(e, rest) =>
      var q, pc := p + SizeE(e), p + SizeAll(es) - 1;
      ExprRuns(rt, code, hs, k, p, e, stack, w);
      match EvalExpr(rt, e, w)
      case Ok(x, w1) =>
        AllRun(rt, code, hs, k, q, rest, stack + [Val(x)], w1);
        ThenAll(rt, code, hs, f, q - 1, stack, x, w1, pc, EvalAll(rt, rest, w1));
      case r =>
        FailsAnyway(rt, code, hs, f, q - 1, stack, pc, stack, r);
  }

  lemma ThenAll(rt: Runtime, code: Code, hs: seq<int>, f: Frame, pc1: int, stack: seq<Entry>, x: Value, w1: World,
                pc: int, r: Evals)
    requires Yields(rt, code, hs, f, pc1, stack, Ok(x, w1))
    requires YieldsAll(rt, code, hs, F(hs, pc1, stack + [Val(x)], w1), pc, stack + [Val(x)], r)
    ensures YieldsAll(rt, code, hs, f, pc, stack, if r.Oks? then Oks([x] + r.vs, r.w) else r)
  {
    hide Reach;
    var g := F(hs, pc1, stack + [Val(x)], w1);
    match r
    case Oks(xs, w2) =>
      assert stack + [Val(x)] + Vals(xs) == stack + Vals([x] + xs);
      ReachTrans(rt, code, f, g, Running(F(hs, pc, stack + Vals([x] + xs), w2)));
    case Failed(y) =>
      ThenYields(rt, code, hs, f, g, pc, stack + [Val(x)], y);
      FailsAnyway(rt, code, hs, f, pc, stack + [Val(x)], pc, stack, y);
  }

  /** As many values as expressions. */
  lemma {:induction false} AllCount(rt: Runtime, es: Exprs, w: World)
    ensures EvalAll(rt, es, w).Oks? ==> |EvalAll(rt, es, w).vs| == Count(es)
    ensures EvalAll(rt, es, w).Failed? ==> !EvalAll(rt, es, w).r.Ok?
    decreases es
  {
    hide EvalExpr;
    if es.More? && EvalExpr(rt, es.head, w).Ok? {
      AllCount(rt, es.tail, EvalExpr(rt, es.head, w).w);
    }
  }

  lemma {:induction false} ArrayRuns(rt: Runtime, code: Code, hs: seq<int>, k: Tables, p: nat, es: Exprs,
                                     stack: seq<Entry>, w: World)
    requires Describes(k, code) && CodeArray(k, code.ops, p, es)
    ensures Yields(rt, code, hs, F(hs, p - 1, stack, w), p + SizeAll(es) + 4, stack, EvalArray(rt, es, w))
    decreases ArrayLit(es), 0
  {
    hide CodeAll, EvalAll, Reach, MakeArray;
    var f, q := F(hs, p - 1, stack, w), p + SizeAll(es);
    AllRun(rt, code, hs, k, p, es, stack, w);
    AllCount(rt, es, w);
    match EvalAll(rt, es, w)
    case Oks(xs, w1) =>
      RunMakeArray(rt, code, hs, q, stack, xs, w1);
      var (a, w2) := MakeArray(xs, w1);
      ReachTrans(rt, code, f, F(hs, q - 1, stack + Vals(xs), w1), Running(F(hs, q + 4, stack + [Val(a)], w2)));
    case Failed(r) =>
      FailsAnyway(rt, code, hs, f, q - 1, stack, q + 4, stack, r);
  }

  lemma {:induction false} CallRuns(rt: Runtime, code: Code, hs: seq<int>, k: Tables, p: nat, es: Exprs, g: Expr,
                                    stack: seq<Entry>, w: World)
    requires Describes(k, code) && CodeCall(k, code.ops, p, es, g)
    ensures Yields(rt, code, hs, F(hs, p - 1, stack, w), p + SizeAll(es) + SizeE(g) + 1, stack, EvalCall(rt, es, g, w))
    decreases Call(es, g), 0
  {
    hide CodeAll, CodeE, EvalAll, EvalExpr, Reach, SizeE, At;
    var f, q := F(hs, p - 1, stack, w), p + SizeAll(es);
    var r := q + SizeE(g);
    AllRun(rt, code, hs, k, p, es, stack, w);
    AllCount(rt, es, w);
    match EvalAll(rt, es, w)
    case Oks(xs, w1) =>
      hide Yields;
      ExprRuns(rt, code, hs, k, q, g, stack + Vals(xs), w1);
      var h := F(hs, q - 1, stack + Vals(xs), w1);
      match EvalExpr(rt, g, w1) {
       case Ok(c, w2) =>
         RunCall(rt, code, hs, r, stack, xs, c, w2);
         Then1(rt, code, hs, h, r - 1, stack + Vals(xs), c, w2, r + 1, stack, rt.call(c, xs, w2));
       case x =>
         FailsAnyway(rt, code, hs, h, r - 1, stack + Vals(xs), r + 1, stack, x);
      }
      ThenYields(rt, code, hs, f, h, r + 1, stack, EvalCall(rt, es, g, w));
    case Failed(x) =>
      FailsAnyway(rt, code, hs, f, q - 1, stack, r + 1, stack, x);
  }

  // ----- indexing -----

  lemma {:induction false} IndexRuns(rt: Runtime, code: Code, hs: seq<int>, k: Tables, p: nat, t: Expr, i: Expr,
                                     stack: seq<Entry>, w: World)
    requires Describes(k, code) && CodeIndex(k, code.ops, p, t, i)
    ensures Yields(rt, code, hs, F(hs, p - 1, stack, w), p + SizeE(t) + SizeE(i), stack, EvalIndex(rt, t, i, w))
    decreases Index(t, i), 0
  {
    hide Yields, CodeE, EvalExpr, LoadIndex, SizeE, At;
    var f, r := F(hs, p - 1, stack, w), p + SizeE(t) + SizeE(i);
    TwoRun(rt, code, hs, k, p, t, i, Index(t, i), stack, w);
    match EvalTwo(rt, t, i, w)
    case Oks(xs, w2) =>
      RunLoadIndex(rt, code, hs, r, stack, xs[0], xs[1], w2);
      ThenYields(rt, code, hs, f, F(hs, r - 1, stack + [Val(xs[0])] + [Val(xs[1])], w2), r, stack,
                 LoadIndex(rt, xs[0], xs[1], w2));
    case Failed(x) =>
      FailsAnyway(rt, code, hs, f, r - 1, stack, r, stack, x);
  }

  lemma {:induction false} SetIndexRuns(rt: Runtime, code: Code, hs: seq<int>, k: Tables, p: nat, t: Expr, i: Expr,
                                        v: Expr, stack: seq<Entry>, w: World)
    requires Describes(k, code) && CodeSetIndex(k, code.ops, p, t, i, v)
    ensures Yields(rt, code, hs, F(hs, p - 1, stack, w), p + SizeE(v) + SizeE(t) + SizeE(i), stack,
                   EvalSetIndex(rt, t, i, v, w))
    decreases SetIndex(t, i, v), 0
  {
    hide Yields, CodeE, EvalExpr, SaveIndex, SizeE, At;
    var f, q := F(hs, p - 1, stack, w), p + SizeE(v);
    var r := q + SizeE(t) + SizeE(i);
    ExprRuns(rt, code, hs, k, p, v, stack, w);
    match EvalExpr(rt, v, w)
    case Ok(x, w1) =>
      var stack1 := stack + [Val(x)];
      var g := F(hs, q - 1, stack1, w1);
      TwoRun(rt, code, hs, k, q, t, i, SetIndex(t, i, v), stack1, w1);
      match EvalTwo(rt, t, i, w1) {
       case Oks(ys, w3) =>
         RunSaveIndex(rt, code, hs, r, stack, x, ys[0], ys[1], w3);
         ThenYields(rt, code, hs, g, F(hs, r - 1, stack1 + [Val(ys[0])] + [Val(ys[1])], w3), r, stack,
                    SaveIndex(rt, ys[0], ys[1], x, w3));
       case Failed(y) =>
         FailsAnyway(rt, code, hs, g, r - 1, stack1, r, stack, y);
      }
      Then1(rt, code, hs, f, q - 1, stack, x, w1, r, stack, EvalSetIndex(rt, t, i, v, w));
    case y =>
      FailsAnyway(rt, code, hs, f, q - 1, stack, r, stack, y);
  }

  lemma {:induction false} UpdateRuns(rt: Runtime, code: Code, hs: seq<int>, k: Tables, p: nat, op: BinOp, t: Expr,
                                      i: Expr, v: Expr, stack: seq<Entry>, w: World)
    requires Describes(k, code) && CodeUpdate(k, code.ops, p, op, t, i, v)
    ensures Yields(rt, code, hs, F(hs, p - 1, stack, w), p + SizeE(t) + SizeE(i) + 2 + SizeE(v) + 2, stack,
                   EvalUpdate(rt, op, t, i, v, w))
    decreases Update(op, t, i, v), 0
  {
    hide Yields, CodeE, EvalExpr, EvalUpdateAt, CodeUpdateAt, SizeE, At;
    var f, q := F(hs, p - 1, stack, w), p + SizeE(t) + SizeE(i);
    var end := q + 2 + SizeE(v) + 2;
    TwoRun(rt, code, hs, k, p, t, i, Update(op, t, i, v), stack, w);
    match EvalTwo(rt, t, i, w)
    case Oks(xs, w2) =>
      UpdateAtRuns(rt, code, hs, k, q, op, xs[0], xs[1], v, stack, w2);
      ThenYields(rt, code, hs, f, F(hs, q - 1, stack + [Val(xs[0])] + [Val(xs[1])], w2), end, stack,
                 EvalUpdateAt(rt, op, xs[0], xs[1], v, w2));
    case Failed(x) =>
      FailsAnyway(rt, code, hs, f, q - 1, stack, end, stack, x);
  }

  /** The part of t[i] op= v behind target and index: duplicate, load, compute,
      sink the result below them, store. */
  lemma {:induction false} UpdateAtRuns(rt: Runtime, code: Code, hs: seq<int>, k: Tables, q: nat, op: BinOp, x: Value,
                                        y: Value, v: Expr, stack: seq<Entry>, w: World)
    requires Describes(k, code) && CodeUpdateAt(k, code.ops, q, op, v)
    ensures Yields(rt, code, hs, F(hs, q - 1, stack + [Val(x)] + [Val(y)], w), q + 4 + SizeE(v), stack,
                   EvalUpdateAt(rt, op, x, y, v, w))
    decreases v, 4
  {
    hide Yields, CodeE, EvalExpr, LoadIndex, SaveIndex, BinaryOpcode, SizeE, At;
    var stack2 := stack + [Val(x)] + [Val(y)];
    var f, r, end := F(hs, q - 1, stack2, w), q + 2 + SizeE(v), q + 4 + SizeE(v);
    RunDuplicate(rt, code, hs, q, stack, x, y, w);
    var g := F(hs, q, stack2 + [Val(x)] + [Val(y)], w);
    RunLoadIndex(rt, code, hs, q + 1, stack2, x, y, w);
    match LoadIndex(rt, x, y, w)
    case Ok(before, w1) =>
      UpdateTail(rt, code, hs, k, q, op, x, y, before, v, stack, w1);
      Then1(rt, code, hs, g, q + 1, stack2, before, w1, end, stack, EvalUpdateAt(rt, op, x, y, v, w));
      ThenYields(rt, code, hs, f, g, end, stack, EvalUpdateAt(rt, op, x, y, v, w));
    case z =>
      FailsAnyway(rt, code, hs, g, q + 1, stack2, end, stack, z);
      ThenYields(rt, code, hs, f, g, end, stack, z);
  }

  lemma {:induction false} UpdateTail(rt: Runtime, code: Code, hs: seq<int>, k: Tables, q: nat, op: BinOp, x: Value,
                                      y: Value, before: Value, v: Expr, stack: seq<Entry>, w1: World)
    requires Describes(k, code) && CodeE(k, code.ops, q + 2, v)
    requires At(code.ops, q + 2 + SizeE(v), BinaryOpcode(op))
    requires At(code.ops, q + 3 + SizeE(v), SINK_FIRST) && At(code.ops, q + 4 + SizeE(v), SAVE_INDEX)
    ensures Yields(rt, code, hs, F(hs, q + 1, stack + [Val(x)] + [Val(y)] + [Val(before)], w1), q + 4 + SizeE(v), stack,
                   Updated(rt, op, x, y, before, v, w1))
    decreases v, 3
  {
    hide Yields, CodeE, EvalExpr, SaveIndex, BinaryOpcode, SizeE, At;
    var stack2 := stack + [Val(x)] + [Val(y)];
    var stack3 := stack2 + [Val(before)];
    var f, r, end := F(hs, q + 1, stack3, w1), q + 2 + SizeE(v), q + 4 + SizeE(v);
    ExprRuns(rt, code, hs, k, q + 2, v, stack3, w1);
    match EvalExpr(rt, v, w1)
    case Ok(z, w2) =>
      var g := F(hs, r - 1, stack3 + [Val(z)], w2);
      RunBinary(rt, code, hs, r, op, stack2, before, z, w2);
      match rt.binary(op, before, z, w2) {
       case Ok(u, w3) =>
         RunSink(rt, code, hs, r + 1, stack, x, y, u, w3);
         RunSaveIndex(rt, code, hs, r + 2, stack, u, x, y, w3);
         ThenYields(rt, code, hs, F(hs, r, stack2 + [Val(u)], w3),
                    F(hs, r + 1, stack + [Val(u)] + [Val(x)] + [Val(y)], w3), end, stack,
                    SaveIndex(rt, x, y, u, w3));
         Then1(rt, code, hs, g, r, stack2, u, w3, end, stack, SaveIndex(rt, x, y, u, w3));
       case e =>
         FailsAnyway(rt, code, hs, g, r, stack2, end, stack, e);
      }
      Then1(rt, code, hs, f, r - 1, stack3, z, w2, end, stack, Updated(rt, op, x, y, before, v, w1));
    case e =>
      FailsAnyway(rt, code, hs, f, r - 1, stack3, end, stack, e);
  }

  /** What EvalUpdateAt does once the element is loaded. */
  function Updated(rt: Runtime, op: BinOp, x: Value, y: Value, before: Value, v: Expr, w: World): Eval {
    match EvalExpr(rt, v, w)
    case Ok(z, w2) =>
      (match rt.binary(op, before, z, w2)
       case Ok(r, w3) => SaveIndex(rt, x, y, r, w3)
       case other => other)
    case other => other
  }

  // ----- what fails with no operand waiting -----

  lemma {:induction false} QuietEvals(rt: Runtime, e: Expr, w: World)
    requires Quiet(e)
    ensures EvalExpr(rt, e, w).Ok?
    decreases e
  {
    match e
    case Cond(_, a, b) =>
      QuietEvals(rt, a, w);
      QuietEvals(rt, b, EvalExpr(rt, a, w).w);
    case Ternary(a, b, c) =>
      QuietEvals(rt, a, w);
      QuietEvals(rt, b, EvalExpr(rt, a, w).w);
      QuietEvals(rt, c, EvalExpr(rt, a, w).w);
    case Assign(_, a) => QuietEvals(rt, a, w);
    case ArrayLit(es) => AllQuietEval(rt, es, w);
    case _ =>
  }

  lemma {:induction false} AllQuietEval(rt: Runtime, es: Exprs, w: World)
    requires AllQuiet(es)
    ensures EvalAll(rt, es, w).Oks?
    decreases es
  {
    if es.More? {
      QuietEvals(rt, es.head, w);
      AllQuietEval(rt, es.tail, EvalExpr(rt, es.head, w).w);
    }
  }

  /** Of the elements of a tidy array only the first can fail. */
  lemma FirstFails(rt: Runtime, es: Exprs, w: World)
    requires EvalArray(rt, es, w).Raised? && (es.More? ==> AllQuiet(es.tail))
    ensures es.More? && EvalExpr(rt, es.head, w) == EvalArray(rt, es, w)
  {
    hide EvalExpr;
    if es.More? && EvalExpr(rt, es.head, w).Ok? {
      AllQuietEval(rt, es.tail, EvalExpr(rt, es.head, w).w);
    }
  }

  /** A tidy expression that fails does so with the stack as it was. */
  lemma {:induction false} TidyFails(rt: Runtime, code: Code, hs: seq<int>, k: Tables, p: nat, e: Expr,
                                     stack: seq<Entry>, w: World)
    requires Describes(k, code) && CodeE(k, code.ops, p, e) && Tidy(e) && EvalExpr(rt, e, w).Raised?
    ensures var r := EvalExpr(rt, e, w); FailsAt(rt, code, hs, F(hs, p - 1, stack, w), stack, r.err, r.w)
    decreases e, 1
  {
    hide Reach, FailsAt;
    match e
    case Var(name) => RunMissing(rt, code, hs, k, p, name, stack, w);
    case Cond(op, a, b) => TidyCond(rt, code, hs, k, p, op, a, b, p + SizeE(e) - 1, stack, w);
    case Ternary(a, b, c) => TidyTernary(rt, code, hs, k, p, a, b, c, stack, w);
    case Assign(name, a) => TidyFails(rt, code, hs, k, p, a, stack, w);
    case ArrayLit(es) =>
      FirstFails(rt, es, w);
      assert CodeArray(k, code.ops, p, es);
      assert CodeAll(k, code.ops, p, es);
      TidyFails(rt, code, hs, k, p, es.head, stack, w);
    case _ => QuietEvals(rt, e, w);
  }

  lemma RunMissing(rt: Runtime, code: Code, hs: seq<int>, k: Tables, p: nat, name: string, stack: seq<Entry>, w: World)
    requires k.names == code.names && NameAt(k, code.ops, p, LOAD_CLOSE, name) && LoadVar(name, w).Raised?
    ensures var r := LoadVar(name, w); FailsAt(rt, code, hs, F(hs, p - 1, stack, w), stack, r.err, r.w)
  {
    var f, r := F(hs, p - 1, stack, w), LoadVar(name, w);
    ReachStep(rt, code, f);
    hide Reach;
    assert Step(rt, code, f) == Running(Noted(hs, p + 4, stack, r.err, r.w));
  }

  lemma {:induction false} TidyCond(rt: Runtime, code: Code, hs: seq<int>, k: Tables, p: nat, op: CondOp, a: Expr,
                                    b: Expr, end: nat, stack: seq<Entry>, w: World)
    requires Describes(k, code) && CodeCond(k, code.ops, p, op, a, b, end) && Tidy(a) && Tidy(b)
    requires EvalCond(rt, op, a, b, w).Raised?
    ensures var r := EvalCond(rt, op, a, b, w); FailsAt(rt, code, hs, F(hs, p - 1, stack, w), stack, r.err, r.w)
    decreases Cond(op, a, b), 0
  {
    hide Reach, FailsAt, CodeE, SizeE, EvalExpr, Tidy;
    var q := p + SizeE(a);
    var f := F(hs, p - 1, stack, w);
    match EvalExpr(rt, a, w)
    case Ok(x, w1) =>
      ExprRuns(rt, code, hs, k, p, a, stack, w);
      RunDecide(rt, code, hs, q, op, end, stack, x, w1);
      var g, h := F(hs, q - 1, stack + [Val(x)], w1), F(hs, q + 4, stack, w1);
      ReachTrans(rt, code, f, g, Running(h));
      TidyLink(rt, code, hs, k, q + 5, b, end, stack, w1);
      var r := EvalExpr(rt, b, w1);
      ThenFailsAt(rt, code, hs, f, h, stack, r.err, r.w);
    case _ => TidyFails(rt, code, hs, k, p, a, stack, w);
  }

  /** The right side of a condition: the next link of the chain, or an expression. */
  lemma {:induction false} TidyLink(rt: Runtime, code: Code, hs: seq<int>, k: Tables, q: nat, b: Expr, end: nat,
                                    stack: seq<Entry>, w: World)
    requires Describes(k, code) && Tidy(b) && EvalExpr(rt, b, w).Raised?
    requires if b.Cond? then CodeCond(k, code.ops, q, b.cop, b.left, b.right, end) else CodeE(k, code.ops, q, b)
    ensures var r := EvalExpr(rt, b, w); FailsAt(rt, code, hs, F(hs, q - 1, stack, w), stack, r.err, r.w)
    decreases b, 2
  {
    hide FailsAt, CodeE, CodeCond;
    if b.Cond? {
      TidyCond(rt, code, hs, k, q, b.cop, b.left, b.right, end, stack, w);
    } else {
      TidyFails(rt, code, hs, k, q, b, stack, w);
    }
  }

  lemma {:induction false} TidyTernary(rt: Runtime, code: Code, hs: seq<int>, k: Tables, p: nat, a: Expr, b: Expr,
                                       c: Expr, stack: seq<Entry>, w: World)
    requires Describes(k, code) && CodeTernary(k, code.ops, p, a, b, c) && Tidy(a) && Tidy(b) && Tidy(c)
    requires EvalTernary(rt, a, b, c, w).Raised?
    ensures var r := EvalTernary(rt, a, b, c, w); FailsAt(rt, code, hs, F(hs, p - 1, stack, w), stack, r.err, r.w)
    decreases Ternary(a, b, c), 0
  {
    hide Reach, FailsAt, CodeE, SizeE, EvalExpr, Tidy;
    var q := p + SizeE(a);
    var r := q + 5 + SizeE(b);
    var f := F(hs, p - 1, stack, w);
    match EvalExpr(rt, a, w)
    case Ok(x, w1) =>
      ExprRuns(rt, code, hs, k, p, a, stack, w);
      RunJumpFalse(rt, code, hs, q, r + 5, stack, x, w1);
      var g, next := F(hs, q - 1, stack + [Val(x)], w1), if rt.truthy(x) then q + 4 else r + 5;
      var h := F(hs, next, stack, w1);
      ReachTrans(rt, code, f, g, Running(h));
      if rt.truthy(x) {
        TidyFails(rt, code, hs, k, q + 5, b, stack, w1);
      } else {
        TidyFails(rt, code, hs, k, r + 6, c, stack, w1);
      }
      var o := EvalTernary(rt, a, b, c, w);
      ThenFailsAt(rt, code, hs, f, h, stack, o.err, o.w);
    case _ => TidyFails(rt, code, hs, k, p, a, stack, w);
  }
}

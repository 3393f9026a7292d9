/** The machine on the code of a program does what the evaluator does, and the
    other way round. */
module LankyStatements {
  import opened Sequences
  import opened LankySyntax
  import opened LankySemantics
  import opened LankyMachine
  import opened LankyLayout
  import opened LankyLeaving
  import opened LankyRuns
  import opened LankyExpressions

  /** What was on the stack still is; more may have been left on it by an error that was
      caught, if that is allowed. */
  predicate Above(stack: seq<Entry>, top: seq<Entry>, mode: Keeping) {
    stack <= top && (!mode.Loose? ==> top == stack)
  }

  ghost predicate Gets(rt: Runtime, code: Code, hs: seq<int>, mode: Keeping, f: Frame, pc: int, stack: seq<Entry>,
                       w: World) {
    exists top :: Above(stack, top, mode) && Reach(rt, code, f, Running(F(hs, pc, top, w)))
  }

  /** An error is noted, in neat code with no operand waiting. */
  ghost predicate Falls(rt: Runtime, code: Code, hs: seq<int>, mode: Keeping, f: Frame, stack: seq<Entry>, err: Error,
                        w: World) {
    Fails(rt, code, hs, f, stack, err, w) && (mode.Neat? ==> FailsAt(rt, code, hs, f, stack, err, w))
  }

  /** Running from f ends as the outcome says: behind the statement, at the marker of
      the loop it leaves or continues, with an error, or for good. A statement that runs
      out of fuel keeps the machine busy for as many turns. */
  ghost predicate Ends(rt: Runtime, code: Code, hs: seq<int>, mode: Keeping, f: Frame, pc: int, brk: int, cont: int,
                       stack: seq<Entry>, o: Outcome, fuel: nat)
  {
    match o
    case Normal(w) => Gets(rt, code, hs, mode, f, pc, stack, w)
    case Broke(w) => brk != -1 && Gets(rt, code, hs, mode, f, brk, stack, w)
    case Continued(w) => cont != -1 && Gets(rt, code, hs, mode, f, cont, stack, w)
    case Returned(v, w) => Reach(rt, code, f, LankyMachine.Finished(Answer(v, w)))
    case Threw(err, w) => Falls(rt, code, hs, mode, f, stack, err, w)
    case Died(w) => Reach(rt, code, f, LankyMachine.Finished(Crash(w)))
    case Timeout => Lasts(rt, code, f, fuel)
  }

  lemma GetsAt(rt: Runtime, code: Code, hs: seq<int>, mode: Keeping, f: Frame, pc: int, stack: seq<Entry>, w: World)
    requires Reach(rt, code, f, Running(F(hs, pc, stack, w)))
    ensures Gets(rt, code, hs, mode, f, pc, stack, w)
  {
    hide Reach;
    assert Above(stack, stack, mode);
  }

  lemma ThenGets(rt: Runtime, code: Code, hs: seq<int>, mode: Keeping, f: Frame, g: Frame, pc: int, stack: seq<Entry>,
                 w: World)
    requires Reach(rt, code, f, Running(g)) && Gets(rt, code, hs, mode, g, pc, stack, w)
    ensures Gets(rt, code, hs, mode, f, pc, stack, w)
  {
    hide Reach;
    var top :| Above(stack, top, mode) && Reach(rt, code, g, Running(F(hs, pc, top, w)));
    ReachTrans(rt, code, f, g, Running(F(hs, pc, top, w)));
  }

  lemma ThenFalls(rt: Runtime, code: Code, hs: seq<int>, mode: Keeping, f: Frame, g: Frame, stack: seq<Entry>,
                  err: Error, w: World)
    requires Reach(rt, code, f, Running(g)) && Falls(rt, code, hs, mode, g, stack, err, w)
    ensures Falls(rt, code, hs, mode, f, stack, err, w)
  {
    hide Reach, Fails, FailsAt;
    ThenFails(rt, code, hs, f, g, stack, err, w);
    if mode.Neat? {
      ThenFailsAt(rt, code, hs, f, g, stack, err, w);
    }
  }

  lemma ThenEnds(rt: Runtime, code: Code, hs: seq<int>, mode: Keeping, f: Frame, g: Frame, pc: int, brk: int, cont: int,
                 stack: seq<Entry>, o: Outcome, fuel: nat)
    requires Reach(rt, code, f, Running(g)) && Ends(rt, code, hs, mode, g, pc, brk, cont, stack, o, fuel)
    ensures Ends(rt, code, hs, mode, f, pc, brk, cont, stack, o, fuel)
  {
    hide Reach, Lasts, Gets, Falls;
    match o
    case Normal(w) => ThenGets(rt, code, hs, mode, f, g, pc, stack, w);
    case Broke(w) => ThenGets(rt, code, hs, mode, f, g, brk, stack, w);
    case Continued(w) => ThenGets(rt, code, hs, mode, f, g, cont, stack, w);
    case Returned(v, w) => ReachTrans(rt, code, f, g, LankyMachine.Finished(Answer(v, w)));
    case Threw(err, w) => ThenFalls(rt, code, hs, mode, f, g, stack, err, w);
    case Died(w) => ReachTrans(rt, code, f, g, LankyMachine.Finished(Crash(w)));
    case Timeout => ReachLasts(rt, code, f, g, fuel);
  }

  lemma GetsBelow(rt: Runtime, code: Code, hs: seq<int>, mode: Keeping, f: Frame, pc: int, stack1: seq<Entry>,
                  stack: seq<Entry>, w: World)
    requires Gets(rt, code, hs, mode, f, pc, stack1, w) && Above(stack, stack1, mode)
    ensures Gets(rt, code, hs, mode, f, pc, stack, w)
  {
    hide Reach;
    var top :| Above(stack1, top, mode) && Reach(rt, code, f, Running(F(hs, pc, top, w)));
    assert Above(stack, top, mode);
  }

  lemma EndsBelow(rt: Runtime, code: Code, hs: seq<int>, mode: Keeping, f: Frame, pc: int, brk: int, cont: int,
                  stack1: seq<Entry>, stack: seq<Entry>, o: Outcome, fuel: nat)
    requires Ends(rt, code, hs, mode, f, pc, brk, cont, stack1, o, fuel) && Above(stack, stack1, mode)
    ensures Ends(rt, code, hs, mode, f, pc, brk, cont, stack, o, fuel)
  {
    hide Reach, Lasts, Gets, Fails;
    match o
    case Normal(w) => GetsBelow(rt, code, hs, mode, f, pc, stack1, stack, w);
    case Broke(w) => GetsBelow(rt, code, hs, mode, f, brk, stack1, stack, w);
    case Continued(w) => GetsBelow(rt, code, hs, mode, f, cont, stack1, stack, w);
    case Threw(err, w) => hide FailsAt; FailsBelow(rt, code, hs, f, stack1, stack, err, w);
    case _ =>
  }

  /** The end of one piece of code is the beginning of the next, whatever is on the stack. */
  lemma GetsThen(rt: Runtime, code: Code, hs: seq<int>, mode: Keeping, f: Frame, pc1: int, w1: World, pc: int, brk: int,
                 cont: int, stack: seq<Entry>, o: Outcome, fuel: nat)
    requires Gets(rt, code, hs, mode, f, pc1, stack, w1)
    requires forall top :: Above(stack, top, mode) ==>
               Ends(rt, code, hs, mode, F(hs, pc1, top, w1), pc, brk, cont, top, o, fuel)
    ensures Ends(rt, code, hs, mode, f, pc, brk, cont, stack, o, fuel)
  {
    hide Ends, Reach;
    var top :| Above(stack, top, mode) && Reach(rt, code, f, Running(F(hs, pc1, top, w1)));
    ThenEnds(rt, code, hs, mode, f, F(hs, pc1, top, w1), pc, brk, cont, top, o, fuel);
    EndsBelow(rt, code, hs, mode, f, pc, brk, cont, top, stack, o, fuel);
  }

  lemma EndsThen(rt: Runtime, code: Code, hs: seq<int>, mode: Keeping, f: Frame, pc1: int, w1: World, pc: int, brk: int,
                 cont: int, stack: seq<Entry>, o: Outcome, fuel: nat)
    requires Ends(rt, code, hs, mode, f, pc1, brk, cont, stack, Normal(w1), fuel)
    requires forall top :: Above(stack, top, mode) ==>
               Ends(rt, code, hs, mode, F(hs, pc1, top, w1), pc, brk, cont, top, o, fuel)
    ensures Ends(rt, code, hs, mode, f, pc, brk, cont, stack, o, fuel)
  {
    hide Gets, Reach, Lasts, Fails;
    GetsThen(rt, code, hs, mode, f, pc1, w1, pc, brk, cont, stack, o, fuel);
  }

  predicate Ending(o: Outcome) {
    !o.Normal? && !o.Broke? && !o.Continued?
  }

  lemma FinalEnds(rt: Runtime, code: Code, hs: seq<int>, mode1: Keeping, mode: Keeping, f: Frame, pc1: int, brk1: int,
                  cont1: int, stack1: seq<Entry>, pc: int, brk: int, cont: int, stack: seq<Entry>, o: Outcome,
                  fuel: nat)
    requires Ends(rt, code, hs, mode1, f, pc1, brk1, cont1, stack1, o, fuel) && Ending(o) && stack <= stack1
    requires mode.Neat? ==> mode1.Neat? && stack == stack1
    ensures Ends(rt, code, hs, mode, f, pc, brk, cont, stack, o, fuel)
  {
    hide Reach, Lasts, Fails, FailsAt;
    if o.Threw? {
      FailsBelow(rt, code, hs, f, stack1, stack, o.err, o.w);
    }
  }

  lemma AbortEnds(rt: Runtime, code: Code, hs: seq<int>, mode: Keeping, f: Frame, pc1: int, stack: seq<Entry>, r: Eval,
                  pc: int, brk: int, cont: int, fuel: nat)
    requires Yields(rt, code, hs, f, pc1, stack, r) && !r.Ok?
    requires mode.Neat? && r.Raised? ==> FailsAt(rt, code, hs, f, stack, r.err, r.w)
    ensures Ends(rt, code, hs, mode, f, pc, brk, cont, stack, Abort(r), fuel)
  {}

  /** An expression that cannot be computed; in neat code, a tidy one. */
  lemma FailedEnds(rt: Runtime, code: Code, hs: seq<int>, mode: Keeping, k: Tables, p: nat, e: Expr,
                   stack: seq<Entry>, w: World, pc: int, brk: int, cont: int, fuel: nat)
    requires Describes(k, code) && CodeE(k, code.ops, p, e) && (mode.Neat? ==> Tidy(e)) && !EvalExpr(rt, e, w).Ok?
    ensures Ends(rt, code, hs, mode, F(hs, p - 1, stack, w), pc, brk, cont, stack, Abort(EvalExpr(rt, e, w)), fuel)
  {
    hide Ends, Yields, FailsAt, EvalExpr, CodeE, SizeE, Tidy;
    ExprRuns(rt, code, hs, k, p, e, stack, w);
    if mode.Neat? && EvalExpr(rt, e, w).Raised? {
      TidyFails(rt, code, hs, k, p, e, stack, w);
    }
    AbortEnds(rt, code, hs, mode, F(hs, p - 1, stack, w), p + SizeE(e) - 1, stack, EvalExpr(rt, e, w), pc, brk, cont,
              fuel);
  }

  lemma ValueThen(rt: Runtime, code: Code, hs: seq<int>, mode: Keeping, f: Frame, pc1: int, v: Value, w1: World,
                  pc: int, brk: int, cont: int, stack: seq<Entry>, o: Outcome, fuel: nat)
    requires Yields(rt, code, hs, f, pc1, stack, Ok(v, w1))
    requires Ends(rt, code, hs, mode, F(hs, pc1, stack + [Val(v)], w1), pc, brk, cont, stack, o, fuel)
    ensures Ends(rt, code, hs, mode, f, pc, brk, cont, stack, o, fuel)
  {
    hide Ends, Reach;
    ThenEnds(rt, code, hs, mode, f, F(hs, pc1, stack + [Val(v)], w1), pc, brk, cont, stack, o, fuel);
  }

  lemma ReachEnds(rt: Runtime, code: Code, hs: seq<int>, mode: Keeping, f: Frame, pc: int, brk: int, cont: int,
                  stack: seq<Entry>, w: World, fuel: nat)
    requires Reach(rt, code, f, Running(F(hs, pc, stack, w)))
    ensures Ends(rt, code, hs, mode, f, pc, brk, cont, stack, Normal(w), fuel)
  {
    GetsAt(rt, code, hs, mode, f, pc, stack, w);
  }

  /** Over a marker that may follow. */
  lemma MarkEnds(rt: Runtime, code: Code, hs: seq<int>, mode: Keeping, f: Frame, m: nat, brk: int, cont: int,
                 stack: seq<Entry>, o: Outcome, fuel: nat)
    requires Ends(rt, code, hs, mode, f, m - 1, brk, cont, stack, o, fuel) && At(code.ops, m, IGNORE)
    ensures Ends(rt, code, hs, mode, f, m, brk, cont, stack, o, fuel)
  {
    hide Reach, Lasts;
    if o.Normal? {
      var top :| Above(stack, top, mode) && Reach(rt, code, f, Running(F(hs, m - 1, top, o.w)));
      RunMark(rt, code, hs, m, top, o.w);
      ReachTrans(rt, code, f, F(hs, m - 1, top, o.w), Running(F(hs, m, top, o.w)));
    }
  }

  /** Over a forward jump that may follow. */
  lemma JumpEnds(rt: Runtime, code: Code, hs: seq<int>, mode: Keeping, f: Frame, r: nat, target: nat, brk: int,
                 cont: int, stack: seq<Entry>, o: Outcome, fuel: nat)
    requires Ends(rt, code, hs, mode, f, r - 1, brk, cont, stack, o, fuel)
    requires Wide(code.ops, r, JUMP, target) && target >= r + 5
    ensures Ends(rt, code, hs, mode, f, target, brk, cont, stack, o, fuel)
  {
    hide Reach, Lasts, Wide;
    if o.Normal? {
      var top :| Above(stack, top, mode) && Reach(rt, code, f, Running(F(hs, r - 1, top, o.w)));
      RunJump(rt, code, hs, r, target, top, o.w);
      ReachTrans(rt, code, f, F(hs, r - 1, top, o.w), Running(F(hs, target, top, o.w)));
    }
  }

  /** Labels of the loop around lie behind the code that uses them. */
  predicate Ahead(ref: int, p: nat) {
    ref == -1 || ref >= p
  }

  ghost predicate RunsS(rt: Runtime, code: Code, hs: seq<int>, mode: Keeping, p: nat, s: Stmt, brk: int, cont: int,
                        stack: seq<Entry>, w: World, fuel: nat)
  {
    Ends(rt, code, hs, mode, F(hs, p - 1, stack, w), p + SizeS(s) - 1, brk, cont, stack, ExecStmt(rt, s, w, fuel),
         fuel)
  }

  lemma {:induction false} StmtRuns(rt: Runtime, code: Code, hs: seq<int>, mode: Keeping, k: Tables, p: nat, s: Stmt,
                                    brk: int, cont: int, stack: seq<Entry>, w: World, fuel: nat)
    requires Restores(s, mode)
    requires Describes(k, code) && CodeS(k, code.ops, p, s, brk, cont)
    requires Ahead(brk, p + SizeS(s)) && Ahead(cont, p + SizeS(s))
    ensures RunsS(rt, code, hs, mode, p, s, brk, cont, stack, w, fuel)
    decreases fuel, s, 2
  {
    hide Ends, CodeS, ExecStmt, Restores;
    if s.If? || s.Loop? || s.ForIn? || s.Try? {
      CompoundRuns(rt, code, hs, mode, k, p, s, brk, cont, stack, w, fuel);
    } else {
      SimpleRuns(rt, code, hs, mode, k, p, s, brk, cont, stack, w, fuel);
    }
  }

  lemma {:induction false} CompoundRuns(rt: Runtime, code: Code, hs: seq<int>, mode: Keeping, k: Tables, p: nat,
                                        s: Stmt, brk: int, cont: int, stack: seq<Entry>, w: World, fuel: nat)
    requires Restores(s, mode)
    requires s.If? || s.Loop? || s.ForIn? || s.Try?
    requires Describes(k, code) && CodeS(k, code.ops, p, s, brk, cont)
    requires Ahead(brk, p + SizeS(s)) && Ahead(cont, p + SizeS(s))
    ensures RunsS(rt, code, hs, mode, p, s, brk, cont, stack, w, fuel)
    decreases fuel, s, 1
  {
    hide Ends, CodeIf, CodeLoop, CodeForIn, CodeTry, ExecIf, ExecLoop, ExecForIn, ExecTry, CodeE, SizeE, RestoresB,
         RestoresElse;
    match s
    case If(test, body, rest) => IfRuns(rt, code, hs, mode, k, p, test, body, rest, brk, cont, stack, w, fuel);
    case Loop(init, test, step, body) =>
      LoopRuns(rt, code, hs, mode, k, p, init, test, step, body, brk, cont, stack, w, fuel);
    case ForIn(name, index, e, body) =>
      ForInRuns(rt, code, hs, mode, k, p, name, index, e, body, brk, cont, stack, w, fuel);
    case Try(body, name, handler) => TryRuns(rt, code, hs, mode, k, p, body, name, handler, brk, cont, stack, w, fuel);
  }

  lemma SimpleRuns(rt: Runtime, code: Code, hs: seq<int>, mode: Keeping, k: Tables, p: nat, s: Stmt, brk: int,
                   cont: int, stack: seq<Entry>, w: World, fuel: nat)
    requires Restores(s, mode)
    requires !s.If? && !s.Loop? && !s.ForIn? && !s.Try?
    requires Describes(k, code) && CodeS(k, code.ops, p, s, brk, cont)
    requires Ahead(brk, p + SizeS(s)) && Ahead(cont, p + SizeS(s))
    ensures RunsS(rt, code, hs, mode, p, s, brk, cont, stack, w, fuel)
  {
    hide Ends, ExecDo, ExecPrint, ExecReturn, ExecRaise, CodeE, SizeE, CodeReturn, At;
    match s
    case Do(e) => DoRuns(rt, code, hs, mode, k, p, e, brk, cont, stack, w, fuel);
    case Print(e) => PrintRuns(rt, code, hs, mode, k, p, e, brk, cont, stack, w, fuel);
    case Return(e) => ReturnRuns(rt, code, hs, mode, k, p, e, brk, cont, stack, w, fuel);
    case Raise(e) => RaiseRuns(rt, code, hs, mode, k, p, e, brk, cont, stack, w, fuel);
    case Break => LeaveRuns(rt, code, hs, mode, k, p, true, brk, cont, stack, w, fuel);
    case Continue => LeaveRuns(rt, code, hs, mode, k, p, false, brk, cont, stack, w, fuel);
  }

  lemma DoRuns(rt: Runtime, code: Code, hs: seq<int>, mode: Keeping, k: Tables, p: nat, e: Expr, brk: int, cont: int,
               stack: seq<Entry>, w: World, fuel: nat)
    requires mode.Neat? ==> Tidy(e)
    requires Describes(k, code) && CodeE(k, code.ops, p, e) && At(code.ops, p + SizeE(e), POP)
    ensures Ends(rt, code, hs, mode, F(hs, p - 1, stack, w), p + SizeE(e), brk, cont, stack, ExecDo(rt, e, w), fuel)
  {
    hide Ends, Yields, CodeE, SizeE, EvalExpr, At, Reach;
    var f, q := F(hs, p - 1, stack, w), p + SizeE(e);
    ExprRuns(rt, code, hs, k, p, e, stack, w);
    match EvalExpr(rt, e, w)
    case Ok(v, w1) =>
      RunPop(rt, code, hs, q, stack, Val(v), w1);
      ReachEnds(rt, code, hs, mode, F(hs, q - 1, stack + [Val(v)], w1), q, brk, cont, stack, w1, fuel);
      ValueThen(rt, code, hs, mode, f, q - 1, v, w1, q, brk, cont, stack, Normal(w1), fuel);
    case r =>
      FailedEnds(rt, code, hs, mode, k, p, e, stack, w, q, brk, cont, fuel);
  }

  lemma PrintRuns(rt: Runtime, code: Code, hs: seq<int>, mode: Keeping, k: Tables, p: nat, e: Expr, brk: int, cont: int,
                  stack: seq<Entry>, w: World, fuel: nat)
    requires mode.Neat? ==> Tidy(e)
    requires Describes(k, code) && CodeE(k, code.ops, p, e) && At(code.ops, p + SizeE(e), PRINT)
    ensures Ends(rt, code, hs, mode, F(hs, p - 1, stack, w), p + SizeE(e), brk, cont, stack, ExecPrint(rt, e, w), fuel)
  {
    hide Yields, CodeE, SizeE, EvalExpr, At, Reach, Lasts, PrintValue;
    var f, q := F(hs, p - 1, stack, w), p + SizeE(e);
    ExprRuns(rt, code, hs, k, p, e, stack, w);
    match EvalExpr(rt, e, w)
    case Ok(v, w1) =>
      RunPrint(rt, code, hs, q, stack, v, w1);
      if PrintValue(rt, v, w1).Raised? {
        var r := PrintValue(rt, v, w1);
        FailsAtLeast(rt, code, hs, F(hs, q - 1, stack + [Val(v)], w1), stack, r.err, r.w);
      }
      hide Fails, FailsAt;
      var o := match PrintValue(rt, v, w1) case Ok(_, w2) => Normal(w2) case other => Abort(other);
      assert Ends(rt, code, hs, mode, F(hs, q - 1, stack + [Val(v)], w1), q, brk, cont, stack, o, fuel);
      hide Ends;
      ValueThen(rt, code, hs, mode, f, q - 1, v, w1, q, brk, cont, stack, o, fuel);
    case r =>
      hide Ends;
      FailedEnds(rt, code, hs, mode, k, p, e, stack, w, q, brk, cont, fuel);
  }

  lemma ReturnRuns(rt: Runtime, code: Code, hs: seq<int>, mode: Keeping, k: Tables, p: nat, e: Option<Expr>, brk: int,
                   cont: int, stack: seq<Entry>, w: World, fuel: nat)
    requires mode.Neat? ==> MaybeTidy(e)
    requires Describes(k, code) && CodeReturn(k, code.ops, p, e)
    ensures Ends(rt, code, hs, mode, F(hs, p - 1, stack, w), p + (if e.Some? then SizeE(e.value) else 1), brk, cont,
                 stack,
                 ExecReturn(rt, e, w), fuel)
  {
    hide Yields, CodeE, SizeE, EvalExpr, At, Reach, Lasts;
    var f := F(hs, p - 1, stack, w);
    match e
    case None =>
      RunPush(rt, code, hs, p, stack, w);
      assert Yields(rt, code, hs, f, p, stack, Ok(Nil, w));
      ValueReturns(rt, code, hs, f, p, Nil, w, stack);
    case Some(e') =>
      var q := p + SizeE(e');
      ExprRuns(rt, code, hs, k, p, e', stack, w);
      match EvalExpr(rt, e', w) {
        case Ok(v, w1) => ValueReturns(rt, code, hs, f, q - 1, v, w1, stack);
        case r => FailedEnds(rt, code, hs, mode, k, p, e', stack, w, q, brk, cont, fuel);
      }
  }

  lemma ValueReturns(rt: Runtime, code: Code, hs: seq<int>, f: Frame, pc: int, v: Value, w: World, stack: seq<Entry>)
    requires Yields(rt, code, hs, f, pc, stack, Ok(v, w)) && pc >= -1 && At(code.ops, pc + 1, RETURN)
    ensures Reach(rt, code, f, LankyMachine.Finished(Answer(v, w)))
  {
    hide Reach;
    RunReturn(rt, code, hs, pc + 1, stack, v, w);
    ReachTrans(rt, code, f, F(hs, pc, stack + [Val(v)], w), LankyMachine.Finished(Answer(v, w)));
  }

  lemma RaiseRuns(rt: Runtime, code: Code, hs: seq<int>, mode: Keeping, k: Tables, p: nat, e: Expr, brk: int, cont: int,
                  stack: seq<Entry>, w: World, fuel: nat)
    requires mode.Neat? ==> Tidy(e)
    requires Describes(k, code) && CodeE(k, code.ops, p, e) && At(code.ops, p + SizeE(e), RAISE)
    ensures Ends(rt, code, hs, mode, F(hs, p - 1, stack, w), p + SizeE(e), brk, cont, stack, ExecRaise(rt, e, w), fuel)
  {
    hide Yields, CodeE, SizeE, EvalExpr, At, Reach, Lasts;
    var f, q := F(hs, p - 1, stack, w), p + SizeE(e);
    ExprRuns(rt, code, hs, k, p, e, stack, w);
    match EvalExpr(rt, e, w)
    case Ok(v, w1) =>
      RunRaise(rt, code, hs, q, stack, v, w1);
      FailsAtLeast(rt, code, hs, F(hs, q - 1, stack + [Val(v)], w1), stack, Custom(v), w1);
      hide Fails, FailsAt;
      assert Ends(rt, code, hs, mode, F(hs, q - 1, stack + [Val(v)], w1), q, brk, cont, stack, Threw(Custom(v), w1),
                  fuel);
      hide Ends;
      ValueThen(rt, code, hs, mode, f, q - 1, v, w1, q, brk, cont, stack, Threw(Custom(v), w1), fuel);
    case r =>
      hide Ends;
      FailedEnds(rt, code, hs, mode, k, p, e, stack, w, q, brk, cont, fuel);
  }

  /** break and continue. */
  lemma LeaveRuns(rt: Runtime, code: Code, hs: seq<int>, mode: Keeping, k: Tables, p: nat, breaks: bool, brk: int,
                  cont: int, stack: seq<Entry>, w: World, fuel: nat)
    requires Describes(k, code) && JumpRef(k, code.ops, p, if breaks then brk else cont)
    requires Ahead(brk, p + 6) && Ahead(cont, p + 6)
    ensures Ends(rt, code, hs, mode, F(hs, p - 1, stack, w), p + 5, brk, cont, stack, if breaks then Broke(w)
                 else Continued(w), fuel)
  {
    var ref := if breaks then brk else cont;
    assert ref >= 0;
    RunJump(rt, code, hs, p, ref, stack, w);
    GetsAt(rt, code, hs, mode, F(hs, p - 1, stack, w), ref, stack, w);
  }

  // ----- blocks -----

  ghost predicate RunsB(rt: Runtime, code: Code, hs: seq<int>, mode: Keeping, p: nat, b: Block, brk: int, cont: int,
                        stack: seq<Entry>, w: World, fuel: nat)
  {
    Ends(rt, code, hs, mode, F(hs, p - 1, stack, w), p + SizeB(b) - 1, brk, cont, stack, ExecBlock(rt, b, w, fuel),
         fuel)
  }

  lemma {:induction false} BlockRuns(rt: Runtime, code: Code, hs: seq<int>, mode: Keeping, k: Tables, p: nat, b: Block,
                                     brk: int, cont: int, stack: seq<Entry>, w: World, fuel: nat)
    requires RestoresB(b, mode)
    requires Describes(k, code) && CodeB(k, code.ops, p, b, brk, cont)
    requires Ahead(brk, p + SizeB(b)) && Ahead(cont, p + SizeB(b))
    ensures RunsB(rt, code, hs, mode, p, b, brk, cont, stack, w, fuel)
    decreases fuel, b, 0
  {
    hide CodeS, ExecStmt, SizeS, Reach, Lasts, Restores;
    var f := F(hs, p - 1, stack, w);
    match b
    case End =>
      ReachSelf(rt, code, f);
      GetsAt(rt, code, hs, mode, f, f.pc, stack, w);
    case Then(s, rest) =>
      hide Ends;
      var q, pc := p + SizeS(s), p + SizeB(b) - 1;
      StmtRuns(rt, code, hs, mode, k, p, s, brk, cont, stack, w, fuel);
      match ExecStmt(rt, s, w, fuel) {
        case Normal(w1) =>
          forall top | Above(stack, top, mode)
            ensures Ends(rt, code, hs, mode, F(hs, q - 1, top, w1), pc, brk, cont, top,
                         ExecBlock(rt, rest, w1, fuel), fuel)
          {
            BlockRuns(rt, code, hs, mode, k, q, rest, brk, cont, top, w1, fuel);
          }
          EndsThen(rt, code, hs, mode, f, q - 1, w1, pc, brk, cont, stack, ExecBlock(rt, rest, w1, fuel), fuel);
        case o =>
          AnyEnds(rt, code, hs, mode, f, q - 1, pc, brk, cont, stack, o, fuel);
      }
  }

  lemma AnyEnds(rt: Runtime, code: Code, hs: seq<int>, mode: Keeping, f: Frame, pc1: int, pc: int, brk: int, cont: int,
                stack: seq<Entry>, o: Outcome, fuel: nat)
    requires Ends(rt, code, hs, mode, f, pc1, brk, cont, stack, o, fuel) && !o.Normal?
    ensures Ends(rt, code, hs, mode, f, pc, brk, cont, stack, o, fuel)
  {}

  // ----- if -----

  lemma NothingElse(k: Tables, ops: Ops, m: nat, brk: int, cont: int)
    ensures CodeElse(k, ops, m, NoElse, m, brk, cont) && SizeElse(NoElse) == 0
  {}

  lemma {:induction false} IfRuns(rt: Runtime, code: Code, hs: seq<int>, mode: Keeping, k: Tables, p: nat, test: Expr,
                                  body: Block, rest: Else, brk: int, cont: int, stack: seq<Entry>, w: World,
                                  fuel: nat)
    requires mode.Neat? ==> Tidy(test)
    requires RestoresB(body, mode) && RestoresElse(rest, mode)
    requires Describes(k, code) && CodeIf(k, code.ops, p, test, body, rest, brk, cont)
    requires Ahead(brk, p + SizeS(If(test, body, rest))) && Ahead(cont, p + SizeS(If(test, body, rest)))
    ensures Ends(rt, code, hs, mode, F(hs, p - 1, stack, w), p + SizeS(If(test, body, rest)) - 1, brk, cont, stack,
                 ExecIf(rt, test, body, rest, w, fuel), fuel)
    decreases fuel, If(test, body, rest), 0
  {
    hide Ends, Yields, CodeE, CodeB, CodeElse, EvalExpr, ExecBlock, ExecElse, SizeE, SizeB, SizeElse, Wide, At, Reach,
         RestoresB, RestoresElse, Restores;
    var f, q := F(hs, p - 1, stack, w), p + SizeE(test);
    var r := q + 5 + SizeB(body);
    var out := if rest.NoElse? then r else r + 5 + SizeElse(rest);
    assert out == p + SizeS(If(test, body, rest)) - 1;
    ExprRuns(rt, code, hs, k, p, test, stack, w);
    match EvalExpr(rt, test, w)
    case Ok(v, w1) =>
      var g := F(hs, q - 1, stack + [Val(v)], w1);
      var other := if rest.NoElse? then r else r + 5;
      RunJumpFalse(rt, code, hs, q, other, stack, v, w1);
      var o := ExecIf(rt, test, body, rest, w, fuel);
      if rt.truthy(v) {
        BlockRuns(rt, code, hs, mode, k, q + 5, body, brk, cont, stack, w1, fuel);
        BodyOut(rt, code, hs, mode, k, F(hs, q + 4, stack, w1), r, !rest.NoElse?, out, brk, cont, stack, o, fuel);
        ThenEnds(rt, code, hs, mode, g, F(hs, q + 4, stack, w1), out, brk, cont, stack, o, fuel);
      } else {
        NothingElse(k, code.ops, other, brk, cont);
        ElseRuns(rt, code, hs, mode, k, other, rest, out, brk, cont, stack, w1, fuel);
        ThenEnds(rt, code, hs, mode, g, F(hs, other, stack, w1), out, brk, cont, stack, o, fuel);
      }
      ValueThen(rt, code, hs, mode, f, q - 1, v, w1, out, brk, cont, stack, o, fuel);
    case x =>
      FailedEnds(rt, code, hs, mode, k, p, test, stack, w, out, brk, cont, fuel);
  }

  /** A body is left by a jump over what follows, or across the marker. */
  lemma BodyOut(rt: Runtime, code: Code, hs: seq<int>, mode: Keeping, k: Tables, f: Frame, r: nat, jumps: bool,
                out: nat, brk: int, cont: int, stack: seq<Entry>, o: Outcome, fuel: nat)
    requires Describes(k, code) && Ends(rt, code, hs, mode, f, r - 1, brk, cont, stack, o, fuel)
    requires if jumps then JumpTo(k, code.ops, r, JUMP, out) && out >= r + 5 else out == r && Mark(k, code.ops, out)
    ensures Ends(rt, code, hs, mode, f, out, brk, cont, stack, o, fuel)
  {
    hide Ends, Wide, At;
    if jumps {
      JumpEnds(rt, code, hs, mode, f, r, out, brk, cont, stack, o, fuel);
    } else {
      MarkEnds(rt, code, hs, mode, f, out, brk, cont, stack, o, fuel);
    }
  }

  /** What follows a false condition, from behind its marker to behind the last one. */
  lemma {:induction false} ElseRuns(rt: Runtime, code: Code, hs: seq<int>, mode: Keeping, k: Tables, m: nat, rest: Else,
                                    out: nat, brk: int, cont: int, stack: seq<Entry>, w: World, fuel: nat)
    requires RestoresElse(rest, mode)
    requires Describes(k, code) && CodeElse(k, code.ops, m, rest, out, brk, cont) && Mark(k, code.ops, out)
    requires out == m + SizeElse(rest) && Ahead(brk, out) && Ahead(cont, out)
    ensures Ends(rt, code, hs, mode, F(hs, m, stack, w), out, brk, cont, stack, ExecElse(rt, rest, w, fuel), fuel)
    decreases fuel, rest, 1
  {
    hide Yields, CodeE, CodeB, EvalExpr, ExecBlock, SizeE, SizeB, Wide, At, Reach, Lasts, RestoresB;
    var f := F(hs, m, stack, w);
    match rest
    case NoElse =>
      ReachSelf(rt, code, f);
      GetsAt(rt, code, hs, mode, f, f.pc, stack, w);
    case ElseBlock(body) =>
      hide Ends;
      BlockRuns(rt, code, hs, mode, k, m + 1, body, brk, cont, stack, w, fuel);
      MarkEnds(rt, code, hs, mode, f, out, brk, cont, stack, ExecBlock(rt, body, w, fuel), fuel);
    case Elif(test, body, rest') =>
      hide Ends;
      ElifRuns(rt, code, hs, mode, k, m, test, body, rest', out, brk, cont, stack, w, fuel);
  }

  lemma {:induction false} ElifRuns(rt: Runtime, code: Code, hs: seq<int>, mode: Keeping, k: Tables, m: nat, test: Expr,
                                    body: Block, rest: Else, out: nat, brk: int, cont: int, stack: seq<Entry>,
                                    w: World, fuel: nat)
    requires mode.Neat? ==> Tidy(test)
    requires RestoresB(body, mode) && RestoresElse(rest, mode)
    requires Describes(k, code) && CodeElse(k, code.ops, m, Elif(test, body, rest), out, brk, cont)
    requires Mark(k, code.ops, out)
    requires out == m + SizeElse(Elif(test, body, rest)) && Ahead(brk, out) && Ahead(cont, out)
    ensures Ends(rt, code, hs, mode, F(hs, m, stack, w), out, brk, cont, stack,
                 ExecElse(rt, Elif(test, body, rest), w, fuel), fuel)
    decreases fuel, Elif(test, body, rest), 0
  {
    hide Ends, Yields, CodeE, CodeB, EvalExpr, ExecBlock, SizeE, SizeB, Wide, At, Reach, RestoresB, RestoresElse,
         Restores;
    var f, q := F(hs, m, stack, w), m + 1 + SizeE(test);
    var r := q + 5 + SizeB(body);
    var other := if rest.NoElse? then r else r + 5;
    var o := ExecElse(rt, Elif(test, body, rest), w, fuel);
    ExprRuns(rt, code, hs, k, m + 1, test, stack, w);
    match EvalExpr(rt, test, w)
    case Ok(v, w1) =>
      var g := F(hs, q - 1, stack + [Val(v)], w1);
      RunJumpFalse(rt, code, hs, q, other, stack, v, w1);
      if rt.truthy(v) {
        BlockRuns(rt, code, hs, mode, k, q + 5, body, brk, cont, stack, w1, fuel);
        BodyOut(rt, code, hs, mode, k, F(hs, q + 4, stack, w1), r, !rest.NoElse?, out, brk, cont, stack, o, fuel);
        ThenEnds(rt, code, hs, mode, g, F(hs, q + 4, stack, w1), out, brk, cont, stack, o, fuel);
      } else {
        NothingElse(k, code.ops, other, brk, cont);
        ElseRuns(rt, code, hs, mode, k, other, rest, out, brk, cont, stack, w1, fuel);
        ThenEnds(rt, code, hs, mode, g, F(hs, other, stack, w1), out, brk, cont, stack, o, fuel);
      }
      ValueThen(rt, code, hs, mode, f, q - 1, v, w1, out, brk, cont, stack, o, fuel);
    case x =>
      FailedEnds(rt, code, hs, mode, k, m + 1, test, stack, w, out, brk, cont, fuel);
  }

  // ----- loops -----

  lemma MaybeRuns(rt: Runtime, code: Code, hs: seq<int>, mode: Keeping, k: Tables, p: nat, e: Option<Expr>, brk: int,
                  cont: int, stack: seq<Entry>, w: World, fuel: nat)
    requires mode.Neat? ==> MaybeTidy(e)
    requires Describes(k, code) && CodeMaybe(k, code.ops, p, e)
    ensures Ends(rt, code, hs, mode, F(hs, p - 1, stack, w), p + SizeMaybe(e) - 1, brk, cont, stack,
                 ExecMaybe(rt, e, w), fuel)
    ensures var o := ExecMaybe(rt, e, w); o.Normal? || Ending(o)
  {
    hide CodeE, EvalExpr, SizeE, At, Reach, Lasts;
    match e
    case None =>
      ReachSelf(rt, code, F(hs, p - 1, stack, w));
      GetsAt(rt, code, hs, mode, F(hs, p - 1, stack, w), p - 1, stack, w);
    case Some(e') => hide Ends; DoRuns(rt, code, hs, mode, k, p, e', brk, cont, stack, w, fuel);
  }

  lemma {:induction false} LoopRuns(rt: Runtime, code: Code, hs: seq<int>, mode: Keeping, k: Tables, p: nat,
                                    init: Option<Expr>, test: Expr, step: Option<Expr>, body: Block, brk: int,
                                    cont: int, stack: seq<Entry>, w: World, fuel: nat)
    requires mode.Neat? ==> MaybeTidy(init) && Tidy(test) && MaybeTidy(step)
    requires RestoresB(body, mode)
    requires Describes(k, code) && CodeLoop(k, code.ops, p, init, test, step, body)
    ensures Ends(rt, code, hs, mode, F(hs, p - 1, stack, w), p + SizeS(Loop(init, test, step, body)) - 1, brk, cont,
                 stack,
                 ExecLoop(rt, init, test, step, body, w, fuel), fuel)
    decreases fuel, Loop(init, test, step, body), 0
  {
    hide Ends, CodeMaybe, CodeRounds, ExecMaybe, ExecRounds, SizeMaybe, SizeE, SizeB, Reach, Ending, RestoresB,
         RestoresElse, Restores;
    var f, start := F(hs, p - 1, stack, w), p + SizeMaybe(init);
    var end := p + SizeS(Loop(init, test, step, body)) - 1;
    MaybeRuns(rt, code, hs, mode, k, p, init, brk, cont, stack, w, fuel);
    match ExecMaybe(rt, init, w)
    case Normal(w1) =>
      var o := ExecRounds(rt, test, step, body, w1, fuel);
      forall top | Above(stack, top, mode)
        ensures Ends(rt, code, hs, mode, F(hs, start - 1, top, w1), end, brk, cont, top, o, fuel)
      {
        RoundsRun(rt, code, hs, mode, k, start, test, step, body, brk, cont, top, w1, fuel);
      }
      EndsThen(rt, code, hs, mode, f, start - 1, w1, end, brk, cont, stack, o, fuel);
    case o =>
      FinalEnds(rt, code, hs, mode, mode, f, start - 1, brk, cont, stack, end, brk, cont, stack, o, fuel);
  }

  lemma {:induction false} RoundsRun(rt: Runtime, code: Code, hs: seq<int>, mode: Keeping, k: Tables, start: nat,
                                     test: Expr, step: Option<Expr>, body: Block, brk: int, cont: int,
                                     stack: seq<Entry>, w: World, fuel: nat)
    requires mode.Neat? ==> Tidy(test) && MaybeTidy(step)
    requires RestoresB(body, mode)
    requires Describes(k, code) && CodeRounds(k, code.ops, start, test, step, body)
    ensures Ends(rt, code, hs, mode, F(hs, start - 1, stack, w), start + SizeRounds(test, step, body) - 1, brk, cont,
                 stack,
                 ExecRounds(rt, test, step, body, w, fuel), fuel)
    decreases fuel, body, 3
  {
    hide CodeRounds, ExecNext, ExecBlock, SizeRounds, RestoresB, RestoresElse, Restores;
    if fuel == 0 {
      assert Lasts(rt, code, F(hs, start - 1, stack, w), 0);
    } else {
      RoundRuns(rt, code, hs, mode, k, start, test, step, body, brk, cont, stack, w, fuel);
    }
  }

  lemma RoundsTest(k: Tables, ops: Ops, start: nat, test: Expr, step: Option<Expr>, body: Block)
    requires k.resolved && CodeRounds(k, ops, start, test, step, body)
    ensures CodeE(k, ops, start, test)
    ensures Wide(ops, start + SizeE(test), JUMP_FALSE, start + SizeRounds(test, step, body) - 1)
  {
    hide CodeE, CodeB, CodeMaybe, Wide, At, SizeE, SizeB, SizeMaybe;
  }

  lemma {:induction false} RoundRuns(rt: Runtime, code: Code, hs: seq<int>, mode: Keeping, k: Tables, start: nat,
                                     test: Expr, step: Option<Expr>, body: Block, brk: int, cont: int,
                                     stack: seq<Entry>, w: World, fuel: nat)
    requires mode.Neat? ==> Tidy(test) && MaybeTidy(step)
    requires RestoresB(body, mode)
    requires Describes(k, code) && CodeRounds(k, code.ops, start, test, step, body) && fuel > 0
    ensures Ends(rt, code, hs, mode, F(hs, start - 1, stack, w), start + SizeRounds(test, step, body) - 1, brk, cont,
                 stack,
                 ExecRounds(rt, test, step, body, w, fuel), fuel)
    decreases fuel, body, 2
  {
    hide Ends, Yields, CodeE, CodeRounds, EvalExpr, ExecBlock, ExecNext, SizeE, SizeB, SizeMaybe, At, Reach, RestoresB,
         RestoresElse, Restores;
    var f, q := F(hs, start - 1, stack, w), start + SizeE(test);
    var end := start + SizeRounds(test, step, body) - 1;
    var o := ExecRounds(rt, test, step, body, w, fuel);
    RoundsTest(k, code.ops, start, test, step, body);
    ExprRuns(rt, code, hs, k, start, test, stack, w);
    match EvalExpr(rt, test, w)
    case Ok(v, w1) =>
      var g := F(hs, q - 1, stack + [Val(v)], w1);
      RunJumpFalse(rt, code, hs, q, end, stack, v, w1);
      if rt.truthy(v) {
        BodyRuns(rt, code, hs, mode, k, start, test, step, body, brk, cont, stack, w1, fuel);
        ThenEnds(rt, code, hs, mode, g, F(hs, q + 4, stack, w1), end, brk, cont, stack, o, fuel);
      } else {
        ReachEnds(rt, code, hs, mode, g, end, brk, cont, stack, w1, fuel);
      }
      ValueThen(rt, code, hs, mode, f, q - 1, v, w1, end, brk, cont, stack, o, fuel);
    case x =>
      FailedEnds(rt, code, hs, mode, k, start, test, stack, w, end, brk, cont, fuel);
  }

  /** What a loop does with the outcome of its body. */
  function AfterBody(rt: Runtime, test: Expr, step: Option<Expr>, body: Block, o: Outcome, fuel: nat): Outcome
    requires fuel > 0
  {
    match o
    case Normal(w2) => ExecNext(rt, test, step, body, w2, fuel)
    case Continued(w2) => ExecNext(rt, test, step, body, w2, fuel)
    case Broke(w2) => Normal(w2)
    case other => other
  }

  lemma {:induction false} BodyRuns(rt: Runtime, code: Code, hs: seq<int>, mode: Keeping, k: Tables, start: nat,
                                    test: Expr, step: Option<Expr>, body: Block, brk: int, cont: int,
                                    stack: seq<Entry>, w1: World, fuel: nat)
    requires mode.Neat? ==> Tidy(test) && MaybeTidy(step)
    requires RestoresB(body, mode)
    requires Describes(k, code) && CodeRounds(k, code.ops, start, test, step, body) && fuel > 0
    ensures Ends(rt, code, hs, mode, F(hs, start + SizeE(test) + 4, stack, w1),
                 start + SizeRounds(test, step, body) - 1, brk, cont,
                 stack, AfterBody(rt, test, step, body, ExecBlock(rt, body, w1, fuel), fuel), fuel)
    decreases fuel, body, 1
  {
    hide CodeE, CodeB, CodeMaybe, ExecBlock, ExecNext, SizeE, SizeB, SizeMaybe, Reach, Lasts, Wide, At, RestoresB,
         RestoresElse, Restores;
    var f, m := F(hs, start + SizeE(test) + 4, stack, w1), start + SizeE(test) + 5 + SizeB(body);
    var end := start + SizeRounds(test, step, body) - 1;
    var o := ExecBlock(rt, body, w1, fuel);
    BlockRuns(rt, code, hs, mode, k, start + SizeE(test) + 5, body, end, m, stack, w1, fuel);
    MarkEnds(rt, code, hs, mode, f, m, end, m, stack, o, fuel);
    if o.Normal? || o.Continued? {
      var o1 := ExecNext(rt, test, step, body, o.w, fuel);
      assert Gets(rt, code, hs, mode, f, m, stack, o.w);
      hide Ends;
      forall top | Above(stack, top, mode)
        ensures Ends(rt, code, hs, mode, F(hs, m, top, o.w), end, brk, cont, top, o1, fuel)
      {
        NextRuns(rt, code, hs, mode, k, start, test, step, body, brk, cont, top, o.w, fuel);
      }
      GetsThen(rt, code, hs, mode, f, m, o.w, end, brk, cont, stack, o1, fuel);
    }
  }

  /** From behind the continue marker: the step, the jump back, the next round. */
  lemma {:induction false} NextRuns(rt: Runtime, code: Code, hs: seq<int>, mode: Keeping, k: Tables, start: nat,
                                    test: Expr, step: Option<Expr>, body: Block, brk: int, cont: int,
                                    stack: seq<Entry>, w: World, fuel: nat)
    requires mode.Neat? ==> Tidy(test) && MaybeTidy(step)
    requires RestoresB(body, mode)
    requires Describes(k, code) && CodeRounds(k, code.ops, start, test, step, body) && fuel > 0
    ensures Ends(rt, code, hs, mode, F(hs, start + SizeE(test) + 5 + SizeB(body), stack, w),
                 start + SizeRounds(test, step, body) - 1,
                 brk, cont, stack, ExecNext(rt, test, step, body, w, fuel), fuel)
    decreases fuel, body, 0
  {
    hide Ends, CodeE, CodeB, CodeMaybe, ExecMaybe, ExecRounds, SizeE, SizeB, SizeMaybe, Wide, At, Reach, Ending,
         RestoresB, RestoresElse, Restores;
    var m := start + SizeE(test) + 5 + SizeB(body);
    var j, end := m + 1 + SizeMaybe(step), start + SizeRounds(test, step, body) - 1;
    var f := F(hs, m, stack, w);
    MaybeRuns(rt, code, hs, mode, k, m + 1, step, brk, cont, stack, w, fuel);
    match ExecMaybe(rt, step, w)
    case Normal(w1) =>
      var o1 := ExecRounds(rt, test, step, body, w1, fuel - 1);
      forall top | Above(stack, top, mode)
        ensures Ends(rt, code, hs, mode, F(hs, j - 1, top, w1), end, brk, cont, top, o1, fuel)
      {
        RunJump(rt, code, hs, j, start, top, w1);
        RoundsRun(rt, code, hs, mode, k, start, test, step, body, brk, cont, top, w1, fuel - 1);
        BackEnds(rt, code, hs, mode, F(hs, j - 1, top, w1), F(hs, start - 1, top, w1), end, brk, cont, top, o1, fuel);
      }
      EndsThen(rt, code, hs, mode, f, j - 1, w1, end, brk, cont, stack, o1, fuel);
    case o =>
      FinalEnds(rt, code, hs, mode, mode, f, j - 1, brk, cont, stack, end, brk, cont, stack, o, fuel);
  }

  /** The jump back costs a turn, which pays for the fuel of a round. */
  lemma BackEnds(rt: Runtime, code: Code, hs: seq<int>, mode: Keeping, f: Frame, g: Frame, pc: int, brk: int, cont: int,
                 stack: seq<Entry>, o: Outcome, fuel: nat)
    requires fuel > 0 && Step(rt, code, f) == Running(g)
             && Ends(rt, code, hs, mode, g, pc, brk, cont, stack, o, fuel - 1)
    ensures Ends(rt, code, hs, mode, f, pc, brk, cont, stack, o, fuel)
  {
    ReachStep(rt, code, f);
    hide Reach, Lasts, Step;
    if o.Timeout? {
      StepLasts(rt, code, f, g, fuel - 1);
    } else {
      ThenEnds(rt, code, hs, mode, f, g, pc, brk, cont, stack, o, fuel);
    }
  }

  // ----- for in -----

  lemma {:induction false} ForInRuns(rt: Runtime, code: Code, hs: seq<int>, mode: Keeping, k: Tables, p: nat,
                                     name: string, index: Option<string>, e: Expr, body: Block, brk: int, cont: int,
                                     stack: seq<Entry>, w: World, fuel: nat)
    requires RestoresB(body, Exact) && !mode.Neat?
    requires Describes(k, code) && CodeForIn(k, code.ops, p, name, index, e, body)
    ensures Ends(rt, code, hs, mode, F(hs, p - 1, stack, w), p + SizeS(ForIn(name, index, e, body)) - 1, brk, cont,
                 stack,
                 ExecForIn(rt, name, index, e, body, w, fuel), fuel)
    decreases fuel, ForIn(name, index, e, body), 0
  {
    hide Yields, CodeE, CodeItems, EvalExpr, ExecItems, SizeE, SizeB, SizeItem, At, Reach, Lasts, IterableOf,
         RestoresB, RestoresElse, Restores;
    var f, q := F(hs, p - 1, stack, w), p + SizeE(e);
    var end := p + SizeS(ForIn(name, index, e, body)) - 1;
    ExprRuns(rt, code, hs, k, p, e, stack, w);
    match EvalExpr(rt, e, w)
    case Ok(v, w1) =>
      var g := F(hs, q - 1, stack + [Val(v)], w1);
      RunMakeIter(rt, code, hs, q, stack, v, w1);
      var o := ExecForIn(rt, name, index, e, body, w, fuel);
      match IterableOf(rt, v, w1) {
        case Ok(a, w2) =>
          hide Ends;
          ItemsRun(rt, code, hs, mode, k, q + 1, name, index, a.addr, 0, body, brk, cont, stack, w2, fuel);
          ThenEnds(rt, code, hs, mode, g, F(hs, q, stack + [Iter(a.addr, 0)], w2), end, brk, cont, stack, o, fuel);
        case other =>
      }
      hide Ends;
      ValueThen(rt, code, hs, mode, f, q - 1, v, w1, end, brk, cont, stack, o, fuel);
    case x =>
      hide Ends;
      FailedEnds(rt, code, hs, mode, k, p, e, stack, w, end, brk, cont, fuel);
  }

  /** The loop, with the iterator on the stack; it ends with the iterator gone. */
  lemma {:induction false} ItemsRun(rt: Runtime, code: Code, hs: seq<int>, mode: Keeping, k: Tables, n: nat,
                                    name: string, index: Option<string>, a: nat, i: nat, body: Block, brk: int,
                                    cont: int, stack: seq<Entry>, w: World, fuel: nat)
    requires RestoresB(body, Exact) && !mode.Neat?
    requires Describes(k, code) && CodeItems(k, code.ops, n, name, index, body)
    ensures Ends(rt, code, hs, mode, F(hs, n - 1, stack + [Iter(a, i)], w), n + 5 + SizeItem(index) + SizeB(body)
                 + 7, brk, cont, stack,
                 ExecItems(rt, name, index, a, i, body, w, fuel), fuel)
    decreases fuel, body, 2
  {
    hide CodeItems, ExecBlock, SizeB, SizeItem, BindItem, RestoresB, RestoresElse, Restores;
    if fuel == 0 {
      assert Lasts(rt, code, F(hs, n - 1, stack + [Iter(a, i)], w), 0);
    } else if a < |w.arrays| && i < |w.arrays[a]| {
      hide Ends, ExecItems;
      ItemRuns(rt, code, hs, mode, k, n, name, index, a, i, body, brk, cont, stack, w, fuel);
    } else {
      hide Ends;
      NoItem(rt, code, hs, mode, k, n, name, index, a, i, body, brk, cont, stack, w, fuel);
    }
  }

  /** The end of the array, as it is by then. */
  lemma NoItem(rt: Runtime, code: Code, hs: seq<int>, mode: Keeping, k: Tables, n: nat, name: string,
               index: Option<string>, a: nat, i: nat, body: Block, brk: int, cont: int, stack: seq<Entry>, w: World,
               fuel: nat)
    requires Describes(k, code) && CodeItems(k, code.ops, n, name, index, body)
    requires a < |w.arrays| ==> i >= |w.arrays[a]|
    ensures Ends(rt, code, hs, mode, F(hs, n - 1, stack + [Iter(a, i)], w), n + 5 + SizeItem(index) + SizeB(body)
                 + 7, brk, cont, stack,
                 if a < |w.arrays| then Normal(w) else Died(w), fuel)
  {
    hide CodeB, CodeItem, SizeB, SizeItem, Wide, At, Step, Lasts;
    var f, m := F(hs, n - 1, stack + [Iter(a, i)], w), n + 5 + SizeItem(index) + SizeB(body);
    RunNextIter(rt, code, hs, n, m + 6, stack, a, i, w);
    ReachStep(rt, code, f);
    hide Reach;
    if a < |w.arrays| {
      RunPop(rt, code, hs, m + 7, stack, Iter(a, i), w);
      ReachTrans(rt, code, f, F(hs, m + 6, stack + [Iter(a, i)], w), Running(F(hs, m + 7, stack, w)));
      GetsAt(rt, code, hs, mode, f, m + 7, stack, w);
    }
  }

  /** Storing the element and its position. */
  lemma BindRuns(rt: Runtime, code: Code, hs: seq<int>, k: Tables, p: nat, name: string, index: Option<string>,
                 a: nat, i: nat, v: Value, stack: seq<Entry>, w: World)
    requires Describes(k, code) && CodeItem(k, code.ops, p, name, index)
    ensures Reach(rt, code, F(hs, p - 1, stack + [Iter(a, i + 1)] + [Val(v)], w),
                  Running(F(hs, p + SizeItem(index) - 1, stack + [Iter(a, i + 1)], BindItem(name, index, v, i, w))))
  {
    hide Reach, NameAt, At, SaveVar;
    var stack1 := stack + [Iter(a, i + 1)];
    var f, w1 := F(hs, p - 1, stack1 + [Val(v)], w), SaveVar(name, v, w);
    RunSave(rt, code, hs, k, p, name, stack1, v, w);
    RunPop(rt, code, hs, p + 5, stack1, Val(v), w1);
    ReachTrans(rt, code, f, F(hs, p + 4, stack1 + [Val(v)], w1), Running(F(hs, p + 5, stack1, w1)));
    if index.Some? {
      var w2 := SaveVar(index.value, Int(i), w1);
      var g := F(hs, p + 5, stack1, w1);
      RunIterIndex(rt, code, hs, p + 6, stack, a, i, w1);
      RunSave(rt, code, hs, k, p + 7, index.value, stack1, Int(i), w1);
      RunPop(rt, code, hs, p + 12, stack1, Val(Int(i)), w2);
      ReachTrans(rt, code, F(hs, p + 6, stack1 + [Val(Int(i))], w1), F(hs, p + 11, stack1 + [Val(Int(i))], w2),
                 Running(F(hs, p + 12, stack1, w2)));
      ReachTrans(rt, code, g, F(hs, p + 6, stack1 + [Val(Int(i))], w1), Running(F(hs, p + 12, stack1, w2)));
      ReachTrans(rt, code, f, g, Running(F(hs, p + 12, stack1, w2)));
    }
  }

  lemma {:induction false} ItemRuns(rt: Runtime, code: Code, hs: seq<int>, mode: Keeping, k: Tables, n: nat,
                                    name: string, index: Option<string>, a: nat, i: nat, body: Block, brk: int,
                                    cont: int, stack: seq<Entry>, w: World, fuel: nat)
    requires RestoresB(body, Exact) && !mode.Neat?
    requires Describes(k, code) && CodeItems(k, code.ops, n, name, index, body)
    requires fuel > 0 && a < |w.arrays| && i < |w.arrays[a]|
    ensures Ends(rt, code, hs, mode, F(hs, n - 1, stack + [Iter(a, i)], w), n + 5 + SizeItem(index) + SizeB(body)
                 + 7, brk, cont, stack,
                 ExecItems(rt, name, index, a, i, body, w, fuel), fuel)
    decreases fuel, body, 1
  {
    hide Ends, CodeB, CodeItem, ExecBlock, SizeB, SizeItem, Wide, At, BindItem, Reach, Step, RestoresB, RestoresElse,
         Restores;
    var b := n + 5 + SizeItem(index);
    var m := b + SizeB(body);
    var stack1, v := stack + [Iter(a, i + 1)], w.arrays[a][i];
    var w1 := BindItem(name, index, v, i, w);
    var e, f, g := F(hs, n - 1, stack + [Iter(a, i)], w), F(hs, n + 4, stack1 + [Val(v)], w), F(hs, b - 1, stack1, w1);
    var o := ExecBlock(rt, body, w1, fuel);
    RunNextIter(rt, code, hs, n, m + 6, stack, a, i, w);
    ReachStep(rt, code, e);
    BindRuns(rt, code, hs, k, n + 5, name, index, a, i, v, stack, w);
    ReachTrans(rt, code, e, f, Running(g));
    BlockRuns(rt, code, hs, Exact, k, b, body, m + 6, m, stack1, w1, fuel);
    MarkEnds(rt, code, hs, Exact, g, m, m + 6, m, stack1, o, fuel);
    ItemGoesOn(rt, code, hs, mode, k, n, name, index, a, i, body, brk, cont, stack, w1, o, fuel);
    ThenEnds(rt, code, hs, mode, e, g, m + 7, brk, cont, stack, ExecItems(rt, name, index, a, i, body, w, fuel), fuel);
  }

  function AfterItem(rt: Runtime, name: string, index: Option<string>, a: nat, i: nat, body: Block, o: Outcome,
                     fuel: nat): Outcome
    requires fuel > 0
  {
    match o
    case Normal(w2) => ExecItems(rt, name, index, a, i + 1, body, w2, fuel - 1)
    case Continued(w2) => ExecItems(rt, name, index, a, i + 1, body, w2, fuel - 1)
    case Broke(w2) => Normal(w2)
    case other => other
  }

  lemma {:induction false} ItemGoesOn(rt: Runtime, code: Code, hs: seq<int>, mode: Keeping, k: Tables, n: nat,
                                      name: string, index: Option<string>, a: nat, i: nat, body: Block, brk: int,
                                      cont: int, stack: seq<Entry>, w1: World, o: Outcome, fuel: nat)
    requires RestoresB(body, Exact) && !mode.Neat?
    requires Describes(k, code) && CodeItems(k, code.ops, n, name, index, body) && fuel > 0
    requires var b := n + 5 + SizeItem(index);
             var m := b + SizeB(body);
             Ends(rt, code, hs, Exact, F(hs, b - 1, stack + [Iter(a, i + 1)], w1), m, m + 6, m,
                  stack + [Iter(a, i + 1)], o, fuel)
    ensures var b := n + 5 + SizeItem(index);
            var m := b + SizeB(body);
            Ends(rt, code, hs, mode, F(hs, b - 1, stack + [Iter(a, i + 1)], w1), m + 7, brk, cont, stack,
                 AfterItem(rt, name, index, a, i, body, o, fuel), fuel)
    decreases fuel, body, 0
  {
    hide CodeB, CodeItem, ExecItems, SizeB, SizeItem, Wide, At, Reach, Lasts, RestoresB, RestoresElse, Restores;
    var b := n + 5 + SizeItem(index);
    var m := b + SizeB(body);
    var stack1 := stack + [Iter(a, i + 1)];
    var f := F(hs, b - 1, stack1, w1);
    if o.Normal? || o.Continued? {
      var g := F(hs, m, stack1, o.w);
      var o1 := ExecItems(rt, name, index, a, i + 1, body, o.w, fuel - 1);
      assert Reach(rt, code, f, Running(g));
      hide Ends;
      RunJump(rt, code, hs, m + 1, n, stack1, o.w);
      ItemsRun(rt, code, hs, mode, k, n, name, index, a, i + 1, body, brk, cont, stack, o.w, fuel - 1);
      BackEnds(rt, code, hs, mode, g, F(hs, n - 1, stack1, o.w), m + 7, brk, cont, stack, o1, fuel);
      ThenEnds(rt, code, hs, mode, f, g, m + 7, brk, cont, stack, o1, fuel);
    } else if o.Broke? {
      RunPop(rt, code, hs, m + 7, stack, Iter(a, i + 1), o.w);
      ReachTrans(rt, code, f, F(hs, m + 6, stack1, o.w), Running(F(hs, m + 7, stack, o.w)));
      GetsAt(rt, code, hs, mode, f, m + 7, stack, o.w);
    } else {
      FinalEnds(rt, code, hs, Exact, mode, f, m, m + 6, m, stack1, m + 7, brk, cont, stack, o, fuel);
    }
  }

  // ----- try -----

  /** Entering and leaving the block, and the way from an error to the handler. */
  lemma {:induction false} TryRuns(rt: Runtime, code: Code, hs: seq<int>, mode: Keeping, k: Tables, p: nat, body: Block,
                                   name: string, handler: Block, brk: int, cont: int, stack: seq<Entry>, w: World,
                                   fuel: nat)
    requires StaysB(body, false) && RestoresB(body, InTry(mode)) && RestoresB(handler, mode)
    requires Describes(k, code) && CodeTry(k, code.ops, p, body, name, handler, brk, cont)
    requires Ahead(brk, p + SizeS(Try(body, name, handler))) && Ahead(cont, p + SizeS(Try(body, name, handler)))
    ensures Ends(rt, code, hs, mode, F(hs, p - 1, stack, w), p + SizeS(Try(body, name, handler)) - 1, brk, cont, stack,
                 ExecTry(rt, body, name, handler, w, fuel), fuel)
    decreases fuel, Try(body, name, handler), 0
  {
    hide Ends, CodeB, CodeTryAt, ExecBlock, SizeB, Reach, RestoresB, StaysB, SaveVar;
    var r := p + 5 + SizeB(body);
    var c := r + 6;
    var out := c + 7 + SizeB(handler);
    var f, g, o := F(hs, p - 1, stack, w), F(hs + [c], p + 4, stack, w), ExecBlock(rt, body, w, fuel);
    RunPushCatch(rt, code, hs, k, p, r, c, out, name, stack, w);
    LeavesNotB(k, code.ops, p + 5, body, brk, cont);
    BlockRuns(rt, code, hs + [c], InTry(mode), k, p + 5, body, -1, -1, stack, w, fuel);
    if o.Threw? {
      var w1 := SaveVar(name, Exception(o.err), o.w);
      forall top | Above(stack, top, mode)
        ensures Ends(rt, code, hs, mode, F(hs, c + 6, top, w1), out, brk, cont, top,
                     ExecBlock(rt, handler, w1, fuel), fuel)
      {
        BlockRuns(rt, code, hs, mode, k, c + 7, handler, brk, cont, top, w1, fuel);
        TryMarkEnds(rt, code, hs, mode, k, F(hs, c + 6, top, w1), p, r, c, out, name, brk, cont, top,
                    ExecBlock(rt, handler, w1, fuel), fuel);
      }
      Caught(rt, code, hs, mode, k, g, p, r, c, out, name, stack, o, fuel);
      GetsThen(rt, code, hs, mode, g, c + 6, w1, out, brk, cont, stack, ExecBlock(rt, handler, w1, fuel), fuel);
    } else {
      LeaveTry(rt, code, hs, mode, k, g, p, r, c, out, name, brk, cont, stack, o, fuel);
    }
    ThenEnds(rt, code, hs, mode, f, g, out, brk, cont, stack, ExecTry(rt, body, name, handler, w, fuel), fuel);
  }

  lemma TryMarkEnds(rt: Runtime, code: Code, hs: seq<int>, mode: Keeping, k: Tables, f: Frame, p: nat, r: nat, c: nat,
                    out: nat, name: string, brk: int, cont: int, stack: seq<Entry>, o: Outcome, fuel: nat)
    requires Describes(k, code) && CodeTryAt(k, code.ops, p, r, c, out, name)
    requires Ends(rt, code, hs, mode, f, out - 1, brk, cont, stack, o, fuel)
    ensures Ends(rt, code, hs, mode, f, out, brk, cont, stack, o, fuel)
  {
    hide Ends, Wide, NameAt;
    MarkEnds(rt, code, hs, mode, f, out, brk, cont, stack, o, fuel);
  }

  lemma RunPushCatch(rt: Runtime, code: Code, hs: seq<int>, k: Tables, p: nat, r: nat, c: nat, out: nat, name: string,
                     stack: seq<Entry>, w: World)
    requires Describes(k, code) && CodeTryAt(k, code.ops, p, r, c, out, name)
    ensures Reach(rt, code, F(hs, p - 1, stack, w), Running(F(hs + [c], p + 4, stack, w)))
  {
    ReachStep(rt, code, F(hs, p - 1, stack, w));
  }

  /** A block that ends without an error gives up its handler and jumps over the other. */
  lemma LeaveTry(rt: Runtime, code: Code, hs: seq<int>, mode: Keeping, k: Tables, g: Frame, p: nat, r: nat, c: nat,
                 out: nat, name: string, brk: int, cont: int, stack: seq<Entry>, o: Outcome, fuel: nat)
    requires Describes(k, code) && CodeTryAt(k, code.ops, p, r, c, out, name) && out >= r + 6
    requires Ends(rt, code, hs + [c], InTry(mode), g, r - 1, -1, -1, stack, o, fuel) && !o.Threw?
    ensures Ends(rt, code, hs, mode, g, out, brk, cont, stack, o, fuel)
  {
    hide Reach, Lasts, Wide, NameAt;
    if o.Normal? {
      var top :| Above(stack, top, InTry(mode)) && Reach(rt, code, g, Running(F(hs + [c], r - 1, top, o.w)));
      assert Above(stack, top, mode);
      RunPopCatch(rt, code, hs, r, c, top, o.w);
      RunJump(rt, code, hs, r + 1, out, top, o.w);
      ReachTrans(rt, code, F(hs + [c], r - 1, top, o.w), F(hs, r, top, o.w), Running(F(hs, out, top, o.w)));
      ReachTrans(rt, code, g, F(hs + [c], r - 1, top, o.w), Running(F(hs, out, top, o.w)));
    }
  }

  lemma RunPopCatch(rt: Runtime, code: Code, hs: seq<int>, r: nat, c: int, stack: seq<Entry>, w: World)
    requires At(code.ops, r, POP_CATCH)
    ensures Reach(rt, code, F(hs + [c], r - 1, stack, w), Running(F(hs, r, stack, w)))
  {
    assert (hs + [c])[..|hs|] == hs;
    ReachStep(rt, code, F(hs + [c], r - 1, stack, w));
  }

  /** An error inside goes to the innermost handler, with the error on top of whatever the
      block had on the stack; there it gets its name. */
  lemma Caught(rt: Runtime, code: Code, hs: seq<int>, mode: Keeping, k: Tables, g: Frame, p: nat, r: nat, c: nat,
               out: nat, name: string, stack: seq<Entry>, o: Outcome, fuel: nat)
    requires Describes(k, code) && CodeTryAt(k, code.ops, p, r, c, out, name)
    requires Ends(rt, code, hs + [c], InTry(mode), g, r - 1, -1, -1, stack, o, fuel) && o.Threw?
    ensures Gets(rt, code, hs, mode, g, c + 6, stack, SaveVar(name, Exception(o.err), o.w))
  {
    hide Reach, CodeTryAt, SaveVar;
    var pc, top :| Above(stack, top, mode) && Reach(rt, code, g, Running(Noted(hs + [c], pc, top, o.err, o.w)));
    CaughtAt(rt, code, hs, k, p, r, c, out, name, pc, top, o.err, o.w);
    ReachTrans(rt, code, g, Noted(hs + [c], pc, top, o.err, o.w),
               Running(F(hs, c + 6, top, SaveVar(name, Exception(o.err), o.w))));
  }

  /** What was on the stack when the error was noted is what the handler starts with, so the
      stack is as it was at the entry of the block exactly if no operand was pending. */
  lemma CaughtAt(rt: Runtime, code: Code, hs: seq<int>, k: Tables, p: nat, r: nat, c: nat, out: nat, name: string,
                 pc: int, top: seq<Entry>, err: Error, w: World)
    requires Describes(k, code) && CodeTryAt(k, code.ops, p, r, c, out, name)
    ensures Reach(rt, code, Noted(hs + [c], pc, top, err, w),
                  Running(F(hs, c + 6, top, SaveVar(name, Exception(err), w))))
  {
    hide Reach, Wide, NameAt, SaveVar;
    var v, f := Exception(err), Noted(hs + [c], pc, top, err, w);
    var w1 := SaveVar(name, v, w);
    RunCatch(rt, code, hs, pc, c, top, err, w);
    RunSave(rt, code, hs, k, c + 1, name, top, v, w);
    RunPop(rt, code, hs, c + 6, top, Val(v), w1);
    ReachTrans(rt, code, F(hs, c, top + [Val(v)], w), F(hs, c + 5, top + [Val(v)], w1), Running(F(hs, c + 6, top, w1)));
    ReachTrans(rt, code, f, F(hs, c, top + [Val(v)], w), Running(F(hs, c + 6, top, w1)));
  }

  /** None is for a raise: a block that only raises what it says leaves the stack as it was. */
  lemma RaiseRestores(rt: Runtime, code: Code, hs: seq<int>, k: Tables, q: nat, e: Expr, v: Value, stack: seq<Entry>,
                      w: World, w1: World, p: nat, r: nat, c: nat, out: nat, name: string)
    requires Describes(k, code) && CodeE(k, code.ops, q, e) && At(code.ops, q + SizeE(e), RAISE)
    requires CodeTryAt(k, code.ops, p, r, c, out, name) && EvalExpr(rt, e, w) == Ok(v, w1)
    ensures Reach(rt, code, F(hs + [c], q - 1, stack, w),
                  Running(F(hs, c + 6, stack, SaveVar(name, Exception(Custom(v)), w1))))
  {
    hide CodeE, SizeE, EvalExpr, CodeTryAt, SaveVar;
    var f, g := F(hs + [c], q - 1, stack, w), F(hs + [c], q + SizeE(e) - 1, stack + [Val(v)], w1);
    var h := Noted(hs + [c], q + SizeE(e), stack, Custom(v), w1);
    ExprRuns(rt, code, hs + [c], k, q, e, stack, w);
    assert Holds(g, 1) && Top(g, 0) == v && Drop(g, 1) == stack;
    ReachStep(rt, code, g);
    CaughtAt(rt, code, hs, k, p, r, c, out, name, q + SizeE(e), stack, Custom(v), w1);
    hide Reach, Step;
    var s := Running(F(hs, c + 6, stack, SaveVar(name, Exception(Custom(v)), w1)));
    ReachTrans(rt, code, g, h, s);
    ReachTrans(rt, code, f, g, s);
  }

  lemma RunCatch(rt: Runtime, code: Code, hs: seq<int>, pc: int, c: int, top: seq<Entry>, err: Error, w: World)
    ensures Reach(rt, code, Noted(hs + [c], pc, top, err, w), Running(F(hs, c, top + [Val(Exception(err))], w)))
  {
    assert (hs + [c])[..|hs|] == hs;
    ReachStep(rt, code, Noted(hs + [c], pc, top, err, w));
  }

  // ----- programs -----

  lemma {:induction false} NeverFallsThrough(rt: Runtime, b: Block, w: World, fuel: nat)
    requires EndsInReturn(b)
    ensures !ExecBlock(rt, b, w, fuel).Normal?
    decreases b
  {
    if !b.rest.End? && ExecStmt(rt, b.first, w, fuel).Normal? {
      NeverFallsThrough(rt, b.rest, ExecStmt(rt, b.first, w, fuel).w, fuel);
    }
  }

  /** With enough fuel the machine stops as the evaluator says; without, it is still
      running after as many turns as there was fuel. */
  lemma ProgramRuns(rt: Runtime, code: Code, b: Block, w: World, fuel: nat)
    requires RestoresB(b, Loose) && CodeProgram(Tables(true, code.constants, code.names), code.ops, b)
    ensures match RunProgram(rt, b, w, fuel)
            case Some(r) => Reach(rt, code, Start(w), LankyMachine.Finished(r))
            case None => Lasts(rt, code, Start(w), fuel)
  {
    hide CodeB, ExecBlock, SizeB, At, Reach, Lasts, Fails;
    var k, n := Tables(true, code.constants, code.names), SizeB(b);
    BlockRuns(rt, code, [], Loose, k, 0, b, -1, -1, [], w, fuel);
    var o := ExecBlock(rt, b, w, fuel);
    if o.Normal? {
      if EndsInReturn(b) {
        NeverFallsThrough(rt, b, w, fuel);
        assert false;
      } else {
        var top :| Above([], top, Loose) && Reach(rt, code, Start(w), Running(F([], SizeB(b) - 1, top, o.w)));
        var g := F([], SizeB(b) - 1, top, o.w);
        RunPush(rt, code, [], n, top, o.w);
        ValueReturns(rt, code, [], g, n, Nil, o.w, top);
        ReachTrans(rt, code, Start(w), g, LankyMachine.Finished(Answer(Nil, o.w)));
      }
    } else if o.Threw? {
      FailsEnds(rt, code, Start(w), [], o.err, o.w);
    }
  }

  lemma OneEnd(rt: Runtime, code: Code, f: Frame, r1: LankySemantics.Final, r2: LankySemantics.Final)
    requires Reach(rt, code, f, LankyMachine.Finished(r1)) && Reach(rt, code, f, LankyMachine.Finished(r2))
    ensures r1 == r2
  {
    var m: nat :| Run(rt, code, Running(f), m) == LankyMachine.Finished(r1);
    var n: nat :| Run(rt, code, Running(f), n) == LankyMachine.Finished(r2);
    if m <= n {
      RunMore(rt, code, Running(f), m, n - m);
    } else {
      RunMore(rt, code, Running(f), n, m - n);
    }
  }

  /** The machine stops with a result exactly when the program has that result. */
  lemma ProgramMeans(rt: Runtime, code: Code, b: Block, w: World, r: LankySemantics.Final)
    requires RestoresB(b, Loose) && CodeProgram(Tables(true, code.constants, code.names), code.ops, b)
    ensures Reach(rt, code, Start(w), LankyMachine.Finished(r))
            <==> exists fuel: nat :: RunProgram(rt, b, w, fuel) == Some(r)
  {
    hide CodeProgram, RunProgram;
    if Reach(rt, code, Start(w), LankyMachine.Finished(r)) {
      var n: nat :| Run(rt, code, Running(Start(w)), n) == LankyMachine.Finished(r);
      ProgramRuns(rt, code, b, w, n);
      assert RunProgram(rt, b, w, n).Some?;
      OneEnd(rt, code, Start(w), r, RunProgram(rt, b, w, n).value);
    }
    forall fuel: nat | RunProgram(rt, b, w, fuel) == Some(r)
      ensures Reach(rt, code, Start(w), LankyMachine.Finished(r))
    {
      ProgramRuns(rt, code, b, w, fuel);
    }
  }
}

/** The description of compiled code survives whatever keeps single instructions: more
    code behind it, more table entries, and the replacement of tags by addresses. */
module LankyCarry {
  import opened Sequences
  import opened LankySyntax
  import opened LankyMachine
  import opened LankyLayout

  /** What k and ops say about bytes, table entries, markers and jumps, k2 and ops2
      say as well. */
  ghost predicate Carries(k: Tables, ops: Ops, k2: Tables, ops2: Ops) {
    KeepsBytes(ops, ops2) && k.consts <= k2.consts && k.names <= k2.names && k.exact == k2.exact
    && KeepsCounts(k, ops, k2, ops2)
    && (forall q: nat :: Mark(k, ops, q) ==>
          Mark(k2, ops2, q) && KeepsRefs(k, ops, k2, ops2, Label(k, ops, q), Label(k2, ops2, q)))
    && KeepsJumps(k, ops, k2, ops2)
  }

  predicate KeepsBytes(ops: Ops, ops2: Ops) {
    |ops| <= |ops2| && forall i | 0 <= i < |ops| && 0 <= ops[i] < 256 :: ops2[i] == ops[i]
  }

  ghost predicate KeepsCounts(k: Tables, ops: Ops, k2: Tables, ops2: Ops) {
    forall p: nat, n: nat :: CountAt(k, ops, p, n) ==> CountAt(k2, ops2, p, n)
  }

  ghost predicate KeepsJumps(k: Tables, ops: Ops, k2: Tables, ops2: Ops) {
    forall p: nat, o: int, target: nat :: 0 <= o < 256 && JumpTo(k, ops, p, o, target)
      ==> JumpTo(k2, ops2, p, o, target)
  }

  /** Jumps to the label ref become jumps to ref2. */
  ghost predicate KeepsRefs(k: Tables, ops: Ops, k2: Tables, ops2: Ops, ref: int, ref2: int) {
    forall p: nat :: JumpRef(k, ops, p, ref) ==> JumpRef(k2, ops2, p, ref2)
  }

  // ----- single instructions -----

  lemma CarryAt(k: Tables, ops: Ops, k2: Tables, ops2: Ops, p: nat, v: int)
    requires Carries(k, ops, k2, ops2) && 0 <= v < 256 && At(ops, p, v)
    ensures At(ops2, p, v)
  {
    hide Mark, KeepsJumps, KeepsRefs, KeepsCounts, SameConstant;
  }

  lemma CarryOperator(k: Tables, ops: Ops, k2: Tables, ops2: Ops, p: nat, op: BinOp)
    requires Carries(k, ops, k2, ops2) && At(ops, p, BinaryOpcode(op))
    ensures At(ops2, p, BinaryOpcode(op))
  {
    hide Carries, At;
    CarryAt(k, ops, k2, ops2, p, BinaryOpcode(op));
  }

  lemma CarryWide(k: Tables, ops: Ops, k2: Tables, ops2: Ops, p: nat, o: int, n: int)
    requires Carries(k, ops, k2, ops2) && 0 <= o < 256 && Wide(ops, p, o, n)
    ensures Wide(ops2, p, o, n)
  {
    hide Mark, KeepsJumps, KeepsRefs, KeepsCounts, SameConstant;
  }

  lemma CarryName(k: Tables, ops: Ops, k2: Tables, ops2: Ops, p: nat, o: int, name: string)
    requires Carries(k, ops, k2, ops2) && 0 <= o < 256 && NameAt(k, ops, p, o, name)
    ensures NameAt(k2, ops2, p, o, name)
  {
    hide Mark, KeepsJumps, KeepsRefs, KeepsCounts, SameConstant;
  }

  lemma CarryConst(k: Tables, ops: Ops, k2: Tables, ops2: Ops, p: nat, c: Constant)
    requires Carries(k, ops, k2, ops2) && ConstAt(k, ops, p, c)
    ensures ConstAt(k2, ops2, p, c)
  {
    hide Mark, KeepsJumps, KeepsRefs, KeepsCounts, SameConstant;
  }

  lemma CarryCount(k: Tables, ops: Ops, k2: Tables, ops2: Ops, p: nat, n: nat)
    requires Carries(k, ops, k2, ops2) && CountAt(k, ops, p, n)
    ensures CountAt(k2, ops2, p, n) && k.exact == k2.exact
  {
    hide Mark, KeepsJumps, KeepsRefs, CountAt;
  }

  lemma CarryJump(k: Tables, ops: Ops, k2: Tables, ops2: Ops, p: nat, o: int, target: nat)
    requires Carries(k, ops, k2, ops2) && 0 <= o < 256 && JumpTo(k, ops, p, o, target)
    ensures JumpTo(k2, ops2, p, o, target)
  {
    hide Mark, JumpTo, KeepsRefs, KeepsBytes;
  }

  lemma CarryMark(k: Tables, ops: Ops, k2: Tables, ops2: Ops, q: nat)
    requires Carries(k, ops, k2, ops2) && Mark(k, ops, q)
    ensures Mark(k2, ops2, q)
    ensures KeepsRefs(k, ops, k2, ops2, Label(k, ops, q), Label(k2, ops2, q))
  {
    hide Mark, Label, KeepsJumps, KeepsRefs, KeepsBytes;
  }

  // ----- expressions -----

  lemma {:induction false} CarryE(k: Tables, ops: Ops, k2: Tables, ops2: Ops, p: nat, e: Expr)
    requires Carries(k, ops, k2, ops2) && CodeE(k, ops, p, e)
    ensures CodeE(k2, ops2, p, e)
    decreases e, 1
  {
    hide Carries, At, ConstAt, NameAt, CodeUnary, CodeBinary, CodeCond, CodeTernary, CodeAssign, CodeArray, CodeIndex,
         CodeSetIndex, CodeUpdate, CodeCall, SizeE;
    match e
    case Const(c) => CarryConst(k, ops, k2, ops2, p, c);
    case Var(name) => CarryName(k, ops, k2, ops2, p, LOAD_CLOSE, name);
    case NilLit => CarryAt(k, ops, k2, ops2, p, PUSH_NIL);
    case BoolLit(b) =>
      CarryAt(k, ops, k2, ops2, p, PUSH_BOOL);
      CarryAt(k, ops, k2, ops2, p + 1, if b then 1 else 0);
    case Unary(op, a) => CarryUnary(k, ops, k2, ops2, p, op, a);
    case Binary(op, a, b) => CarryBinary(k, ops, k2, ops2, p, op, a, b);
    case Cond(op, a, b) => CarryCond(k, ops, k2, ops2, p, op, a, b, p + SizeE(e) - 1);
    case Ternary(a, b, c) => CarryTernary(k, ops, k2, ops2, p, a, b, c);
    case Assign(name, a) => CarryAssign(k, ops, k2, ops2, p, name, a);
    case ArrayLit(es) => CarryArray(k, ops, k2, ops2, p, es);
    case Index(t, i) => CarryIndex(k, ops, k2, ops2, p, t, i);
    case SetIndex(t, i, v) => CarrySetIndex(k, ops, k2, ops2, p, t, i, v);
    case Update(op, t, i, v) => CarryUpdate(k, ops, k2, ops2, p, op, t, i, v);
    case Call(es, f) => CarryCall(k, ops, k2, ops2, p, es, f);
  }

  lemma {:induction false} CarryUnary(k: Tables, ops: Ops, k2: Tables, ops2: Ops, p: nat, op: UnOp, a: Expr)
    requires Carries(k, ops, k2, ops2) && CodeUnary(k, ops, p, op, a)
    ensures CodeUnary(k2, ops2, p, op, a)
    decreases Unary(op, a), 0
  {
    hide Carries, At, CodeE, SizeE;
    CarryE(k, ops, k2, ops2, p, a);
    CarryAt(k, ops, k2, ops2, p + SizeE(a), UnaryOpcode(op));
  }

  lemma {:induction false} CarryBinary(k: Tables, ops: Ops, k2: Tables, ops2: Ops, p: nat, op: BinOp, a: Expr, b: Expr)
    requires Carries(k, ops, k2, ops2) && CodeBinary(k, ops, p, op, a, b)
    ensures CodeBinary(k2, ops2, p, op, a, b)
    decreases Binary(op, a, b), 0
  {
    hide Carries, At, CodeE, SizeE, BinaryOpcode;
    var q := p + SizeE(a);
    CarryE(k, ops, k2, ops2, p, a);
    CarryE(k, ops, k2, ops2, q, b);
    CarryOperator(k, ops, k2, ops2, q + SizeE(b), op);
  }

  lemma {:induction false} CarryCond(k: Tables, ops: Ops, k2: Tables, ops2: Ops, p: nat, op: CondOp, a: Expr, b: Expr,
                                     end: nat)
    requires Carries(k, ops, k2, ops2) && CodeCond(k, ops, p, op, a, b, end)
    ensures CodeCond(k2, ops2, p, op, a, b, end)
    decreases Cond(op, a, b), 0
  {
    hide Carries, CodeE, SizeE, JumpTo, Mark;
    var q := p + SizeE(a);
    CarryE(k, ops, k2, ops2, p, a);
    CarryJump(k, ops, k2, ops2, q, CondOpcode(op), end);
    if b.Cond? {
      CarryCond(k, ops, k2, ops2, q + 5, b.cop, b.left, b.right, end);
    } else {
      CarryE(k, ops, k2, ops2, q + 5, b);
      CarryMark(k, ops, k2, ops2, end);
    }
  }

  lemma {:induction false} CarryTernary(k: Tables, ops: Ops, k2: Tables, ops2: Ops, p: nat, a: Expr, b: Expr, c: Expr)
    requires Carries(k, ops, k2, ops2) && CodeTernary(k, ops, p, a, b, c)
    ensures CodeTernary(k2, ops2, p, a, b, c)
    decreases Ternary(a, b, c), 0
  {
    hide Carries, CodeE, SizeE, JumpTo, Mark;
    var q := p + SizeE(a);
    var r := q + 5 + SizeE(b);
    var end := r + 6 + SizeE(c);
    CarryE(k, ops, k2, ops2, p, a);
    CarryE(k, ops, k2, ops2, q + 5, b);
    CarryE(k, ops, k2, ops2, r + 6, c);
    CarryJump(k, ops, k2, ops2, q, JUMP_FALSE, r + 5);
    CarryJump(k, ops, k2, ops2, r, JUMP, end);
    CarryMark(k, ops, k2, ops2, r + 5);
    CarryMark(k, ops, k2, ops2, end);
  }

  lemma {:induction false} CarryAssign(k: Tables, ops: Ops, k2: Tables, ops2: Ops, p: nat, name: string, a: Expr)
    requires Carries(k, ops, k2, ops2) && CodeAssign(k, ops, p, name, a)
    ensures CodeAssign(k2, ops2, p, name, a)
    decreases Assign(name, a), 0
  {
    hide Carries, CodeE, SizeE, NameAt;
    CarryE(k, ops, k2, ops2, p, a);
    CarryName(k, ops, k2, ops2, p + SizeE(a), SAVE_CLOSE, name);
  }

  lemma {:induction false} CarryAll(k: Tables, ops: Ops, k2: Tables, ops2: Ops, p: nat, es: Exprs)
    requires Carries(k, ops, k2, ops2) && CodeAll(k, ops, p, es)
    ensures CodeAll(k2, ops2, p, es)
    decreases es, 0
  {
    hide Carries, CodeE, SizeE;
    if es.More? {
      CarryE(k, ops, k2, ops2, p, es.head);
      CarryAll(k, ops, k2, ops2, p + SizeE(es.head), es.tail);
    }
  }

  lemma {:induction false} CarryArray(k: Tables, ops: Ops, k2: Tables, ops2: Ops, p: nat, es: Exprs)
    requires Carries(k, ops, k2, ops2) && CodeArray(k, ops, p, es)
    ensures CodeArray(k2, ops2, p, es)
    decreases ArrayLit(es), 0
  {
    hide Carries, CodeAll, SizeAll, Wide;
    CarryAll(k, ops, k2, ops2, p, es);
    CarryWide(k, ops, k2, ops2, p + SizeAll(es), MAKE_ARRAY, Count(es));
  }

  lemma {:induction false} CarryIndex(k: Tables, ops: Ops, k2: Tables, ops2: Ops, p: nat, t: Expr, i: Expr)
    requires Carries(k, ops, k2, ops2) && CodeIndex(k, ops, p, t, i)
    ensures CodeIndex(k2, ops2, p, t, i)
    decreases Index(t, i), 0
  {
    hide Carries, At, CodeE, SizeE, BinaryOpcode;
    CarryE(k, ops, k2, ops2, p, t);
    CarryE(k, ops, k2, ops2, p + SizeE(t), i);
    CarryAt(k, ops, k2, ops2, p + SizeE(t) + SizeE(i), LOAD_INDEX);
  }

  lemma {:induction false} CarrySetIndex(k: Tables, ops: Ops, k2: Tables, ops2: Ops, p: nat, t: Expr, i: Expr, v: Expr)
    requires Carries(k, ops, k2, ops2) && CodeSetIndex(k, ops, p, t, i, v)
    ensures CodeSetIndex(k2, ops2, p, t, i, v)
    decreases SetIndex(t, i, v), 0
  {
    hide Carries, At, CodeE, SizeE;
    var q := p + SizeE(v);
    CarryE(k, ops, k2, ops2, p, v);
    CarryE(k, ops, k2, ops2, q, t);
    CarryE(k, ops, k2, ops2, q + SizeE(t), i);
    CarryAt(k, ops, k2, ops2, q + SizeE(t) + SizeE(i), SAVE_INDEX);
  }

  lemma {:induction false} CarryUpdate(k: Tables, ops: Ops, k2: Tables, ops2: Ops, p: nat, op: BinOp, t: Expr,
                                       i: Expr, v: Expr)
    requires Carries(k, ops, k2, ops2) && CodeUpdate(k, ops, p, op, t, i, v)
    ensures CodeUpdate(k2, ops2, p, op, t, i, v)
    decreases Update(op, t, i, v), 0
  {
    hide Carries, CodeE, CodeUpdateAt, SizeE;
    CarryE(k, ops, k2, ops2, p, t);
    CarryE(k, ops, k2, ops2, p + SizeE(t), i);
    CarryUpdateAt(k, ops, k2, ops2, p + SizeE(t) + SizeE(i), op, v);
  }

  lemma {:induction false} CarryUpdateAt(k: Tables, ops: Ops, k2: Tables, ops2: Ops, q: nat, op: BinOp, v: Expr)
    requires Carries(k, ops, k2, ops2) && CodeUpdateAt(k, ops, q, op, v)
    ensures CodeUpdateAt(k2, ops2, q, op, v)
    decreases v, 2
  {
    hide Carries, At, CodeE, SizeE, BinaryOpcode;
    var r := q + 2 + SizeE(v);
    CarryE(k, ops, k2, ops2, q + 2, v);
    CarryAt(k, ops, k2, ops2, q, DDUPLICATE);
    CarryAt(k, ops, k2, ops2, q + 1, LOAD_INDEX);
    CarryOperator(k, ops, k2, ops2, r, op);
    CarryAt(k, ops, k2, ops2, r + 1, SINK_FIRST);
    CarryAt(k, ops, k2, ops2, r + 2, SAVE_INDEX);
  }

  lemma {:induction false} CarryCall(k: Tables, ops: Ops, k2: Tables, ops2: Ops, p: nat, es: Exprs, f: Expr)
    requires Carries(k, ops, k2, ops2) && CodeCall(k, ops, p, es, f)
    ensures CodeCall(k2, ops2, p, es, f)
    decreases Call(es, f), 0
  {
    hide Carries, At, CountAt, CodeAll, CodeE, SizeE, SizeAll, Count;
    var q := p + SizeAll(es) + SizeE(f);
    CarryAll(k, ops, k2, ops2, p, es);
    CarryE(k, ops, k2, ops2, p + SizeAll(es), f);
    CarryAt(k, ops, k2, ops2, q, CALL_FUNC);
    CarryCount(k, ops, k2, ops2, q + 1, Count(es));
  }

  // ----- statements -----

  lemma CarryMaybe(k: Tables, ops: Ops, k2: Tables, ops2: Ops, p: nat, e: Option<Expr>)
    requires Carries(k, ops, k2, ops2) && CodeMaybe(k, ops, p, e)
    ensures CodeMaybe(k2, ops2, p, e)
  {
    hide Carries, At, CodeE, SizeE;
    if e.Some? {
      CarryThen(k, ops, k2, ops2, p, e.value, POP);
    }
  }

  lemma CarryThen(k: Tables, ops: Ops, k2: Tables, ops2: Ops, p: nat, e: Expr, o: int)
    requires Carries(k, ops, k2, ops2) && CodeE(k, ops, p, e) && At(ops, p + SizeE(e), o) && 0 <= o < 256
    ensures CodeE(k2, ops2, p, e) && At(ops2, p + SizeE(e), o)
  {
    hide Carries, At, CodeE, SizeE;
    CarryE(k, ops, k2, ops2, p, e);
    CarryAt(k, ops, k2, ops2, p + SizeE(e), o);
  }

  lemma {:induction false} CarryS(k: Tables, ops: Ops, k2: Tables, ops2: Ops, p: nat, s: Stmt, brk: int, cont: int,
                                  brk2: int, cont2: int)
    requires Carries(k, ops, k2, ops2) && CodeS(k, ops, p, s, brk, cont)
    requires KeepsRefs(k, ops, k2, ops2, brk, brk2) && KeepsRefs(k, ops, k2, ops2, cont, cont2)
    ensures CodeS(k2, ops2, p, s, brk2, cont2)
    decreases s, 1
  {
    hide Carries, At, CodeE, SizeE, CodeReturn, CodeIf, CodeLoop, CodeForIn, CodeTry, JumpRef;
    match s
    case Do(e) => CarryThen(k, ops, k2, ops2, p, e, POP);
    case Print(e) => CarryThen(k, ops, k2, ops2, p, e, PRINT);
    case Return(e) => CarryReturn(k, ops, k2, ops2, p, e);
    case Raise(e) => CarryThen(k, ops, k2, ops2, p, e, RAISE);
    case If(test, body, rest) => CarryIf(k, ops, k2, ops2, p, test, body, rest, brk, cont, brk2, cont2);
    case Loop(init, test, step, body) => CarryLoop(k, ops, k2, ops2, p, init, test, step, body);
    case ForIn(name, index, e, body) => CarryForIn(k, ops, k2, ops2, p, name, index, e, body);
    case Try(body, name, handler) => CarryTry(k, ops, k2, ops2, p, body, name, handler, brk, cont, brk2, cont2);
    case Break => CarryAt(k, ops, k2, ops2, p + 5, POP);
    case Continue => CarryAt(k, ops, k2, ops2, p + 5, POP);
  }

  lemma CarryReturn(k: Tables, ops: Ops, k2: Tables, ops2: Ops, p: nat, e: Option<Expr>)
    requires Carries(k, ops, k2, ops2) && CodeReturn(k, ops, p, e)
    ensures CodeReturn(k2, ops2, p, e)
  {
    hide Carries, At, CodeE, SizeE;
    match e
    case None =>
      CarryAt(k, ops, k2, ops2, p, PUSH_NIL);
      CarryAt(k, ops, k2, ops2, p + 1, RETURN);
    case Some(e') => CarryThen(k, ops, k2, ops2, p, e', RETURN);
  }

  lemma {:induction false} CarryIf(k: Tables, ops: Ops, k2: Tables, ops2: Ops, p: nat, test: Expr, body: Block,
                                   rest: Else, brk: int, cont: int, brk2: int, cont2: int)
    requires Carries(k, ops, k2, ops2) && CodeIf(k, ops, p, test, body, rest, brk, cont)
    requires KeepsRefs(k, ops, k2, ops2, brk, brk2) && KeepsRefs(k, ops, k2, ops2, cont, cont2)
    ensures CodeIf(k2, ops2, p, test, body, rest, brk2, cont2)
    decreases If(test, body, rest), 0
  {
    hide Carries, KeepsRefs, CodeE, CodeB, CodeElse, SizeE, SizeB, SizeElse, JumpTo, Mark;
    var q := p + SizeE(test);
    var r := q + 5 + SizeB(body);
    var out := r + 5 + SizeElse(rest);
    CarryE(k, ops, k2, ops2, p, test);
    CarryB(k, ops, k2, ops2, q + 5, body, brk, cont, brk2, cont2);
    if rest.NoElse? {
      CarryJump(k, ops, k2, ops2, q, JUMP_FALSE, r);
      CarryMark(k, ops, k2, ops2, r);
    } else {
      CarryJump(k, ops, k2, ops2, q, JUMP_FALSE, r + 5);
      CarryJump(k, ops, k2, ops2, r, JUMP, out);
      CarryElse(k, ops, k2, ops2, r + 5, rest, out, brk, cont, brk2, cont2);
      CarryMark(k, ops, k2, ops2, out);
    }
  }

  lemma {:induction false} CarryElse(k: Tables, ops: Ops, k2: Tables, ops2: Ops, m: nat, rest: Else, out: nat,
                                     brk: int, cont: int, brk2: int, cont2: int)
    requires Carries(k, ops, k2, ops2) && CodeElse(k, ops, m, rest, out, brk, cont)
    requires KeepsRefs(k, ops, k2, ops2, brk, brk2) && KeepsRefs(k, ops, k2, ops2, cont, cont2)
    ensures CodeElse(k2, ops2, m, rest, out, brk2, cont2)
    decreases rest, 0
  {
    hide Carries, KeepsRefs, CodeE, CodeB, SizeE, SizeB, JumpTo, Mark;
    match rest
    case NoElse =>
    case ElseBlock(body) =>
      CarryMark(k, ops, k2, ops2, m);
      CarryB(k, ops, k2, ops2, m + 1, body, brk, cont, brk2, cont2);
    case Elif(test, body, rest') =>
      var q := m + 1 + SizeE(test);
      var r := q + 5 + SizeB(body);
      CarryMark(k, ops, k2, ops2, m);
      CarryE(k, ops, k2, ops2, m + 1, test);
      CarryB(k, ops, k2, ops2, q + 5, body, brk, cont, brk2, cont2);
      if rest'.NoElse? {
        CarryJump(k, ops, k2, ops2, q, JUMP_FALSE, out);
      } else {
        CarryJump(k, ops, k2, ops2, q, JUMP_FALSE, r + 5);
        CarryJump(k, ops, k2, ops2, r, JUMP, out);
        CarryElse(k, ops, k2, ops2, r + 5, rest', out, brk, cont, brk2, cont2);
      }
  }

  lemma {:induction false} CarryLoop(k: Tables, ops: Ops, k2: Tables, ops2: Ops, p: nat, init: Option<Expr>,
                                     test: Expr, step: Option<Expr>, body: Block)
    requires Carries(k, ops, k2, ops2) && CodeLoop(k, ops, p, init, test, step, body)
    ensures CodeLoop(k2, ops2, p, init, test, step, body)
    decreases Loop(init, test, step, body), 0
  {
    hide Carries, CodeMaybe, CodeRounds, SizeMaybe;
    CarryMaybe(k, ops, k2, ops2, p, init);
    CarryRounds(k, ops, k2, ops2, p + SizeMaybe(init), test, step, body);
  }

  lemma {:induction false} CarryRounds(k: Tables, ops: Ops, k2: Tables, ops2: Ops, start: nat, test: Expr,
                                       step: Option<Expr>, body: Block)
    requires Carries(k, ops, k2, ops2) && CodeRounds(k, ops, start, test, step, body)
    ensures CodeRounds(k2, ops2, start, test, step, body)
    decreases body, 2
  {
    hide Carries, CodeE, CodeRoundsAt, SizeE, SizeB, SizeMaybe;
    CarryE(k, ops, k2, ops2, start, test);
    var q := start + SizeE(test);
    var m := q + 5 + SizeB(body);
    CarryRoundsAt(k, ops, k2, ops2, start, q, m, m + 1 + SizeMaybe(step), step, body);
  }

  lemma {:induction false} CarryRoundsAt(k: Tables, ops: Ops, k2: Tables, ops2: Ops, start: nat, q: nat, m: nat,
                                         j: nat, step: Option<Expr>, body: Block)
    requires Carries(k, ops, k2, ops2) && CodeRoundsAt(k, ops, start, q, m, j, step, body)
    ensures CodeRoundsAt(k2, ops2, start, q, m, j, step, body)
    decreases body, 1
  {
    hide Carries, CodeMaybe, CodeB, JumpTo, Mark, Label, Wide, KeepsRefs;
    CarryJump(k, ops, k2, ops2, q, JUMP_FALSE, j + 5);
    CarryMark(k, ops, k2, ops2, m);
    CarryMark(k, ops, k2, ops2, j + 5);
    CarryB(k, ops, k2, ops2, q + 5, body, Label(k, ops, j + 5), Label(k, ops, m), Label(k2, ops2, j + 5),
           Label(k2, ops2, m));
    CarryMaybe(k, ops, k2, ops2, m + 1, step);
    CarryWide(k, ops, k2, ops2, j, JUMP, start);
  }

  lemma CarryItem(k: Tables, ops: Ops, k2: Tables, ops2: Ops, p: nat, name: string, index: Option<string>)
    requires Carries(k, ops, k2, ops2) && CodeItem(k, ops, p, name, index)
    ensures CodeItem(k2, ops2, p, name, index)
  {
    hide Carries, At, NameAt;
    CarryName(k, ops, k2, ops2, p, SAVE_CLOSE, name);
    CarryAt(k, ops, k2, ops2, p + 5, POP);
    if index.Some? {
      CarryAt(k, ops, k2, ops2, p + 6, ITER_INDEX);
      CarryName(k, ops, k2, ops2, p + 7, SAVE_CLOSE, index.value);
      CarryAt(k, ops, k2, ops2, p + 12, POP);
    }
  }

  lemma {:induction false} CarryForIn(k: Tables, ops: Ops, k2: Tables, ops2: Ops, p: nat, name: string,
                                      index: Option<string>, e: Expr, body: Block)
    requires Carries(k, ops, k2, ops2) && CodeForIn(k, ops, p, name, index, e, body)
    ensures CodeForIn(k2, ops2, p, name, index, e, body)
    decreases ForIn(name, index, e, body), 0
  {
    hide Carries, At, CodeE, CodeB, CodeItem, SizeE, SizeB, SizeItem, JumpTo, Mark, Label, Wide, KeepsRefs;
    var n := p + SizeE(e) + 1;
    var b := n + 5 + SizeItem(index);
    var m := b + SizeB(body);
    CarryThen(k, ops, k2, ops2, p, e, MAKE_ITER);
    CarryJump(k, ops, k2, ops2, n, NEXT_ITER_OR_JUMP, m + 6);
    CarryItem(k, ops, k2, ops2, n + 5, name, index);
    CarryMark(k, ops, k2, ops2, m);
    CarryMark(k, ops, k2, ops2, m + 6);
    CarryB(k, ops, k2, ops2, b, body, Label(k, ops, m + 6), Label(k, ops, m), Label(k2, ops2, m + 6),
           Label(k2, ops2, m));
    CarryWide(k, ops, k2, ops2, m + 1, JUMP, n);
    CarryAt(k, ops, k2, ops2, m + 7, POP);
  }

  lemma {:induction false} CarryTry(k: Tables, ops: Ops, k2: Tables, ops2: Ops, p: nat, body: Block, name: string,
                                    handler: Block, brk: int, cont: int, brk2: int, cont2: int)
    requires Carries(k, ops, k2, ops2) && CodeTry(k, ops, p, body, name, handler, brk, cont)
    requires KeepsRefs(k, ops, k2, ops2, brk, brk2) && KeepsRefs(k, ops, k2, ops2, cont, cont2)
    ensures CodeTry(k2, ops2, p, body, name, handler, brk2, cont2)
    decreases Try(body, name, handler), 0
  {
    hide Carries, KeepsRefs, CodeB, CodeTryAt, SizeB;
    var r := p + 5 + SizeB(body);
    var c := r + 6;
    CarryB(k, ops, k2, ops2, p + 5, body, brk, cont, brk2, cont2);
    CarryTryAt(k, ops, k2, ops2, p, r, c, c + 7 + SizeB(handler), name);
    CarryB(k, ops, k2, ops2, c + 7, handler, brk, cont, brk2, cont2);
  }

  lemma CarryTryAt(k: Tables, ops: Ops, k2: Tables, ops2: Ops, p: nat, r: nat, c: nat, out: nat, name: string)
    requires Carries(k, ops, k2, ops2) && CodeTryAt(k, ops, p, r, c, out, name)
    ensures CodeTryAt(k2, ops2, p, r, c, out, name)
  {
    hide Carries, JumpTo, Mark, At, NameAt;
    CarryJump(k, ops, k2, ops2, p, PUSH_CATCH, c);
    CarryAt(k, ops, k2, ops2, r, POP_CATCH);
    CarryJump(k, ops, k2, ops2, r + 1, JUMP, out);
    CarryMark(k, ops, k2, ops2, c);
    CarryName(k, ops, k2, ops2, c + 1, SAVE_CLOSE, name);
    CarryAt(k, ops, k2, ops2, c + 6, POP);
    CarryMark(k, ops, k2, ops2, out);
  }

  lemma {:induction false} CarryB(k: Tables, ops: Ops, k2: Tables, ops2: Ops, p: nat, b: Block, brk: int, cont: int,
                                  brk2: int, cont2: int)
    requires Carries(k, ops, k2, ops2) && CodeB(k, ops, p, b, brk, cont)
    requires KeepsRefs(k, ops, k2, ops2, brk, brk2) && KeepsRefs(k, ops, k2, ops2, cont, cont2)
    ensures CodeB(k2, ops2, p, b, brk2, cont2)
    decreases b, 0
  {
    hide Carries, CodeS, SizeS, KeepsRefs;
    if b.Then? {
      CarryS(k, ops, k2, ops2, p, b.first, brk, cont, brk2, cont2);
      CarryB(k, ops, k2, ops2, p + SizeS(b.first), b.rest, brk, cont, brk2, cont2);
    }
  }

  // ----- code that does not leave -----
}

/** Code that no break or continue leaves. */
module LankyLeaving {
  import opened Sequences
  import opened LankySyntax
  import opened LankyMachine
  import opened LankyLayout

  /** Without a break or continue to the loop around, the labels do not matter. */
  lemma {:induction false} LeavesNotS(k: Tables, ops: Ops, p: nat, s: Stmt, brk: int, cont: int)
    requires Stays(s, false) && CodeS(k, ops, p, s, brk, cont)
    ensures CodeS(k, ops, p, s, -1, -1)
    decreases SizeS(s), 1
  {
    hide CodeE, SizeE, CodeReturn, CodeIf, CodeLoop, CodeForIn, CodeTry, StaysB, StaysElse;
    match s
    case If(test, body, rest) => LeavesNotIf(k, ops, p, test, body, rest, brk, cont);
    case Try(body, name, handler) => LeavesNotTry(k, ops, p, body, name, handler, brk, cont);
    case _ =>
  }

  lemma {:induction false} LeavesNotIf(k: Tables, ops: Ops, p: nat, test: Expr, body: Block, rest: Else, brk: int,
                                       cont: int)
    requires StaysB(body, false) && StaysElse(rest, false)
    requires CodeIf(k, ops, p, test, body, rest, brk, cont)
    ensures CodeIf(k, ops, p, test, body, rest, -1, -1)
    decreases SizeE(test) + 5 + SizeB(body) + (if rest.NoElse? then 0 else 5 + SizeElse(rest)) + 1, 0
  {
    hide CodeE, SizeE, CodeB, SizeB, CodeElse, SizeElse, JumpTo, Mark, StaysB, StaysElse;
    var r := p + SizeE(test) + 5 + SizeB(body);
    LeavesNotB(k, ops, p + SizeE(test) + 5, body, brk, cont);
    if !rest.NoElse? {
      LeavesNotElse(k, ops, r + 5, rest, r + 5 + SizeElse(rest), brk, cont);
    }
  }

  lemma {:induction false} LeavesNotElse(k: Tables, ops: Ops, m: nat, rest: Else, out: nat, brk: int, cont: int)
    requires StaysElse(rest, false) && CodeElse(k, ops, m, rest, out, brk, cont)
    ensures CodeElse(k, ops, m, rest, out, -1, -1)
    decreases SizeElse(rest), 0
  {
    hide CodeE, SizeE, CodeB, SizeB, JumpTo, Mark, StaysB;
    match rest
    case NoElse =>
    case ElseBlock(body) => LeavesNotB(k, ops, m + 1, body, brk, cont);
    case Elif(test, body, rest') =>
      var q := m + 1 + SizeE(test);
      LeavesNotB(k, ops, q + 5, body, brk, cont);
      if !rest'.NoElse? {
        LeavesNotElse(k, ops, q + 5 + SizeB(body) + 5, rest', out, brk, cont);
      }
  }

  lemma {:induction false} LeavesNotTry(k: Tables, ops: Ops, p: nat, body: Block, name: string, handler: Block,
                                        brk: int, cont: int)
    requires StaysB(handler, false) && StaysB(body, false) && CodeTry(k, ops, p, body, name, handler, brk, cont)
    ensures CodeTry(k, ops, p, body, name, handler, -1, -1)
    decreases SizeB(body) + SizeB(handler) + 5, 0
  {
    hide CodeB, SizeB, CodeTryAt, StaysB;
    LeavesNotB(k, ops, p + 5, body, brk, cont);
    LeavesNotB(k, ops, p + 5 + SizeB(body) + 13, handler, brk, cont);
  }

  lemma {:induction false} LeavesNotB(k: Tables, ops: Ops, p: nat, b: Block, brk: int, cont: int)
    requires StaysB(b, false) && CodeB(k, ops, p, b, brk, cont)
    ensures CodeB(k, ops, p, b, -1, -1)
    decreases SizeB(b), 2, b
  {
    hide CodeS, SizeS, Stays;
    if b.Then? {
      LeavesNotS(k, ops, p, b.first, brk, cont);
      LeavesNotB(k, ops, p + SizeS(b.first), b.rest, brk, cont);
    }
  }

  /** What does not leave its place may stand where it could. */
  lemma {:induction false} StaysMore(s: Stmt)
    requires Stays(s, false)
    ensures Stays(s, true)
    decreases SizeS(s), 1
  {
    hide StaysB, StaysElse, SizeE;
    match s
    case If(_, body, rest) =>
      StaysMoreB(body);
      StaysMoreElse(rest);
    case Try(_, _, handler) => StaysMoreB(handler);
    case _ =>
  }

  lemma {:induction false} StaysMoreElse(s: Else)
    requires StaysElse(s, false)
    ensures StaysElse(s, true)
    decreases SizeElse(s), 3
  {
    hide StaysB, SizeE;
    match s
    case NoElse =>
    case ElseBlock(body) => StaysMoreB(body);
    case Elif(_, body, rest) =>
      StaysMoreB(body);
      StaysMoreElse(rest);
  }

  lemma {:induction false} StaysMoreB(b: Block)
    requires StaysB(b, false)
    ensures StaysB(b, true)
    decreases SizeB(b), 2, b
  {
    hide Stays, SizeS;
    if b.Then? {
      StaysMore(b.first);
      StaysMoreB(b.rest);
    }
  }
}

/** The part of the language the compiler theorems cover, as the parser's nodes
    present it (src/compiler/ast.h). */
module LankySyntax {
  import opened Sequences

  datatype Constant = IntConst(i: int) | StrConst(s: string)

  datatype BinOp =
    | Add | Subtract | Multiply | Divide | Modulo | Power | Less | Greater | LessEqual | GreaterEqual
    | Equal | NotEqual | And | Or | NilOr | BitAnd | BitOr | BitXor | ShiftLeft | ShiftRight

  datatype UnOp = Not | Negative

  datatype CondOp = OrElse | AndAlso

  datatype Expr =
    | Const(c: Constant)
    | Var(name: string)
    | NilLit
    | BoolLit(b: bool)
    | Unary(uop: UnOp, arg: Expr)
    | Binary(op: BinOp, left: Expr, right: Expr)
    | Cond(cop: CondOp, left: Expr, right: Expr)
    | Ternary(test: Expr, first: Expr, second: Expr)
    | Assign(name: string, value: Expr)
    | ArrayLit(items: Exprs)
    | Index(target: Expr, indexer: Expr)
    | SetIndex(target: Expr, indexer: Expr, value: Expr)
    | Update(op: BinOp, target: Expr, indexer: Expr, value: Expr)
    | Call(args: Exprs, callee: Expr)

  datatype Exprs = Nothing | More(head: Expr, tail: Exprs)

  datatype Stmt =
    | Do(e: Expr)
    | Print(e: Expr)
    | Return(result: Option<Expr>)
    | Raise(e: Expr)
    | If(test: Expr, body: Block, rest: Else)
    | Loop(init: Option<Expr>, test: Expr, step: Option<Expr>, body: Block)
    | ForIn(name: string, index: Option<string>, e: Expr, body: Block)
    | Try(body: Block, exception: string, handler: Block)
    | Break
    | Continue

  /** What follows an if: nothing, another condition, or the final else. */
  datatype Else = NoElse | Elif(test: Expr, body: Block, rest: Else) | ElseBlock(body: Block)

  datatype Block = End | Then(first: Stmt, rest: Block)

  function Count(es: Exprs): nat {
    match es
    case Nothing => 0
    case More(_, tail) => 1 + Count(tail)
  }

  /** What a program stays within: `ints` has its integer constants, and no call has more than
      `args` arguments. */
  datatype Limits = Limits(ints: set<int>, args: nat)

  predicate Fits(e: Expr, lim: Limits) {
    match e
    case Const(c) => c.IntConst? ==> c.i in lim.ints
    case Unary(_, a) => Fits(a, lim)
    case Binary(_, a, b) => Fits(a, lim) && Fits(b, lim)
    case Cond(_, a, b) => Fits(a, lim) && Fits(b, lim)
    case Ternary(a, b, c) => Fits(a, lim) && Fits(b, lim) && Fits(c, lim)
    case Assign(_, a) => Fits(a, lim)
    case ArrayLit(es) => AllFit(es, lim)
    case Index(a, b) => Fits(a, lim) && Fits(b, lim)
    case SetIndex(a, b, c) => Fits(a, lim) && Fits(b, lim) && Fits(c, lim)
    case Update(_, a, b, c) => Fits(a, lim) && Fits(b, lim) && Fits(c, lim)
    case Call(es, f) => Count(es) <= lim.args && AllFit(es, lim) && Fits(f, lim)
    case _ => true
  }

  predicate AllFit(es: Exprs, lim: Limits) {
    es.More? ==> Fits(es.head, lim) && AllFit(es.tail, lim)
  }

  predicate MaybeFits(e: Option<Expr>, lim: Limits) {
    e.Some? ==> Fits(e.value, lim)
  }

  /** Expressions fit, and break and continue stand inside a loop. */
  predicate WellFormed(s: Stmt, inLoop: bool, lim: Limits) {
    match s
    case Do(e) => Fits(e, lim)
    case Print(e) => Fits(e, lim)
    case Return(e) => MaybeFits(e, lim)
    case Raise(e) => Fits(e, lim)
    case If(test, body, rest) =>
      Fits(test, lim) && WellFormedBlock(body, inLoop, lim) && WellFormedElse(rest, inLoop, lim)
    case Loop(init, test, step, body) =>
      MaybeFits(init, lim) && Fits(test, lim) && MaybeFits(step, lim) && WellFormedBlock(body, true, lim)
    case ForIn(_, _, e, body) => Fits(e, lim) && WellFormedBlock(body, true, lim)
    case Try(body, _, handler) => WellFormedBlock(body, inLoop, lim) && WellFormedBlock(handler, inLoop, lim)
    case Break => inLoop
    case Continue => inLoop
  }

  predicate WellFormedElse(s: Else, inLoop: bool, lim: Limits) {
    match s
    case NoElse => true
    case Elif(test, body, rest) =>
      Fits(test, lim) && WellFormedBlock(body, inLoop, lim) && WellFormedElse(rest, inLoop, lim)
    case ElseBlock(body) => WellFormedBlock(body, inLoop, lim)
  }

  predicate WellFormedBlock(b: Block, inLoop: bool, lim: Limits) {
    b.Then? ==> WellFormed(b.first, inLoop, lim) && WellFormedBlock(b.rest, inLoop, lim)
  }

  /** No break or continue leaves the guarded block of a try; without `leaves`, none leaves
      the statement itself either. */
  predicate Stays(s: Stmt, leaves: bool) {
    match s
    case If(_, body, rest) => StaysB(body, leaves) && StaysElse(rest, leaves)
    case Loop(_, _, _, body) => StaysB(body, true)
    case ForIn(_, _, _, body) => StaysB(body, true)
    case Try(body, _, handler) => StaysB(body, false) && StaysB(handler, leaves)
    case Break => leaves
    case Continue => leaves
    case _ => true
  }

  predicate StaysElse(s: Else, leaves: bool) {
    match s
    case NoElse => true
    case Elif(_, body, rest) => StaysB(body, leaves) && StaysElse(rest, leaves)
    case ElseBlock(body) => StaysB(body, leaves)
  }

  predicate StaysB(b: Block, leaves: bool) {
    b.Then? ==> Stays(b.first, leaves) && StaysB(b.rest, leaves)
  }

  /** It cannot fail. */
  predicate Quiet(e: Expr) {
    match e
    case Const(_) => true
    case NilLit => true
    case BoolLit(_) => true
    case Cond(_, a, b) => Quiet(a) && Quiet(b)
    case Ternary(a, b, c) => Quiet(a) && Quiet(b) && Quiet(c)
    case Assign(_, a) => Quiet(a)
    case ArrayLit(es) => AllQuiet(es)
    case _ => false
  }

  predicate AllQuiet(es: Exprs) {
    es.More? ==> Quiet(es.head) && AllQuiet(es.tail)
  }

  /** It can fail only while none of its operands is waiting: a variable that is not declared
      leaves nothing, but an operation that fails leaves nil. */
  predicate Tidy(e: Expr) {
    match e
    case Var(_) => true
    case Cond(_, a, b) => Tidy(a) && Tidy(b)
    case Ternary(a, b, c) => Tidy(a) && Tidy(b) && Tidy(c)
    case Assign(_, a) => Tidy(a)
    case ArrayLit(es) => es.More? ==> Tidy(es.head) && AllQuiet(es.tail)
    case _ => Quiet(e)
  }

  predicate MaybeTidy(e: Option<Expr>) {
    e.Some? ==> Tidy(e.value)
  }

  /** How a statement keeps the operand stack: with more on it perhaps, that a caught error has
      left; exactly as it was when it ends; or also when an error leaves it. */
  datatype Keeping = Loose | Exact | Neat

  /** A break or continue never leaves a try, with its handler still waiting. In the body of a
      for-in, whose iterator would be buried under what an error leaves, a try may only stand if
      errors in its block leave nothing. */
  predicate Restores(s: Stmt, mode: Keeping) {
    match s
    case Do(e) => mode.Neat? ==> Tidy(e)
    case Print(e) => mode.Neat? ==> Tidy(e)
    case Return(e) => mode.Neat? ==> MaybeTidy(e)
    case Raise(e) => mode.Neat? ==> Tidy(e)
    case If(test, body, rest) => (mode.Neat? ==> Tidy(test)) && RestoresB(body, mode) && RestoresElse(rest, mode)
    case Loop(init, test, step, body) =>
      (mode.Neat? ==> MaybeTidy(init) && Tidy(test) && MaybeTidy(step)) && RestoresB(body, mode)
    case ForIn(_, _, _, body) => !mode.Neat? && RestoresB(body, Exact)
    case Try(body, _, handler) =>
      StaysB(body, false) && RestoresB(body, InTry(mode)) && RestoresB(handler, mode)
    case _ => true
  }

  /** What a try asks of its block. */
  function InTry(mode: Keeping): Keeping {
    if mode.Loose? then Loose else Neat
  }

  predicate RestoresElse(s: Else, mode: Keeping) {
    match s
    case NoElse => true
    case Elif(test, body, rest) =>
      (mode.Neat? ==> Tidy(test)) && RestoresB(body, mode) && RestoresElse(rest, mode)
    case ElseBlock(body) => RestoresB(body, mode)
  }

  predicate RestoresB(b: Block, mode: Keeping) {
    b.Then? ==> Restores(b.first, mode) && RestoresB(b.rest, mode)
  }

  /** Without any try. */
  predicate Tryless(s: Stmt) {
    match s
    case If(_, body, rest) => TrylessB(body) && TrylessElse(rest)
    case Loop(_, _, _, body) => TrylessB(body)
    case ForIn(_, _, _, body) => TrylessB(body)
    case Try(_, _, _) => false
    case _ => true
  }

  predicate TrylessElse(s: Else) {
    match s
    case NoElse => true
    case Elif(_, body, rest) => TrylessB(body) && TrylessElse(rest)
    case ElseBlock(body) => TrylessB(body)
  }

  predicate TrylessB(b: Block) {
    b.Then? ==> Tryless(b.first) && TrylessB(b.rest)
  }
}

/** What it means for a stretch of instructions to be the code of a construct. The
    same description serves the compiler's running list, where a jump carries the
    tag of its target, and the finished bytes, where it carries the address
    (src/compiler/ast_compiler.c:402-1056, 1440-1464). */
module LankyLayout {
  import opened Sequences
  import opened LankySyntax
  import opened LankyMachine
  import opened Doubles

  /** If the tables are not exact, a constant may have the place of another one that compares
      equal to it, and calls may have more arguments than the machine reads back. */
  datatype Tables = Tables(resolved: bool, consts: seq<Constant>, names: seq<string>, exact: bool := true)

  type Ops = seq<int>

  // ----- single instructions -----

  predicate At(ops: Ops, p: nat, v: int) {
    p < |ops| && ops[p] == v
  }

  predicate Bytes(ops: Ops, i: nat) {
    i + 3 < |ops| && 0 <= ops[i] < 256 && 0 <= ops[i + 1] < 256 && 0 <= ops[i + 2] < 256 && 0 <= ops[i + 3] < 256
  }

  /** Opcode o with the four-byte operand n. */
  predicate Wide(ops: Ops, p: nat, o: int, n: int) {
    At(ops, p, o) && Bytes(ops, p + 1) && Operand(ops, p + 1) == n
  }

  /** lobjb_quick_compare: numbers are compared as doubles. */
  predicate SameConstant(a: Constant, b: Constant) {
    match (a, b)
    case (IntConst(i), IntConst(j)) => ToDouble(i) == ToDouble(j)
    case (StrConst(s), StrConst(t)) => s == t
    case _ => false
  }

  predicate ConstAt(k: Tables, ops: Ops, p: nat, c: Constant) {
    At(ops, p, LOAD_CONST) && Bytes(ops, p + 1) && Operand(ops, p + 1) < |k.consts|
    && var d := k.consts[Operand(ops, p + 1)];
       if k.exact then c == d else SameConstant(c, d)
  }

  predicate NameAt(k: Tables, ops: Ops, p: nat, o: int, name: string) {
    At(ops, p, o) && Bytes(ops, p + 1)
    && Operand(ops, p + 1) < |k.names| && k.names[Operand(ops, p + 1)] == name
  }

  /** Three placeholders behind the tag of a jump. */
  predicate Slots(ops: Ops, i: nat) {
    i + 2 < |ops| && ops[i] == -1 && ops[i + 1] == -1 && ops[i + 2] == -1
  }

  const FIRST_TAG := 1000

  /** A tag that stands for itself, not for the operand of a jump. */
  predicate IsMarker(ops: Ops, q: nat) {
    q < |ops| && ops[q] >= FIRST_TAG && (q + 1 < |ops| ==> ops[q + 1] != -1)
  }

  /** The operand of CALL_FUNC: as a number in the running list, cut to a byte at the end. */
  predicate CountAt(k: Tables, ops: Ops, p: nat, n: nat) {
    n < FIRST_TAG && At(ops, p, if k.resolved then n % 256 else n)
  }

  /** The operand of CALL_FUNC is read back as a signed char. */
  const MAX_ARGS := 127

  predicate Mark(k: Tables, ops: Ops, q: nat) {
    if k.resolved then At(ops, q, IGNORE) else IsMarker(ops, q)
  }

  predicate JumpTo(k: Tables, ops: Ops, p: nat, o: int, target: nat) {
    if k.resolved then Wide(ops, p, o, target)
    else At(ops, p, o) && p + 1 < target && IsMarker(ops, target) && ops[p + 1] == ops[target] && Slots(ops, p + 2)
  }

  /** How break and continue name a marker: by its tag, later by its address. */
  function Label(k: Tables, ops: Ops, q: nat): int {
    if k.resolved then q else if q < |ops| then ops[q] else -1
  }

  predicate JumpRef(k: Tables, ops: Ops, p: nat, ref: int) {
    if k.resolved then Wide(ops, p, JUMP, ref)
    else At(ops, p, JUMP) && At(ops, p + 1, ref) && ref >= FIRST_TAG && Slots(ops, p + 2)
  }

  // ----- sizes -----

  function SizeE(e: Expr): (n: nat)
    ensures n > 0
  {
    match e
    case Const(_) => 5
    case Var(_) => 5
    case NilLit => 1
    case BoolLit(_) => 2
    case Unary(_, a) => SizeE(a) + 1
    case Binary(_, a, b) => SizeE(a) + SizeE(b) + 1
    case Cond(_, a, b) => SizeE(a) + 5 + SizeE(b) + if b.Cond? then 0 else 1
    case Ternary(a, b, c) => SizeE(a) + 5 + SizeE(b) + 5 + 1 + SizeE(c) + 1
    case Assign(_, a) => SizeE(a) + 5
    case ArrayLit(es) => SizeAll(es) + 5
    case Index(t, i) => SizeE(t) + SizeE(i) + 1
    case SetIndex(t, i, v) => SizeE(v) + SizeE(t) + SizeE(i) + 1
    case Update(_, t, i, v) => SizeE(t) + SizeE(i) + 2 + SizeE(v) + 3
    case Call(es, f) => SizeAll(es) + SizeE(f) + 2
  }

  function SizeAll(es: Exprs): nat {
    match es
    case Nothing => 0
    case More(e, rest) => SizeE(e) + SizeAll(rest)
  }

  lemma {:induction false} CountBound(es: Exprs)
    ensures Count(es) <= SizeAll(es)
  {
    hide SizeE;
    if es.More? {
      CountBound(es.tail);
    }
  }

  /** An optional expression statement: with its POP. */
  function SizeMaybe(e: Option<Expr>): nat {
    match e
    case None => 0
    case Some(e') => SizeE(e') + 1
  }

  /** Storing the element, and its position when it is asked for. */
  function SizeItem(index: Option<string>): nat {
    if index.Some? then 13 else 6
  }

  function SizeS(s: Stmt): nat {
    match s
    case Do(e) => SizeE(e) + 1
    case Print(e) => SizeE(e) + 1
    case Return(e) => (if e.Some? then SizeE(e.value) else 1) + 1
    case Raise(e) => SizeE(e) + 1
    case If(test, body, rest) =>
      SizeE(test) + 5 + SizeB(body) + (if rest.NoElse? then 0 else 5 + SizeElse(rest)) + 1
    case Loop(init, test, step, body) =>
      SizeMaybe(init) + SizeE(test) + 5 + SizeB(body) + 1 + SizeMaybe(step) + 5 + 1
    case ForIn(_, index, e, body) =>
      SizeE(e) + 1 + 5 + SizeItem(index) + SizeB(body) + 1 + 5 + 1 + 1
    case Try(body, _, handler) => 5 + SizeB(body) + 6 + 7 + SizeB(handler) + 1
    case Break => 6
    case Continue => 6
  }

  function SizeElse(s: Else): nat {
    match s
    case NoElse => 0
    case ElseBlock(body) => 1 + SizeB(body)
    case Elif(test, body, rest) =>
      1 + SizeE(test) + 5 + SizeB(body) + if rest.NoElse? then 0 else 5 + SizeElse(rest)
  }

  function SizeB(b: Block): nat {
    match b
    case End => 0
    case Then(s, rest) => SizeS(s) + SizeB(rest)
  }

  function SizeRounds(test: Expr, step: Option<Expr>, body: Block): nat {
    SizeE(test) + 5 + SizeB(body) + 1 + SizeMaybe(step) + 5 + 1
  }

  // ----- expressions -----

  /** instr_for_char. */
  function BinaryOpcode(op: BinOp): int {
    match op
    case Add => 50 case Subtract => 51 case Multiply => 52 case Divide => 53 case Modulo => 54 case Power => 55
    case Less => 56 case Greater => 57 case Equal => 58 case LessEqual => 59 case GreaterEqual => 60
    case NotEqual => 61 case And => 62 case Or => 63 case NilOr => 64 case BitAnd => 65 case BitOr => 66
    case BitXor => 67 case ShiftLeft => 68 case ShiftRight => 69
  }

  function UnaryOpcode(op: UnOp): int {
    if op == Not then UNARY_NOT else UNARY_NEGATIVE
  }

  function CondOpcode(op: CondOp): int {
    if op == OrElse then JUMP_TRUE_ELSE_POP else JUMP_FALSE_ELSE_POP
  }

  predicate CodeE(k: Tables, ops: Ops, p: nat, e: Expr)
    decreases e, 1
  {
    match e
    case Const(c) => ConstAt(k, ops, p, c)
    case Var(name) => NameAt(k, ops, p, LOAD_CLOSE, name)
    case NilLit => At(ops, p, PUSH_NIL)
    case BoolLit(b) => At(ops, p, PUSH_BOOL) && At(ops, p + 1, if b then 1 else 0)
    case Unary(op, a) => CodeUnary(k, ops, p, op, a)
    case Binary(op, a, b) => CodeBinary(k, ops, p, op, a, b)
    case Cond(op, a, b) => CodeCond(k, ops, p, op, a, b, p + SizeE(e) - 1)
    case Ternary(a, b, c) => CodeTernary(k, ops, p, a, b, c)
    case Assign(name, a) => CodeAssign(k, ops, p, name, a)
    case ArrayLit(es) => CodeArray(k, ops, p, es)
    case Index(t, i) => CodeIndex(k, ops, p, t, i)
    case SetIndex(t, i, v) => CodeSetIndex(k, ops, p, t, i, v)
    case Update(op, t, i, v) => CodeUpdate(k, ops, p, op, t, i, v)
    case Call(es, f) => CodeCall(k, ops, p, es, f)
  }

  predicate CodeUnary(k: Tables, ops: Ops, p: nat, op: UnOp, a: Expr)
    decreases Unary(op, a), 0
  {
    CodeE(k, ops, p, a) && At(ops, p + SizeE(a), UnaryOpcode(op))
  }

  predicate CodeBinary(k: Tables, ops: Ops, p: nat, op: BinOp, a: Expr, b: Expr)
    decreases Binary(op, a, b), 0
  {
    CodeE(k, ops, p, a) && CodeE(k, ops, p + SizeE(a), b) && At(ops, p + SizeE(a) + SizeE(b), BinaryOpcode(op))
  }

  /** A chain of conditions shares the one marker at `end`. */
  predicate CodeCond(k: Tables, ops: Ops, p: nat, op: CondOp, a: Expr, b: Expr, end: nat)
    decreases Cond(op, a, b), 0
  {
    var q := p + SizeE(a);
    CodeE(k, ops, p, a) && JumpTo(k, ops, q, CondOpcode(op), end)
    && if b.Cond? then CodeCond(k, ops, q + 5, b.cop, b.left, b.right, end)
       else CodeE(k, ops, q + 5, b) && end == q + 5 + SizeE(b) && Mark(k, ops, end)
  }

  predicate CodeTernary(k: Tables, ops: Ops, p: nat, a: Expr, b: Expr, c: Expr)
    decreases Ternary(a, b, c), 0
  {
    var q := p + SizeE(a);
    var r := q + 5 + SizeE(b);
    var end := r + 6 + SizeE(c);
    CodeE(k, ops, p, a) && JumpTo(k, ops, q, JUMP_FALSE, r + 5)
    && CodeE(k, ops, q + 5, b) && JumpTo(k, ops, r, JUMP, end)
    && Mark(k, ops, r + 5) && CodeE(k, ops, r + 6, c) && Mark(k, ops, end)
  }

  predicate CodeAssign(k: Tables, ops: Ops, p: nat, name: string, a: Expr)
    decreases Assign(name, a), 0
  {
    CodeE(k, ops, p, a) && NameAt(k, ops, p + SizeE(a), SAVE_CLOSE, name)
  }

  predicate CodeAll(k: Tables, ops: Ops, p: nat, es: Exprs)
    decreases es, 0
  {
    es.More? ==> CodeE(k, ops, p, es.head) && CodeAll(k, ops, p + SizeE(es.head), es.tail)
  }

  predicate CodeArray(k: Tables, ops: Ops, p: nat, es: Exprs)
    decreases ArrayLit(es), 0
  {
    CodeAll(k, ops, p, es) && Wide(ops, p + SizeAll(es), MAKE_ARRAY, Count(es))
  }

  predicate CodeIndex(k: Tables, ops: Ops, p: nat, t: Expr, i: Expr)
    decreases Index(t, i), 0
  {
    CodeE(k, ops, p, t) && CodeE(k, ops, p + SizeE(t), i) && At(ops, p + SizeE(t) + SizeE(i), LOAD_INDEX)
  }

  predicate CodeSetIndex(k: Tables, ops: Ops, p: nat, t: Expr, i: Expr, v: Expr)
    decreases SetIndex(t, i, v), 0
  {
    var q := p + SizeE(v);
    CodeE(k, ops, p, v) && CodeE(k, ops, q, t) && CodeE(k, ops, q + SizeE(t), i)
    && At(ops, q + SizeE(t) + SizeE(i), SAVE_INDEX)
  }

  predicate CodeUpdate(k: Tables, ops: Ops, p: nat, op: BinOp, t: Expr, i: Expr, v: Expr)
    decreases Update(op, t, i, v), 0
  {
    CodeE(k, ops, p, t) && CodeE(k, ops, p + SizeE(t), i) && CodeUpdateAt(k, ops, p + SizeE(t) + SizeE(i), op, v)
  }

  /** Behind target and index: duplicate them, load, compute, sink, store. */
  predicate CodeUpdateAt(k: Tables, ops: Ops, q: nat, op: BinOp, v: Expr)
    decreases v, 2
  {
    var r := q + 2 + SizeE(v);
    At(ops, q, DDUPLICATE) && At(ops, q + 1, LOAD_INDEX) && CodeE(k, ops, q + 2, v)
    && At(ops, r, BinaryOpcode(op)) && At(ops, r + 1, SINK_FIRST) && At(ops, r + 2, SAVE_INDEX)
  }

  predicate CodeCall(k: Tables, ops: Ops, p: nat, es: Exprs, f: Expr)
    decreases Call(es, f), 0
  {
    var q := p + SizeAll(es) + SizeE(f);
    CodeAll(k, ops, p, es) && CodeE(k, ops, p + SizeAll(es), f)
    && At(ops, q, CALL_FUNC) && CountAt(k, ops, q + 1, Count(es)) && (k.exact ==> Count(es) <= MAX_ARGS)
  }

  // ----- statements -----

  predicate CodeMaybe(k: Tables, ops: Ops, p: nat, e: Option<Expr>) {
    e.Some? ==> CodeE(k, ops, p, e.value) && At(ops, p + SizeE(e.value), POP)
  }

  /** `brk` and `cont` are the labels of the innermost loop around. */
  predicate CodeS(k: Tables, ops: Ops, p: nat, s: Stmt, brk: int, cont: int)
    decreases s, 1
  {
    match s
    case Do(e) => CodeE(k, ops, p, e) && At(ops, p + SizeE(e), POP)
    case Print(e) => CodeE(k, ops, p, e) && At(ops, p + SizeE(e), PRINT)
    case Return(e) => CodeReturn(k, ops, p, e)
    case Raise(e) => CodeE(k, ops, p, e) && At(ops, p + SizeE(e), RAISE)
    case If(test, body, rest) => CodeIf(k, ops, p, test, body, rest, brk, cont)
    case Loop(init, test, step, body) => CodeLoop(k, ops, p, init, test, step, body)
    case ForIn(name, index, e, body) => CodeForIn(k, ops, p, name, index, e, body)
    case Try(body, name, handler) => CodeTry(k, ops, p, body, name, handler, brk, cont)
    case Break => JumpRef(k, ops, p, brk) && At(ops, p + 5, POP)
    case Continue => JumpRef(k, ops, p, cont) && At(ops, p + 5, POP)
  }

  predicate CodeReturn(k: Tables, ops: Ops, p: nat, e: Option<Expr>) {
    match e
    case None => At(ops, p, PUSH_NIL) && At(ops, p + 1, RETURN)
    case Some(e') => CodeE(k, ops, p, e') && At(ops, p + SizeE(e'), RETURN)
  }

  predicate CodeIf(k: Tables, ops: Ops, p: nat, test: Expr, body: Block, rest: Else, brk: int, cont: int)
    decreases If(test, body, rest), 0
  {
    var q := p + SizeE(test);
    var r := q + 5 + SizeB(body);
    var out := r + 5 + SizeElse(rest);
    CodeE(k, ops, p, test) && CodeB(k, ops, q + 5, body, brk, cont)
    && if rest.NoElse? then JumpTo(k, ops, q, JUMP_FALSE, r) && Mark(k, ops, r)
       else JumpTo(k, ops, q, JUMP_FALSE, r + 5) && JumpTo(k, ops, r, JUMP, out)
            && CodeElse(k, ops, r + 5, rest, out, brk, cont) && Mark(k, ops, out)
  }

  /** An elif or else begins with the marker the previous condition jumps to. */
  predicate CodeElse(k: Tables, ops: Ops, m: nat, rest: Else, out: nat, brk: int, cont: int)
    decreases rest, 0
  {
    match rest
    case NoElse => true
    case ElseBlock(body) => Mark(k, ops, m) && CodeB(k, ops, m + 1, body, brk, cont) && out == m + 1 + SizeB(body)
    case Elif(test, body, rest') =>
      var q := m + 1 + SizeE(test);
      var r := q + 5 + SizeB(body);
      Mark(k, ops, m) && CodeE(k, ops, m + 1, test) && CodeB(k, ops, q + 5, body, brk, cont)
      && if rest'.NoElse? then JumpTo(k, ops, q, JUMP_FALSE, out) && out == r
         else JumpTo(k, ops, q, JUMP_FALSE, r + 5) && JumpTo(k, ops, r, JUMP, out)
              && CodeElse(k, ops, r + 5, rest', out, brk, cont)
  }

  predicate CodeLoop(k: Tables, ops: Ops, p: nat, init: Option<Expr>, test: Expr, step: Option<Expr>, body: Block)
    decreases Loop(init, test, step, body), 0
  {
    CodeMaybe(k, ops, p, init) && CodeRounds(k, ops, p + SizeMaybe(init), test, step, body)
  }

  predicate CodeRounds(k: Tables, ops: Ops, start: nat, test: Expr, step: Option<Expr>, body: Block)
    decreases body, 2
  {
    var q := start + SizeE(test);
    var m := q + 5 + SizeB(body);
    CodeE(k, ops, start, test) && CodeRoundsAt(k, ops, start, q, m, m + 1 + SizeMaybe(step), step, body)
  }

  /** The test's exit at q, the continue marker at m, the jump back at j. */
  predicate CodeRoundsAt(k: Tables, ops: Ops, start: nat, q: nat, m: nat, j: nat, step: Option<Expr>, body: Block)
    decreases body, 1
  {
    JumpTo(k, ops, q, JUMP_FALSE, j + 5)
    && CodeB(k, ops, q + 5, body, Label(k, ops, j + 5), Label(k, ops, m))
    && Mark(k, ops, m) && CodeMaybe(k, ops, m + 1, step) && Wide(ops, j, JUMP, start) && Mark(k, ops, j + 5)
  }

  predicate CodeForIn(k: Tables, ops: Ops, p: nat, name: string, index: Option<string>, e: Expr, body: Block)
    decreases ForIn(name, index, e, body), 0
  {
    CodeE(k, ops, p, e) && At(ops, p + SizeE(e), MAKE_ITER) && CodeItems(k, ops, p + SizeE(e) + 1, name, index, body)
  }

  /** The loop of a for-in, from its NEXT_ITER_OR_JUMP to the POP of the iterator. */
  predicate CodeItems(k: Tables, ops: Ops, n: nat, name: string, index: Option<string>, body: Block)
    decreases body, 1
  {
    var b := n + 5 + SizeItem(index);
    var m := b + SizeB(body);
    JumpTo(k, ops, n, NEXT_ITER_OR_JUMP, m + 6) && CodeItem(k, ops, n + 5, name, index)
    && CodeB(k, ops, b, body, Label(k, ops, m + 6), Label(k, ops, m))
    && Mark(k, ops, m) && Wide(ops, m + 1, JUMP, n) && Mark(k, ops, m + 6) && At(ops, m + 7, POP)
  }

  /** Binding the element, and its position when it is asked for. */
  predicate CodeItem(k: Tables, ops: Ops, p: nat, name: string, index: Option<string>) {
    NameAt(k, ops, p, SAVE_CLOSE, name) && At(ops, p + 5, POP)
    && (index.Some? ==>
          At(ops, p + 6, ITER_INDEX) && NameAt(k, ops, p + 7, SAVE_CLOSE, index.value) && At(ops, p + 12, POP))
  }

  /** The handler behind the block. */
  predicate CodeTry(k: Tables, ops: Ops, p: nat, body: Block, name: string, handler: Block, brk: int, cont: int)
    decreases Try(body, name, handler), 0
  {
    var r := p + 5 + SizeB(body);
    var c := r + 6;
    CodeB(k, ops, p + 5, body, brk, cont) && CodeTryAt(k, ops, p, r, c, c + 7 + SizeB(handler), name)
    && CodeB(k, ops, c + 7, handler, brk, cont)
  }

  /** What stands around the two blocks: the catch marker at c, the last marker at `out`. */
  predicate CodeTryAt(k: Tables, ops: Ops, p: nat, r: nat, c: nat, out: nat, name: string) {
    JumpTo(k, ops, p, PUSH_CATCH, c) && At(ops, r, POP_CATCH) && JumpTo(k, ops, r + 1, JUMP, out)
    && Mark(k, ops, c) && NameAt(k, ops, c + 1, SAVE_CLOSE, name) && At(ops, c + 6, POP) && Mark(k, ops, out)
  }

  predicate CodeB(k: Tables, ops: Ops, p: nat, b: Block, brk: int, cont: int)
    decreases b, 0
  {
    b.Then? ==> CodeS(k, ops, p, b.first, brk, cont) && CodeB(k, ops, p + SizeS(b.first), b.rest, brk, cont)
  }

  // ----- programs -----

  /** The code of a whole program. PUSH_NIL and RETURN are added unless it ends with
      a return (src/compiler/ast_compiler.c:1680-1684). */
  predicate CodeProgram(k: Tables, ops: Ops, b: Block) {
    CodeB(k, ops, 0, b, -1, -1)
    && (EndsInReturn(b) || (At(ops, SizeB(b), PUSH_NIL) && At(ops, SizeB(b) + 1, RETURN)))
  }

  /** The code of b and nothing else. */
  predicate ProgramCode(k: Tables, ops: Ops, b: Block) {
    k.resolved && CodeProgram(k, ops, b) && |ops| == SizeB(b) + if EndsInReturn(b) then 0 else 2
  }

  predicate EndsInReturn(b: Block) {
    b.Then? && if b.rest.End? then b.first.Return? else EndsInReturn(b.rest)
  }
}

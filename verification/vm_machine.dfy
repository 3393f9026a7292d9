/** The bytecode machine (src/interpreter/lky_machine.c:326-979): its instruction
    set and one turn of its dispatch loop. */
module LankyMachine {
  import opened Sequences
  import opened LankySyntax
  import opened LankySemantics

  // ----- src/interpreter/instruction_set.h -----

  const BINARY_FIRST := 50
  const UNARY_NOT := 70
  const UNARY_NEGATIVE := 71
  const LOAD_CONST := 72
  const PRINT := 73
  const POP := 74
  const JUMP_FALSE := 75
  const JUMP := 77
  const JUMP_FALSE_ELSE_POP := 78
  const JUMP_TRUE_ELSE_POP := 79
  const IGNORE := 80
  const PUSH_NIL := 83
  const PUSH_BOOL := 84
  const CALL_FUNC := 86
  const RETURN := 87
  const SAVE_CLOSE := 92
  const LOAD_CLOSE := 93
  const MAKE_ARRAY := 94
  const LOAD_INDEX := 97
  const SAVE_INDEX := 98
  const DDUPLICATE := 100
  const SINK_FIRST := 102
  const MAKE_ITER := 103
  const NEXT_ITER_OR_JUMP := 104
  const ITER_INDEX := 105
  const PUSH_CATCH := 107
  const POP_CATCH := 108
  const RAISE := 109

  /** The order of the binary operators in the instruction set. */
  const BINARY_OPS := [Add, Subtract, Multiply, Divide, Modulo, Power, Less, Greater, Equal, LessEqual, GreaterEqual,
                      NotEqual, And, Or, NilOr, BitAnd, BitOr, BitXor, ShiftLeft, ShiftRight]

  // ----- state -----

  /** An operand: a value, or the iterator object of a running for-in loop. */
  datatype Entry = Val(v: Value) | Iter(addr: nat, index: nat)

  datatype Code = Code(ops: seq<int>, constants: seq<Constant>, names: seq<string>)

  /** A frame. As in the program, pc is the address of the last byte consumed. */
  datatype Frame = Frame(pc: int, stack: seq<Entry>, w: World, ret: Option<Value>, error: Option<Error>,
                         catches: seq<int>)

  datatype Status = Running(f: Frame) | Finished(r: Final)

  function Start(w: World): Frame {
    Frame(-1, [], w, None, None, [])
  }

  /** The unsigned little-endian operand at address i. */
  function Operand(ops: seq<int>, i: nat): int
    requires i + 3 < |ops|
  {
    ops[i] + 256 * ops[i + 1] + 65536 * ops[i + 2] + 16777216 * ops[i + 3]
  }

  function Push(f: Frame, pc: int, e: Entry): Status {
    Running(f.(pc := pc, stack := f.stack + [e]))
  }

  predicate Holds(f: Frame, n: nat) {
    n <= |f.stack| && forall i | |f.stack| - n <= i < |f.stack| :: f.stack[i].Val?
  }

  /** The k-th value from the top. */
  function Top(f: Frame, k: nat): Value
    requires Holds(f, k + 1)
  {
    f.stack[|f.stack| - 1 - k].v
  }

  function Drop(f: Frame, n: nat): seq<Entry>
    requires n <= |f.stack|
  {
    f.stack[..|f.stack| - n]
  }

  /** Continue after an operation that replaces the n top operands by its result. An
      error is noted; the loop looks at it before the next instruction. */
  function Deliver(f: Frame, pc: int, n: nat, r: Eval): Status
    requires n <= |f.stack|
  {
    match r
    case Ok(v, w) => Running(f.(pc := pc, stack := Drop(f, n) + [Val(v)], w := w))
    case Raised(err, w) => Running(f.(pc := pc, stack := Drop(f, n) + [Val(Nil)], w := w, error := Some(err)))
    case Crashed(w) => Finished(Crash(w))
  }

  /** Backward jumps land on the opcode itself, forward jumps behind the marker. */
  function JumpFrom(pc: int, target: int): int {
    if target == 0 then -1 else if target < pc then target - 1 else target
  }

  /** A count read back as a signed char. */
  function SignedCount(b: int): nat {
    if 0 <= b < 128 then b else 0
  }

  function Values(es: seq<Entry>): seq<Value>
    requires forall e <- es :: e.Val?
  {
    seq(|es|, i requires 0 <= i < |es| => es[i].v)
  }

  function Stuck(f: Frame): Status {
    Finished(Crash(f.w))
  }

  // ----- one turn of the loop -----

  function Step(rt: Runtime, code: Code, f: Frame): Status {
    if f.ret.Some? then Finished(Answer(f.ret.value, f.w))
    else if f.error.Some? then
      if f.catches == [] then Finished(Fatal(f.error.value, f.w))
      else
        var n := |f.catches| - 1;
        Running(f.(error := None, stack := f.stack + [Val(Exception(f.error.value))],
                   pc := f.catches[n], catches := f.catches[..n]))
    else if 0 <= f.pc + 1 < |code.ops| then Execute(rt, code, f, f.pc + 1)
    else Stuck(f)
  }

  function Execute(rt: Runtime, code: Code, f: Frame, p: nat): Status
    requires p < |code.ops|
  {
    var op := code.ops[p];
    if BINARY_FIRST <= op < BINARY_FIRST + |BINARY_OPS| then
      if Holds(f, 2) then Deliver(f, p, 2, rt.binary(BINARY_OPS[op - BINARY_FIRST], Top(f, 1), Top(f, 0), f.w))
      else Stuck(f)
    else if op == IGNORE then Running(f.(pc := p))
    else if op == POP then if |f.stack| > 0 then Running(f.(pc := p, stack := Drop(f, 1))) else Stuck(f)
    else if op == PUSH_NIL then Push(f, p, Val(Nil))
    else if op in {UNARY_NOT, UNARY_NEGATIVE, PRINT, RETURN, RAISE, MAKE_ITER} then
      if Holds(f, 1) then ExecuteOnTop(rt, f, p, op) else Stuck(f)
    else if op in {LOAD_INDEX, SAVE_INDEX, DDUPLICATE, SINK_FIRST} then ExecuteIndexing(rt, f, p, op)
    else if op == ITER_INDEX then
      if |f.stack| > 0 && f.stack[|f.stack| - 1].Iter? then
        Push(f, p, Val(Int(f.stack[|f.stack| - 1].index - 1)))
      else Stuck(f)
    else if op == POP_CATCH then
      if f.catches != [] then Running(f.(pc := p, catches := f.catches[..|f.catches| - 1])) else Stuck(f)
    else if op == PUSH_BOOL && p + 1 < |code.ops| then Push(f, p + 1, Val(BoolValue(code.ops[p + 1] != 0)))
    else if op == CALL_FUNC && p + 1 < |code.ops| then ExecuteCall(rt, f, p, SignedCount(code.ops[p + 1]))
    else if p + 4 < |code.ops| then ExecuteWide(rt, code, f, p, op, Operand(code.ops, p + 1))
    else Stuck(f)
  }

  function ExecuteOnTop(rt: Runtime, f: Frame, p: nat, op: int): Status
    requires Holds(f, 1)
  {
    var v := Top(f, 0);
    if op == UNARY_NOT then Deliver(f, p, 1, rt.unary(Not, v, f.w))
    else if op == UNARY_NEGATIVE then Deliver(f, p, 1, rt.unary(Negative, v, f.w))
    else if op == PRINT then
      match PrintValue(rt, v, f.w)
      case Ok(_, w) => Running(f.(pc := p, stack := Drop(f, 1), w := w))
      case Raised(err, w) => Running(f.(pc := p, stack := Drop(f, 1), w := w, error := Some(err)))
      case Crashed(w) => Finished(Crash(w))
    else if op == RETURN then Running(f.(pc := p, stack := Drop(f, 1), ret := Some(v)))
    else if op == RAISE then Running(f.(pc := p, stack := Drop(f, 1), error := Some(Custom(v))))
    else // MAKE_ITER
      match IterableOf(rt, v, f.w)
      case Ok(a, w) => Running(f.(pc := p, stack := Drop(f, 1) + [Iter(a.addr, 0)], w := w))
      case Raised(err, w) => Running(f.(pc := p, stack := Drop(f, 1) + [Val(Nil)], w := w, error := Some(err)))
      case Crashed(w) => Finished(Crash(w))
  }

  function ExecuteIndexing(rt: Runtime, f: Frame, p: nat, op: int): Status {
    if op == LOAD_INDEX then
      if Holds(f, 2) then Deliver(f, p, 2, LoadIndex(rt, Top(f, 1), Top(f, 0), f.w)) else Stuck(f)
    else if op == SAVE_INDEX then
      if Holds(f, 3) then
        match SaveIndex(rt, Top(f, 1), Top(f, 0), Top(f, 2), f.w)
        case Ok(_, w) => Running(f.(pc := p, stack := Drop(f, 2), w := w))
        case Raised(err, w) => Running(f.(pc := p, stack := Drop(f, 2), w := w, error := Some(err)))
        case Crashed(w) => Finished(Crash(w))
      else Stuck(f)
    else if op == DDUPLICATE then
      if Holds(f, 2) then Running(f.(pc := p, stack := f.stack + [Val(Top(f, 1)), Val(Top(f, 0))])) else Stuck(f)
    else // SINK_FIRST
      if Holds(f, 3) then
        Running(f.(pc := p, stack := Drop(f, 3) + [Val(Top(f, 0)), Val(Top(f, 2)), Val(Top(f, 1))]))
      else Stuck(f)
  }

  /** The callee is on top, above its n arguments. A native function that fails has returned
      nil, which is pushed all the same; a function of the language that fails leaves nothing. */
  function ExecuteCall(rt: Runtime, f: Frame, p: nat, n: nat): Status {
    if Holds(f, n + 1) then
      var callee, args := Top(f, 0), Values(f.stack[|f.stack| - 1 - n..|f.stack| - 1]);
      var r := rt.call(callee, args, f.w);
      if r.Raised? && rt.quits(callee, args, f.w) then
        Running(f.(pc := p + 1, stack := Drop(f, n + 1), w := r.w, error := Some(r.err)))
      else Deliver(f, p + 1, n + 1, r)
    else Stuck(f)
  }

  /** The instructions with a four-byte operand n; they end at address p + 4. */
  function ExecuteWide(rt: Runtime, code: Code, f: Frame, p: nat, op: int, n: int): Status {
    var q := p + 4;
    if op == JUMP then Running(f.(pc := JumpFrom(q, n)))
    else if op == LOAD_CONST then
      if 0 <= n < |code.constants| then Push(f, q, Val(ConstantValue(code.constants[n]))) else Stuck(f)
    else if op == LOAD_CLOSE then
      if 0 <= n < |code.names| then
        match LoadVar(code.names[n], f.w)
        case Ok(v, _) => Push(f, q, Val(v))
        case Raised(err, _) => Running(f.(pc := q, error := Some(err)))
        case _ => Stuck(f)
      else Stuck(f)
    else if op == SAVE_CLOSE then
      if 0 <= n < |code.names| && Holds(f, 1) then
        Running(f.(pc := q, w := SaveVar(code.names[n], Top(f, 0), f.w)))
      else Stuck(f)
    else if op == JUMP_FALSE then
      if Holds(f, 1) then Running(f.(pc := if rt.truthy(Top(f, 0)) then q else n, stack := Drop(f, 1))) else Stuck(f)
    else if op == JUMP_FALSE_ELSE_POP || op == JUMP_TRUE_ELSE_POP then
      if Holds(f, 1) then
        if Decides(rt, if op == JUMP_TRUE_ELSE_POP then OrElse else AndAlso, Top(f, 0)) then Running(f.(pc := n))
        else Running(f.(pc := q, stack := Drop(f, 1)))
      else Stuck(f)
    else if op == MAKE_ARRAY then
      if n >= 0 && Holds(f, n) then
        var (a, w) := MakeArray(Values(f.stack[|f.stack| - n..]), f.w);
        Running(f.(pc := q, stack := Drop(f, n) + [Val(a)], w := w))
      else Stuck(f)
    else if op == NEXT_ITER_OR_JUMP then ExecuteNextIter(f, p, n)
    else if op == PUSH_CATCH then Running(f.(pc := q, catches := f.catches + [n]))
    else Stuck(f)
  }

  /** The iterator stays on the stack; it looks at its array as it is now. Any other object
      on top has no next element, so that the loop is left; a small integer is no object. */
  function ExecuteNextIter(f: Frame, p: nat, n: int): Status {
    if f.stack == [] then Stuck(f)
    else
      match f.stack[|f.stack| - 1]
      case Iter(a, i) => if a < |f.w.arrays| then NextItem(f, p, n, a, i) else Stuck(f)
      case Val(v) => if v.Int? then Stuck(f) else Running(f.(pc := JumpFrom(p + 4, n)))
  }

  function NextItem(f: Frame, p: nat, n: int, a: nat, i: nat): Status
    requires f.stack != [] && a < |f.w.arrays|
  {
    if i < |f.w.arrays[a]| then
      Running(f.(pc := p + 4, stack := f.stack[|f.stack| - 1 := Iter(a, i + 1)] + [Val(f.w.arrays[a][i])]))
    else Running(f.(pc := JumpFrom(p + 4, n)))
  }

  // ----- runs -----

  function Run(rt: Runtime, code: Code, s: Status, n: nat): Status
    decreases n
  {
    if n == 0 || s.Finished? then s else Run(rt, code, Step(rt, code, s.f), n - 1)
  }

  lemma {:induction false} RunMore(rt: Runtime, code: Code, s: Status, m: nat, n: nat)
    ensures Run(rt, code, s, m + n) == Run(rt, code, Run(rt, code, s, m), n)
    decreases m
  {
    if m > 0 && s.Running? {
      RunMore(rt, code, Step(rt, code, s.f), m - 1, n);
    }
  }
}

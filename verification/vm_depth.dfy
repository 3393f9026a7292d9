/** How deep the operand stack is at each address of compiled code: the depth depends on
    the place alone. */
module LankyDepth {
  import opened Buffers
  import opened LankySyntax
  import opened LankyMachine
  import opened LankyLayout

  /** What holds before an instruction: how deep the operand stack is, and the handlers of
      the try blocks around, the innermost last. */
  datatype Spot = Spot(depth: int, handlers: seq<int>) {
    function Up(n: int): Spot {
      Spot(depth + n, handlers)
    }
  }

  type Place = s: Spot | s.depth >= 0 witness Spot(0, [])

  /** A byte of an operand is no place. */
  const BYTE := Spot(-1, [])

  type Depths = seq<Spot>

  /** What is known about the code: nothing, that it has no try, or that the analyzer takes
      it for what it is. */
  datatype Mode = Any | Untried | Plain

  function WideAt(h: Spot): (r: Depths)
    ensures |r| == 5 && r[0] == h
  {
    [h, BYTE, BYTE, BYTE, BYTE]
  }

  function TwoAt(h: Spot): (r: Depths)
    ensures |r| == 2 && r[0] == h
  {
    [h, BYTE]
  }

  function DepthE(e: Expr, d: Place): (r: Depths)
    ensures |r| == SizeE(e) && r[0] == d
    decreases e, 1
  {
    match e
    case Const(_) => WideAt(d)
    case Var(_) => WideAt(d)
    case NilLit => [d]
    case BoolLit(_) => TwoAt(d)
    case Unary(_, a) => DepthE(a, d) + [d.Up(1)]
    case Binary(_, a, b) => DepthE(a, d) + DepthE(b, d.Up(1)) + [d.Up(2)]
    case Cond(_, a, b) => CondDepths(DepthE(a, d), DepthE(b, d), b.Cond?, d)
    case Ternary(a, b, c) => TernaryDepths(DepthE(a, d), DepthE(b, d), DepthE(c, d), d)
    case Assign(_, a) => DepthE(a, d) + WideAt(d.Up(1))
    case ArrayLit(es) => DepthAll(es, d) + WideAt(d.Up(Count(es)))
    case Index(_, _) => DepthAccess(e, d)
    case SetIndex(_, _, _) => DepthAccess(e, d)
    case Update(_, _, _, _) => DepthAccess(e, d)
    case Call(es, f) => CallDepths(DepthAll(es, d), DepthE(f, d.Up(Count(es))), d.Up(Count(es) + 1))
  }

  function DepthAccess(e: Expr, d: Place): (r: Depths)
    requires e.Index? || e.SetIndex? || e.Update?
    ensures |r| == SizeE(e) && r[0] == d
    decreases e, 0
  {
    match e
    case Index(t, i) => DepthE(t, d) + DepthE(i, d.Up(1)) + [d.Up(2)]
    case SetIndex(t, i, v) => ThreeDepths(DepthE(v, d), DepthE(t, d.Up(1)), DepthE(i, d.Up(2)), d)
    case Update(_, t, i, v) => DepthE(t, d) + DepthE(i, d.Up(1)) + UpdateDepths(DepthE(v, d.Up(3)), d)
  }

  function CondDepths(x: Depths, y: Depths, chained: bool, d: Place): (r: Depths)
    requires |x| > 0
    ensures |r| == |x| + 5 + |y| + (if chained then 0 else 1) && r[0] == x[0]
  {
    x + WideAt(d.Up(1)) + if chained then y else y + [d.Up(1)]
  }

  function TernaryDepths(x: Depths, y: Depths, z: Depths, d: Place): (r: Depths)
    requires |x| > 0
    ensures |r| == |x| + |y| + |z| + 12 && r[0] == x[0]
  {
    x + WideAt(d.Up(1)) + (y + WideAt(d.Up(1)) + ([d] + z + [d.Up(1)]))
  }

  function ThreeDepths(x: Depths, y: Depths, z: Depths, d: Place): (r: Depths)
    requires |x| > 0
    ensures |r| == |x| + |y| + |z| + 1 && r[0] == x[0]
  {
    x + (y + z) + [d.Up(3)]
  }

  function CallDepths(x: Depths, y: Depths, h: Place): (r: Depths)
    requires |x| + |y| > 0
    ensures |r| == |x| + |y| + 2 && r[0] == if x != [] then x[0] else y[0]
  {
    x + y + TwoAt(h)
  }

  function UpdateDepths(x: Depths, d: Place): (r: Depths)
    ensures |r| == |x| + 5 && r[0] == d.Up(2)
  {
    [d.Up(2), d.Up(4)] + x + [d.Up(4), d.Up(3), d.Up(3)]
  }

  function DepthAll(es: Exprs, d: Place): (r: Depths)
    ensures |r| == SizeAll(es) && (es.More? ==> r[0] == d)
    decreases es, 1
  {
    match es
    case Nothing => []
    case More(e, rest) => DepthE(e, d) + DepthAll(rest, d.Up(1))
  }

  // ----- what is to be checked at one instruction -----

  predicate Next(D: Depths, q: int, h: Spot) {
    0 <= q < |D| && D[q] == h
  }

  /** The bytes of an operand between q and q + n. */
  predicate Blank(D: Depths, q: nat, n: nat) {
    q + n <= |D| && forall i :: q < i < q + n ==> D[i] == BYTE
  }

  /** In a try block whose handler is at n, and out of one. */
  function Inside(h: Spot, n: int): Spot {
    Spot(h.depth, h.handlers + [n])
  }

  function Outside(h: Spot): Spot
    requires h.handlers != []
  {
    Spot(h.depth, h.handlers[..|h.handlers| - 1])
  }

  /** A handler at n goes on behind its marker, inside of the try blocks hs. */
  predicate Handles(D: Depths, n: int, hs: seq<int>) {
    0 <= n + 1 < |D| && D[n + 1].depth >= 0 && D[n + 1].handlers == hs
  }

  /** What stands behind a jump is not far from it, and in the same try blocks. */
  predicate Behind(D: Depths, q: nat, h: Spot) {
    q < |D| && 0 <= D[q].depth <= h.depth + 1 && D[q].handlers == h.handlers
  }

  /** Enough operands, and the right depth wherever the machine can go on. */
  predicate Flows(ops: Ops, D: Depths, q: nat)
    requires q < |ops| && q < |D|
  {
    var op, h := ops[q], D[q];
    if BINARY_FIRST <= op < BINARY_FIRST + |BINARY_OPS| || op == LOAD_INDEX then
      h.depth >= 2 && Next(D, q + 1, h.Up(-1))
    else if op == IGNORE then Next(D, q + 1, h)
    else if op == POP || op == PRINT || op == RETURN || op == RAISE then h.depth >= 1 && Next(D, q + 1, h.Up(-1))
    else if op == PUSH_NIL then Next(D, q + 1, h.Up(1))
    else if op == UNARY_NOT || op == UNARY_NEGATIVE || op == MAKE_ITER then h.depth >= 1 && Next(D, q + 1, h)
    else if op == SAVE_INDEX then h.depth >= 3 && Next(D, q + 1, h.Up(-2))
    else if op == DDUPLICATE then h.depth >= 2 && Next(D, q + 1, h.Up(2))
    else if op == SINK_FIRST then h.depth >= 3 && Next(D, q + 1, h)
    else if op == ITER_INDEX then h.depth >= 1 && Next(D, q + 1, h.Up(1))
    else if op == PUSH_BOOL then q + 1 < |ops| && Next(D, q + 2, h.Up(1)) && Blank(D, q, 2)
    else if op == CALL_FUNC then
      q + 1 < |ops| && h.depth >= SignedCount(ops[q + 1]) + 1
      && Next(D, q + 2, h.Up(0 - SignedCount(ops[q + 1]))) && Blank(D, q, 2)
    else if op == POP_CATCH then h.handlers != [] && Next(D, q + 1, Outside(h))
    else Bytes(ops, q + 1) && Blank(D, q, 5) && FlowsWide(ops, D, q, Operand(ops, q + 1))
  }

  predicate FlowsWide(ops: Ops, D: Depths, q: nat, n: int)
    requires q < |ops| && q < |D|
  {
    var op, h := ops[q], D[q];
    if op == JUMP then Next(D, JumpFrom(q + 4, n) + 1, h) && Behind(D, q + 5, h)
    else if op == LOAD_CONST || op == LOAD_CLOSE then Next(D, q + 5, h.Up(1))
    else if op == SAVE_CLOSE then h.depth >= 1 && Next(D, q + 5, h)
    else if op == JUMP_FALSE then h.depth >= 1 && Next(D, q + 5, h.Up(-1)) && Next(D, n + 1, h.Up(-1))
    else if op == JUMP_FALSE_ELSE_POP || op == JUMP_TRUE_ELSE_POP then
      h.depth >= 1 && Next(D, q + 5, h.Up(-1)) && Next(D, n + 1, h)
    else if op == PUSH_CATCH then Next(D, q + 5, Inside(h, n)) && Handles(D, n, h.handlers)
    else if op == MAKE_ARRAY then 0 <= n <= h.depth && Next(D, q + 5, h.Up(1 - n))
    else if op == NEXT_ITER_OR_JUMP then h.depth >= 1 && Next(D, q + 5, h.Up(1)) && Next(D, JumpFrom(q + 4, n) + 1, h)
    else false
  }

  predicate IsWide(op: int) {
    op in {JUMP, LOAD_CONST, LOAD_CLOSE, SAVE_CLOSE, JUMP_FALSE, JUMP_FALSE_ELSE_POP, JUMP_TRUE_ELSE_POP, MAKE_ARRAY,
           NEXT_ITER_OR_JUMP}
  }

  /** Operands below this have nothing above 49 in their three upper bytes. */
  const OPERAND_LIMIT := 12800

  /** An instruction that the analyzer takes for what it is. */
  predicate Simple(ops: Ops, D: Depths, q: nat)
    requires q < |ops| && q < |D|
  {
    var op := ops[q];
    op !in {LOAD_INDEX, PUSH_CATCH, POP_CATCH}
    && (op == CALL_FUNC ==> q + 1 < |ops| && 0 <= ops[q + 1] < BINARY_FIRST)
    && (op == JUMP ==> q + 5 < |D| && D[q + 5].depth <= D[q].depth)
    && (IsWide(op) ==> q + 4 < |ops| && Operand(ops, q + 1) < OPERAND_LIMIT)
  }

  predicate Good(ops: Ops, D: Depths, mode: Mode, q: nat)
    requires q < |ops| && q < |D|
  {
    Flows(ops, D, q) && (mode.Plain? ==> Simple(ops, D, q)) && (mode.Any? || ops[q] != PUSH_CATCH)
  }

  /** Everything from i up to j is as it should be. */
  predicate AllFlow(ops: Ops, D: Depths, mode: Mode, i: nat, j: nat)
    requires |D| == |ops| + 1
  {
    forall q :: i <= q < j && q < |ops| && D[q].depth >= 0 ==> Good(ops, D, mode, q)
  }

  predicate Fit(k: Tables, ops: Ops, D: Depths, mode: Mode) {
    k.resolved && k.exact && |D| == |ops| + 1
    && (mode.Plain? ==> |ops| <= OPERAND_LIMIT && |k.consts| <= OPERAND_LIMIT && |k.names| <= OPERAND_LIMIT)
  }

  /** No element is loaded, and no call has so many arguments that their number is taken for
      an opcode. */
  predicate PlainE(e: Expr) {
    match e
    case Unary(_, a) => PlainE(a)
    case Binary(_, a, b) => PlainE(a) && PlainE(b)
    case Cond(_, a, b) => PlainE(a) && PlainE(b)
    case Ternary(a, b, c) => PlainE(a) && PlainE(b) && PlainE(c)
    case Assign(_, a) => PlainE(a)
    case ArrayLit(es) => PlainAll(es)
    case Index(_, _) => false
    case SetIndex(t, i, v) => PlainE(t) && PlainE(i) && PlainE(v)
    case Update(_, _, _, _) => false
    case Call(es, f) => Count(es) < BINARY_FIRST && PlainAll(es) && PlainE(f)
    case _ => true
  }

  predicate PlainAll(es: Exprs) {
    es.More? ==> PlainE(es.head) && PlainAll(es.tail)
  }

  lemma NoneFlow(ops: Ops, D: Depths, mode: Mode, i: nat)
    requires |D| == |ops| + 1
    ensures AllFlow(ops, D, mode, i, i)
  {}

  lemma OneFlows(ops: Ops, D: Depths, mode: Mode, q: nat)
    requires |D| == |ops| + 1 > q + 1 && Good(ops, D, mode, q)
    ensures AllFlow(ops, D, mode, q, q + 1)
  {
    hide Good;
  }

  lemma TwoFlow(ops: Ops, D: Depths, mode: Mode, q: nat)
    requires |D| == |ops| + 1 && q + 1 < |ops| && Good(ops, D, mode, q) && Blank(D, q, 2)
    ensures AllFlow(ops, D, mode, q, q + 2)
  {
    hide Good;
  }

  lemma WideFlows(ops: Ops, D: Depths, mode: Mode, q: nat)
    requires |D| == |ops| + 1 && q + 4 < |ops| && Good(ops, D, mode, q) && Blank(D, q, 5)
    ensures AllFlow(ops, D, mode, q, q + 5)
  {
    hide Good;
  }

  lemma WideBlank(D: Depths, q: nat, h: Place)
    requires Has(D, q, WideAt(h))
    ensures q + 5 <= |D| && D[q] == h && Blank(D, q, 5)
  {
    hide Has;
    HasAt(D, q, WideAt(h), 0);
    HasAt(D, q, WideAt(h), 1);
    HasAt(D, q, WideAt(h), 2);
    HasAt(D, q, WideAt(h), 3);
    HasAt(D, q, WideAt(h), 4);
  }

  lemma TwoBlank(D: Depths, q: nat, h: Place)
    requires Has(D, q, TwoAt(h))
    ensures q + 2 <= |D| && D[q] == h && Blank(D, q, 2)
  {
    hide Has;
    HasAt(D, q, TwoAt(h), 0);
    HasAt(D, q, TwoAt(h), 1);
  }

  lemma Joined(ops: Ops, D: Depths, mode: Mode, i: nat, j: nat, k: nat)
    requires |D| == |ops| + 1 && AllFlow(ops, D, mode, i, j) && AllFlow(ops, D, mode, j, k)
    ensures AllFlow(ops, D, mode, i, k)
  {
    hide Good;
  }

  /** A piece x in front of more: where x is, and that what follows begins with depth h. */
  lemma Split(D: Depths, p: nat, x: Depths, y: Depths)
    requires Has(D, p, x + y) && |y| > 0
    ensures Has(D, p, x) && Has(D, p + |x|, y) && p + |x| < |D| && D[p + |x|] == y[0]
  {
    HasBoth(D, p, x, y);
    HasAt(D, p + |x|, y, 0);
  }

  // ----- single instructions -----

  lemma ConstFlows(k: Tables, ops: Ops, D: Depths, mode: Mode, q: nat, c: Constant, h: Place)
    requires Fit(k, ops, D, mode) && ConstAt(k, ops, q, c) && Has(D, q, WideAt(h)) && Next(D, q + 5, h.Up(1))
    ensures AllFlow(ops, D, mode, q, q + 5)
  {
    hide AllFlow, Has, WideAt, TwoAt, Blank;
    WideBlank(D, q, h);
    WideFlows(ops, D, mode, q);
  }

  lemma LoadFlows(k: Tables, ops: Ops, D: Depths, mode: Mode, q: nat, name: string, h: Place)
    requires Fit(k, ops, D, mode) && NameAt(k, ops, q, LOAD_CLOSE, name) && Has(D, q, WideAt(h))
             && Next(D, q + 5, h.Up(1))
    ensures AllFlow(ops, D, mode, q, q + 5)
  {
    hide AllFlow, Has, WideAt, TwoAt, Blank;
    WideBlank(D, q, h);
    WideFlows(ops, D, mode, q);
  }

  lemma SaveFlows(k: Tables, ops: Ops, D: Depths, mode: Mode, q: nat, name: string, h: Place)
    requires Fit(k, ops, D, mode) && NameAt(k, ops, q, SAVE_CLOSE, name) && Has(D, q, WideAt(h)) && h.depth > 0
             && Next(D, q + 5, h)
    ensures AllFlow(ops, D, mode, q, q + 5)
  {
    hide AllFlow, Has, WideAt, TwoAt, Blank;
    WideBlank(D, q, h);
    WideFlows(ops, D, mode, q);
  }

  lemma NilFlows(ops: Ops, D: Depths, mode: Mode, q: nat)
    requires |D| == |ops| + 1 && At(ops, q, PUSH_NIL) && Next(D, q + 1, D[q].Up(1))
    ensures AllFlow(ops, D, mode, q, q + 1)
  {
    hide AllFlow, Blank;
    OneFlows(ops, D, mode, q);
  }

  lemma BoolFlows(ops: Ops, D: Depths, mode: Mode, q: nat, b: bool, h: Place)
    requires |D| == |ops| + 1 && At(ops, q, PUSH_BOOL) && At(ops, q + 1, if b then 1 else 0)
    requires Has(D, q, TwoAt(h)) && Next(D, q + 2, h.Up(1))
    ensures AllFlow(ops, D, mode, q, q + 2)
  {
    hide AllFlow, Has, WideAt, TwoAt, Blank;
    TwoBlank(D, q, h);
    TwoFlow(ops, D, mode, q);
  }

  lemma CallFlows(ops: Ops, D: Depths, mode: Mode, q: nat, n: nat, h: Place)
    requires |D| == |ops| + 1 && (mode.Plain? ==> n < BINARY_FIRST) && At(ops, q, CALL_FUNC) && At(ops, q + 1, n)
             && n <= MAX_ARGS
    requires Has(D, q, TwoAt(h)) && h.depth > n && Next(D, q + 2, h.Up(0 - n))
    ensures AllFlow(ops, D, mode, q, q + 2)
  {
    hide AllFlow, Has, WideAt, TwoAt, Blank;
    TwoBlank(D, q, h);
    TwoFlow(ops, D, mode, q);
  }

  lemma ArrayFlows(ops: Ops, D: Depths, mode: Mode, q: nat, n: nat, h: Place)
    requires |D| == |ops| + 1 && (mode.Plain? ==> |ops| <= OPERAND_LIMIT) && Wide(ops, q, MAKE_ARRAY, n)
             && Has(D, q, WideAt(h))
    requires n <= h.depth && (mode.Plain? ==> n < OPERAND_LIMIT) && Next(D, q + 5, h.Up(1 - n))
    ensures AllFlow(ops, D, mode, q, q + 5)
  {
    hide AllFlow, Has, WideAt, TwoAt, Blank;
    WideBlank(D, q, h);
    WideFlows(ops, D, mode, q);
  }

  lemma JumpFlows(ops: Ops, D: Depths, mode: Mode, q: nat, n: nat, h: Place)
    requires |D| == |ops| + 1 && (mode.Plain? ==> |ops| <= OPERAND_LIMIT) && Wide(ops, q, JUMP, n)
             && Has(D, q, WideAt(h))
    requires if n < q + 4 then Next(D, n, h) else Next(D, n + 1, h)
    requires Behind(D, q + 5, h) && (mode.Plain? ==> D[q + 5].depth <= h.depth)
    ensures AllFlow(ops, D, mode, q, q + 5)
  {
    hide AllFlow, Has, WideAt, TwoAt, Blank;
    WideBlank(D, q, h);
    WideFlows(ops, D, mode, q);
  }

  lemma JumpFalseFlows(ops: Ops, D: Depths, mode: Mode, q: nat, n: nat, h: Place)
    requires |D| == |ops| + 1 && (mode.Plain? ==> |ops| <= OPERAND_LIMIT) && Wide(ops, q, JUMP_FALSE, n)
             && Has(D, q, WideAt(h.Up(1)))
    requires Next(D, q + 5, h) && Next(D, n + 1, h)
    ensures AllFlow(ops, D, mode, q, q + 5)
  {
    hide AllFlow, Has, WideAt, TwoAt, Blank;
    WideBlank(D, q, h.Up(1));
    WideFlows(ops, D, mode, q);
  }

  lemma DecideFlows(ops: Ops, D: Depths, mode: Mode, q: nat, op: CondOp, n: nat, h: Place)
    requires |D| == |ops| + 1 && (mode.Plain? ==> |ops| <= OPERAND_LIMIT) && Wide(ops, q, CondOpcode(op), n)
             && Has(D, q, WideAt(h.Up(1)))
    requires Next(D, q + 5, h) && Next(D, n + 1, h.Up(1))
    ensures AllFlow(ops, D, mode, q, q + 5)
  {
    hide AllFlow, Has, WideAt, TwoAt, Blank;
    WideBlank(D, q, h.Up(1));
    WideFlows(ops, D, mode, q);
  }

  lemma IterFlows(ops: Ops, D: Depths, mode: Mode, q: nat, n: nat, h: Place)
    requires |D| == |ops| + 1 && (mode.Plain? ==> |ops| <= OPERAND_LIMIT) && Wide(ops, q, NEXT_ITER_OR_JUMP, n)
             && Has(D, q, WideAt(h.Up(1)))
    requires Next(D, q + 5, h.Up(2)) && n > q + 4 && Next(D, n + 1, h.Up(1))
    ensures AllFlow(ops, D, mode, q, q + 5)
  {
    hide AllFlow, Has, WideAt, TwoAt, Blank;
    WideBlank(D, q, h.Up(1));
    WideFlows(ops, D, mode, q);
  }

  /** An opcode without operand that takes `takes` operands off and puts `puts` on. */
  predicate Shifts(op: int, takes: nat, puts: nat) {
    if BINARY_FIRST <= op < BINARY_FIRST + |BINARY_OPS| || op == LOAD_INDEX then takes == 2 && puts == 1
    else if op == IGNORE then takes == 0 && puts == 0
    else if op == POP || op == PRINT || op == RETURN || op == RAISE then takes == 1 && puts == 0
    else if op == UNARY_NOT || op == UNARY_NEGATIVE || op == MAKE_ITER then takes == 1 && puts == 1
    else if op == SAVE_INDEX then takes == 3 && puts == 1
    else if op == DDUPLICATE then takes == 2 && puts == 4
    else if op == SINK_FIRST then takes == 3 && puts == 3
    else if op == ITER_INDEX then takes == 1 && puts == 2
    else false
  }

  lemma OpFlows(ops: Ops, D: Depths, mode: Mode, q: nat, op: int, takes: nat, puts: nat)
    requires |D| == |ops| + 1 && At(ops, q, op) && Shifts(op, takes, puts) && D[q].depth >= takes
    requires Next(D, q + 1, D[q].Up(puts - takes))
    requires mode.Plain? ==> op != LOAD_INDEX
    ensures AllFlow(ops, D, mode, q, q + 1)
  {
    hide AllFlow, Blank;
    OneFlows(ops, D, mode, q);
  }

  lemma BinaryFlows(ops: Ops, D: Depths, mode: Mode, q: nat, op: BinOp)
    requires |D| == |ops| + 1 && At(ops, q, BinaryOpcode(op)) && D[q].depth >= 2 && Next(D, q + 1, D[q].Up(-1))
    ensures AllFlow(ops, D, mode, q, q + 1)
  {
    hide AllFlow;
    OneFlows(ops, D, mode, q);
  }

  lemma UnaryFlows(ops: Ops, D: Depths, mode: Mode, q: nat, op: UnOp)
    requires |D| == |ops| + 1 && At(ops, q, UnaryOpcode(op)) && D[q].depth >= 1 && Next(D, q + 1, D[q])
    ensures AllFlow(ops, D, mode, q, q + 1)
  {
    hide AllFlow;
    OneFlows(ops, D, mode, q);
  }

  // ----- expressions -----

  lemma {:induction false} FlowE(k: Tables, ops: Ops, D: Depths, mode: Mode, p: nat, e: Expr, d: Place)
    requires mode.Plain? ==> PlainE(e)
    requires Fit(k, ops, D, mode) && CodeE(k, ops, p, e) && Has(D, p, DepthE(e, d)) && Next(D, p + SizeE(e), d.Up(1))
    ensures AllFlow(ops, D, mode, p, p + SizeE(e))
    decreases SizeE(e), 3
  {
    hide AllFlow, Has, Next, CodeE, DepthE, SizeE, Fit;
    if e.Const? || e.Var? || e.NilLit? || e.BoolLit? {
      FlowLeaf(k, ops, D, mode, p, e, d);
    } else if e.Unary? || e.Binary? || e.Assign? {
      FlowOperator(k, ops, D, mode, p, e, d);
    } else if e.Cond? || e.Ternary? {
      FlowChoice(k, ops, D, mode, p, e, d);
    } else if e.ArrayLit? || e.Call? {
      FlowMany(k, ops, D, mode, p, e, d);
    } else {
      AccessDepths(e, d);
      FlowAccess(k, ops, D, mode, p, e, d);
    }
  }

  lemma AccessDepths(e: Expr, d: Place)
    requires e.Index? || e.SetIndex? || e.Update?
    ensures DepthE(e, d) == DepthAccess(e, d)
  {
    hide DepthAccess, SizeE;
  }

  lemma FlowLeaf(k: Tables, ops: Ops, D: Depths, mode: Mode, p: nat, e: Expr, d: Place)
    requires e.Const? || e.Var? || e.NilLit? || e.BoolLit?
    requires Fit(k, ops, D, mode) && CodeE(k, ops, p, e) && Has(D, p, DepthE(e, d)) && Next(D, p + SizeE(e), d.Up(1))
    ensures AllFlow(ops, D, mode, p, p + SizeE(e))
  {
    hide AllFlow, Has, WideAt, TwoAt, ConstAt, NameAt, At, Good;
    match e
    case Const(c) => ConstFlows(k, ops, D, mode, p, c, d);
    case Var(name) => LoadFlows(k, ops, D, mode, p, name, d);
    case NilLit =>
      HasAt(D, p, [d], 0);
      NilFlows(ops, D, mode, p);
    case BoolLit(b) => BoolFlows(ops, D, mode, p, b, d);
  }

  lemma {:induction false} FlowOperator(k: Tables, ops: Ops, D: Depths, mode: Mode, p: nat, e: Expr, d: Place)
    requires mode.Plain? ==> PlainE(e)
    requires e.Unary? || e.Binary? || e.Assign?
    requires Fit(k, ops, D, mode) && CodeE(k, ops, p, e) && Has(D, p, DepthE(e, d)) && Next(D, p + SizeE(e), d.Up(1))
    ensures AllFlow(ops, D, mode, p, p + SizeE(e))
    decreases SizeE(e), 1
  {
    hide AllFlow, Has, Next, Fit, CodeUnary, CodeBinary, CodeAssign, WideAt;
    match e
    case Unary(op, a) => FlowUnary(k, ops, D, mode, p, op, a, d);
    case Binary(op, a, b) => FlowBinary(k, ops, D, mode, p, op, a, b, d);
    case Assign(name, a) => FlowAssign(k, ops, D, mode, p, name, a, d);
  }

  lemma {:induction false} FlowChoice(k: Tables, ops: Ops, D: Depths, mode: Mode, p: nat, e: Expr, d: Place)
    requires mode.Plain? ==> PlainE(e)
    requires e.Cond? || e.Ternary?
    requires Fit(k, ops, D, mode) && CodeE(k, ops, p, e) && Has(D, p, DepthE(e, d)) && Next(D, p + SizeE(e), d.Up(1))
    ensures AllFlow(ops, D, mode, p, p + SizeE(e))
    decreases SizeE(e), 1
  {
    hide AllFlow, Has, Next, Fit, CodeCond, CodeTernary, WideAt, CondDepths, TernaryDepths;
    match e
    case Cond(op, a, b) => FlowCond(k, ops, D, mode, p, op, a, b, p + SizeE(e) - 1, d);
    case Ternary(a, b, c) => FlowTernary(k, ops, D, mode, p, a, b, c, d);
  }

  lemma {:induction false} FlowAccess(k: Tables, ops: Ops, D: Depths, mode: Mode, p: nat, e: Expr, d: Place)
    requires mode.Plain? ==> PlainE(e)
    requires e.Index? || e.SetIndex? || e.Update?
    requires Fit(k, ops, D, mode) && CodeE(k, ops, p, e) && Has(D, p, DepthAccess(e, d))
             && Next(D, p + SizeE(e), d.Up(1))
    ensures AllFlow(ops, D, mode, p, p + SizeE(e))
    decreases SizeE(e), 1
  {
    hide AllFlow, Has, Next, CodeIndex, CodeSetIndex, CodeUpdate, UpdateDepths, ThreeDepths, DepthE;
    match e
    case Index(t, i) => FlowIndex(k, ops, D, mode, p, t, i, d);
    case SetIndex(t, i, v) => FlowSetIndex(k, ops, D, mode, p, t, i, v, d);
    case Update(op, t, i, v) => FlowUpdate(k, ops, D, mode, p, op, t, i, v, d);
  }

  lemma {:induction false} FlowMany(k: Tables, ops: Ops, D: Depths, mode: Mode, p: nat, e: Expr, d: Place)
    requires mode.Plain? ==> PlainE(e)
    requires e.ArrayLit? || e.Call?
    requires Fit(k, ops, D, mode) && CodeE(k, ops, p, e) && Has(D, p, DepthE(e, d)) && Next(D, p + SizeE(e), d.Up(1))
    ensures AllFlow(ops, D, mode, p, p + SizeE(e))
    decreases SizeE(e), 1
  {
    hide AllFlow, Has, Next, CodeArray, CodeCall, WideAt, TwoAt, CallDepths;
    match e
    case ArrayLit(es) => FlowArray(k, ops, D, mode, p, es, d);
    case Call(es, f) => FlowCall(k, ops, D, mode, p, es, f, d);
  }

  lemma {:induction false} FlowUnary(k: Tables, ops: Ops, D: Depths, mode: Mode, p: nat, op: UnOp, a: Expr, d: Place)
    requires mode.Plain? ==> PlainE(a)
    requires Fit(k, ops, D, mode) && CodeUnary(k, ops, p, op, a) && Has(D, p, DepthE(a, d) + [d.Up(1)])
    requires Next(D, p + SizeE(a) + 1, d.Up(1))
    ensures AllFlow(ops, D, mode, p, p + SizeE(a) + 1)
    decreases SizeE(a) + 1, 0
  {
    hide AllFlow, Has, Good, PlainE, At, Wide, BinaryOpcode, UnaryOpcode, CondOpcode, WideAt, CodeE, DepthE, SizeE;
    var q := p + SizeE(a);
    Split(D, p, DepthE(a, d), [d.Up(1)]);
    FlowE(k, ops, D, mode, p, a, d);
    UnaryFlows(ops, D, mode, q, op);
    Joined(ops, D, mode, p, q, q + 1);
  }

  lemma {:induction false} FlowBinary(k: Tables, ops: Ops, D: Depths, mode: Mode, p: nat, op: BinOp, a: Expr, b: Expr,
                                      d: Place)
    requires mode.Plain? ==> PlainE(a) && PlainE(b)
    requires Fit(k, ops, D, mode) && CodeBinary(k, ops, p, op, a, b)
    requires Has(D, p, DepthE(a, d) + DepthE(b, d.Up(1)) + [d.Up(2)])
    requires Next(D, p + SizeE(a) + SizeE(b) + 1, d.Up(1))
    ensures AllFlow(ops, D, mode, p, p + SizeE(a) + SizeE(b) + 1)
    decreases SizeE(a) + SizeE(b) + 1, 0
  {
    hide AllFlow, Has, Good, PlainE, At, Wide, BinaryOpcode, UnaryOpcode, CondOpcode, WideAt, CodeE, DepthE, SizeE;
    var q, r := p + SizeE(a), p + SizeE(a) + SizeE(b);
    Split(D, p, DepthE(a, d) + DepthE(b, d.Up(1)), [d.Up(2)]);
    Split(D, p, DepthE(a, d), DepthE(b, d.Up(1)));
    FlowE(k, ops, D, mode, p, a, d);
    FlowE(k, ops, D, mode, q, b, d.Up(1));
    BinaryFlows(ops, D, mode, r, op);
    Joined(ops, D, mode, p, q, r);
    Joined(ops, D, mode, p, r, r + 1);
  }

  /** The shared marker at `end` has depth d.Up(1), as what follows has. */
  lemma {:induction false} FlowCond(k: Tables, ops: Ops, D: Depths, mode: Mode, p: nat, op: CondOp, a: Expr, b: Expr,
                                    end: nat, d: Place)
    requires mode.Plain? ==> PlainE(a) && PlainE(b)
    requires Fit(k, ops, D, mode) && CodeCond(k, ops, p, op, a, b, end)
    requires Has(D, p, CondDepths(DepthE(a, d), DepthE(b, d), b.Cond?, d))
    requires end + 1 == p + SizeE(a) + 5 + SizeE(b) + (if b.Cond? then 0 else 1) && Next(D, end + 1, d.Up(1))
    ensures AllFlow(ops, D, mode, p, end + 1)
    decreases SizeE(a) + 5 + SizeE(b) + (if b.Cond? then 0 else 1), 0
  {
    hide AllFlow, Has, Good, PlainE, Wide, BinaryOpcode, UnaryOpcode, CondOpcode, WideAt, CodeE, DepthE, SizeE,
         CondDepths;
    var q := p + SizeE(a);
    var r := q + 5;
    CondSplits(D, p, a, b, d);
    FlowE(k, ops, D, mode, p, a, d);
    DecideFlows(ops, D, mode, q, op, end, d);
    Joined(ops, D, mode, p, q, r);
    if b.Cond? {
      DepthCond(b, d);
      FlowCond(k, ops, D, mode, r, b.cop, b.left, b.right, end, d);
    } else {
      FlowE(k, ops, D, mode, r, b, d);
      OpFlows(ops, D, mode, end, IGNORE, 0, 0);
      Joined(ops, D, mode, r, end, end + 1);
    }
    Joined(ops, D, mode, p, r, end + 1);
  }

  lemma CondSplits(D: Depths, p: nat, a: Expr, b: Expr, d: Place)
    requires Has(D, p, CondDepths(DepthE(a, d), DepthE(b, d), b.Cond?, d))
    ensures var q := p + SizeE(a);
            var r := q + 5 + SizeE(b);
            Has(D, p, DepthE(a, d)) && Has(D, q, WideAt(d.Up(1))) && Next(D, q, d.Up(1))
            && Has(D, q + 5, DepthE(b, d)) && Next(D, q + 5, d) && (!b.Cond? ==> Next(D, r, d.Up(1)))
  {
    hide Has, WideAt, DepthE, SizeE;
    var q := p + SizeE(a);
    Split(D, p, DepthE(a, d) + WideAt(d.Up(1)), if b.Cond? then DepthE(b, d) else DepthE(b, d) + [d.Up(1)]);
    Split(D, p, DepthE(a, d), WideAt(d.Up(1)));
    if !b.Cond? {
      Split(D, q + 5, DepthE(b, d), [d.Up(1)]);
    }
  }

  lemma DepthCond(b: Expr, d: Place)
    requires b.Cond?
    ensures DepthE(b, d) == CondDepths(DepthE(b.left, d), DepthE(b.right, d), b.right.Cond?, d)
    ensures SizeE(b) == SizeE(b.left) + 5 + SizeE(b.right) + if b.right.Cond? then 0 else 1
    ensures PlainE(b) ==> PlainE(b.left) && PlainE(b.right)
  {
    hide CondDepths;
  }

  /** A condition and the jump that leaves when it is false. */
  lemma {:induction false} FlowTest(k: Tables, ops: Ops, D: Depths, mode: Mode, p: nat, test: Expr, target: nat,
                                    d: Place)
    requires mode.Plain? ==> PlainE(test)
    requires Fit(k, ops, D, mode) && CodeE(k, ops, p, test) && JumpTo(k, ops, p + SizeE(test), JUMP_FALSE, target)
    requires Has(D, p, DepthE(test, d) + WideAt(d.Up(1)))
    requires Next(D, p + SizeE(test) + 5, d) && Next(D, target + 1, d)
    ensures AllFlow(ops, D, mode, p, p + SizeE(test) + 5) && Next(D, p, d)
    decreases SizeE(test), 4
  {
    hide AllFlow, Has, Good, PlainE, WideAt, CodeE, DepthE, SizeE;
    var q := p + SizeE(test);
    Split(D, p, DepthE(test, d), WideAt(d.Up(1)));
    HasAt(D, p, DepthE(test, d), 0);
    FlowE(k, ops, D, mode, p, test, d);
    JumpFalseFlows(ops, D, mode, q, target, d);
    Joined(ops, D, mode, p, q, q + 5);
  }

  lemma MarkFlows(k: Tables, ops: Ops, D: Depths, mode: Mode, q: nat, d: Place)
    requires Fit(k, ops, D, mode) && Mark(k, ops, q) && Next(D, q, d) && Next(D, q + 1, d)
    ensures AllFlow(ops, D, mode, q, q + 1)
  {
    hide AllFlow, Good, PlainE;
    OpFlows(ops, D, mode, q, IGNORE, 0, 0);
  }

  lemma JumpToFlows(k: Tables, ops: Ops, D: Depths, mode: Mode, r: nat, out: nat, d: Place)
    requires Fit(k, ops, D, mode) && JumpTo(k, ops, r, JUMP, out) && out > r + 4
    requires Has(D, r, WideAt(d)) && Next(D, r + 5, d) && Next(D, out + 1, d)
    ensures AllFlow(ops, D, mode, r, r + 5)
  {
    hide AllFlow, Has, Good, At, Wide, PlainE, WideAt;
    JumpFlows(ops, D, mode, r, out, d);
  }

  /** The middle of a choice: b, and the jump over what follows. */
  lemma {:induction false} FlowMiddle(k: Tables, ops: Ops, D: Depths, mode: Mode, p: nat, b: Expr, end: nat, d: Place)
    requires mode.Plain? ==> PlainE(b)
    requires Fit(k, ops, D, mode) && CodeE(k, ops, p, b) && JumpTo(k, ops, p + SizeE(b), JUMP, end)
    requires end > p + SizeE(b) + 4 && Has(D, p, DepthE(b, d) + WideAt(d.Up(1)))
    requires Next(D, p + SizeE(b) + 5, d) && Next(D, end + 1, d.Up(1))
    ensures AllFlow(ops, D, mode, p, p + SizeE(b) + 5) && Next(D, p, d)
    decreases SizeE(b), 4
  {
    hide AllFlow, Has, Good, PlainE, At, Wide, WideAt, CodeE, DepthE, SizeE;
    var r := p + SizeE(b);
    Split(D, p, DepthE(b, d), WideAt(d.Up(1)));
    HasAt(D, p, DepthE(b, d), 0);
    FlowE(k, ops, D, mode, p, b, d);
    JumpFlows(ops, D, mode, r, end, d.Up(1));
    Joined(ops, D, mode, p, r, r + 5);
  }

  /** The end of a choice: c between its markers. */
  lemma {:induction false} FlowLast(k: Tables, ops: Ops, D: Depths, mode: Mode, p: nat, c: Expr, d: Place)
    requires mode.Plain? ==> PlainE(c)
    requires Fit(k, ops, D, mode) && Mark(k, ops, p) && CodeE(k, ops, p + 1, c) && Mark(k, ops, p + 1 + SizeE(c))
    requires Has(D, p, [d] + DepthE(c, d) + [d.Up(1)]) && Next(D, p + SizeE(c) + 2, d.Up(1))
    ensures AllFlow(ops, D, mode, p, p + SizeE(c) + 2) && Next(D, p, d) && Next(D, p + 1, d)
    decreases SizeE(c), 4
  {
    hide AllFlow, Has, Good, PlainE, Mark, CodeE, DepthE, SizeE;
    var end := p + 1 + SizeE(c);
    Split(D, p, [d] + DepthE(c, d), [d.Up(1)]);
    Split(D, p, [d], DepthE(c, d));
    HasAt(D, p, [d], 0);
    MarkFlows(k, ops, D, mode, p, d);
    FlowE(k, ops, D, mode, p + 1, c, d);
    MarkFlows(k, ops, D, mode, end, d.Up(1));
    Joined(ops, D, mode, p, p + 1, end);
    Joined(ops, D, mode, p, end, end + 1);
  }

  lemma {:induction false} FlowTernary(k: Tables, ops: Ops, D: Depths, mode: Mode, p: nat, a: Expr, b: Expr, c: Expr,
                                       d: Place)
    requires mode.Plain? ==> PlainE(a) && PlainE(b) && PlainE(c)
    requires Fit(k, ops, D, mode) && CodeTernary(k, ops, p, a, b, c)
    requires Has(D, p, TernaryDepths(DepthE(a, d), DepthE(b, d), DepthE(c, d), d))
    requires Next(D, p + SizeE(a) + 5 + SizeE(b) + 6 + SizeE(c) + 1, d.Up(1))
    ensures AllFlow(ops, D, mode, p, p + SizeE(a) + 5 + SizeE(b) + 6 + SizeE(c) + 1)
    decreases SizeE(a) + 5 + SizeE(b) + 5 + 1 + SizeE(c) + 1, 0
  {
    hide AllFlow, Has, Good, PlainE, At, Wide, JumpTo, Mark, WideAt, CodeE, DepthE, SizeE, Fit;
    var q := p + SizeE(a);
    var r := q + 5 + SizeE(b);
    var end := r + 6 + SizeE(c);
    var last := [d] + DepthE(c, d) + [d.Up(1)];
    Split(D, p, DepthE(a, d) + WideAt(d.Up(1)), DepthE(b, d) + WideAt(d.Up(1)) + last);
    Split(D, q + 5, DepthE(b, d) + WideAt(d.Up(1)), last);
    FlowLast(k, ops, D, mode, r + 5, c, d);
    FlowMiddle(k, ops, D, mode, q + 5, b, end, d);
    FlowTest(k, ops, D, mode, p, a, r + 5, d);
    FitIs(k, ops, D, mode);
    Joined(ops, D, mode, p, q + 5, r + 5);
    Joined(ops, D, mode, p, r + 5, end + 1);
  }

  lemma FitIs(k: Tables, ops: Ops, D: Depths, mode: Mode)
    requires Fit(k, ops, D, mode)
    ensures |D| == |ops| + 1
  {}

  lemma {:induction false} FlowAssign(k: Tables, ops: Ops, D: Depths, mode: Mode, p: nat, name: string, a: Expr,
                                      d: Place)
    requires mode.Plain? ==> PlainE(a)
    requires Fit(k, ops, D, mode) && CodeAssign(k, ops, p, name, a) && Has(D, p, DepthE(a, d) + WideAt(d.Up(1)))
    requires Next(D, p + SizeE(a) + 5, d.Up(1))
    ensures AllFlow(ops, D, mode, p, p + SizeE(a) + 5)
    decreases SizeE(a) + 5, 0
  {
    hide AllFlow, Has, Good, PlainE, At, Wide, BinaryOpcode, UnaryOpcode, CondOpcode, WideAt, CodeE, DepthE, SizeE;
    var q := p + SizeE(a);
    Split(D, p, DepthE(a, d), WideAt(d.Up(1)));
    FlowE(k, ops, D, mode, p, a, d);
    SaveFlows(k, ops, D, mode, q, name, d.Up(1));
    Joined(ops, D, mode, p, q, q + 5);
  }

  lemma {:induction false} FlowAll(k: Tables, ops: Ops, D: Depths, mode: Mode, p: nat, es: Exprs, d: Place)
    requires mode.Plain? ==> PlainAll(es)
    requires Fit(k, ops, D, mode) && CodeAll(k, ops, p, es) && Has(D, p, DepthAll(es, d))
    requires Next(D, p + SizeAll(es), d.Up(Count(es)))
    ensures AllFlow(ops, D, mode, p, p + SizeAll(es))
    decreases SizeAll(es), 4
  {
    hide AllFlow, Has, Good, PlainAll, PlainE, CodeAll, CodeE, DepthAll, DepthE, SizeAll, SizeE, Count;
    AllParts(k, ops, p, es, d);
    if es.More? {
      var q := p + SizeE(es.head);
      HasBoth(D, p, DepthE(es.head, d), DepthAll(es.tail, d.Up(1)));
      FlowAll(k, ops, D, mode, q, es.tail, d.Up(1));
      AllFirst(D, q, es.tail, d.Up(1));
      FlowE(k, ops, D, mode, p, es.head, d);
      Joined(ops, D, mode, p, q, p + SizeAll(es));
    } else {
      NoneFlow(ops, D, mode, p);
    }
  }

  lemma AllParts(k: Tables, ops: Ops, p: nat, es: Exprs, d: Place)
    requires CodeAll(k, ops, p, es)
    ensures if es.Nothing? then DepthAll(es, d) == [] && SizeAll(es) == 0
            else DepthAll(es, d) == DepthE(es.head, d) + DepthAll(es.tail, d.Up(1))
                 && SizeAll(es) == SizeE(es.head) + SizeAll(es.tail) && Count(es) == 1 + Count(es.tail)
                 && CodeE(k, ops, p, es.head) && CodeAll(k, ops, p + SizeE(es.head), es.tail)
                 && (PlainAll(es) ==> PlainE(es.head) && PlainAll(es.tail))
  {
    hide SizeE, CodeE, PlainE, DepthE;
  }

  /** At the first of the rest, or behind all of them. */
  lemma AllFirst(D: Depths, q: nat, es: Exprs, d: Place)
    requires Has(D, q, DepthAll(es, d)) && Next(D, q + SizeAll(es), d.Up(Count(es)))
    ensures Next(D, q, d)
  {
    hide SizeE, DepthE;
    if es.More? {
      HasAt(D, q, DepthAll(es, d), 0);
    }
  }

  lemma {:induction false} FlowArray(k: Tables, ops: Ops, D: Depths, mode: Mode, p: nat, es: Exprs, d: Place)
    requires mode.Plain? ==> PlainAll(es)
    requires Fit(k, ops, D, mode) && CodeArray(k, ops, p, es) && Has(D, p, DepthAll(es, d) + WideAt(d.Up(Count(es))))
    requires Next(D, p + SizeAll(es) + 5, d.Up(1))
    ensures AllFlow(ops, D, mode, p, p + SizeAll(es) + 5)
    decreases SizeAll(es) + 5, 0
  {
    hide AllFlow, Has, Good, PlainE, At, Wide, BinaryOpcode, UnaryOpcode, CondOpcode, WideAt, TwoAt, CodeE, DepthE,
         DepthAll, CodeAll, SizeE;
    var q := p + SizeAll(es);
    Split(D, p, DepthAll(es, d), WideAt(d.Up(Count(es))));
    FlowAll(k, ops, D, mode, p, es, d);
    CountBound(es);
    ArrayFlows(ops, D, mode, q, Count(es), d.Up(Count(es)));
    Joined(ops, D, mode, p, q, q + 5);
  }

  lemma {:induction false} FlowIndex(k: Tables, ops: Ops, D: Depths, mode: Mode, p: nat, t: Expr, i: Expr, d: Place)
    requires !mode.Plain?
    requires Fit(k, ops, D, mode) && CodeIndex(k, ops, p, t, i)
    requires Has(D, p, DepthE(t, d) + DepthE(i, d.Up(1)) + [d.Up(2)])
    requires Next(D, p + SizeE(t) + SizeE(i) + 1, d.Up(1))
    ensures AllFlow(ops, D, mode, p, p + SizeE(t) + SizeE(i) + 1)
    decreases SizeE(t) + SizeE(i) + 1, 0
  {
    hide AllFlow, Has, Good, PlainE, At, Wide, BinaryOpcode, UnaryOpcode, CondOpcode, WideAt, CodeE, DepthE, SizeE;
    var q, r := p + SizeE(t), p + SizeE(t) + SizeE(i);
    Split(D, p, DepthE(t, d) + DepthE(i, d.Up(1)), [d.Up(2)]);
    FlowPair(k, ops, D, mode, p, t, i, d);
    OpFlows(ops, D, mode, r, LOAD_INDEX, 2, 1);
    Joined(ops, D, mode, p, r, r + 1);
  }

  lemma {:induction false} FlowPair(k: Tables, ops: Ops, D: Depths, mode: Mode, p: nat, t: Expr, i: Expr, d: Place)
    requires mode.Plain? ==> PlainE(t) && PlainE(i)
    requires Fit(k, ops, D, mode) && CodeE(k, ops, p, t) && CodeE(k, ops, p + SizeE(t), i)
    requires Has(D, p, DepthE(t, d) + DepthE(i, d.Up(1)))
    requires Next(D, p + SizeE(t) + SizeE(i), d.Up(2))
    ensures AllFlow(ops, D, mode, p, p + SizeE(t) + SizeE(i))
    decreases SizeE(t) + SizeE(i), 2
  {
    hide AllFlow, Has, Good, PlainE, At, Wide, BinaryOpcode, UnaryOpcode, CondOpcode, WideAt, CodeE, DepthE, SizeE;
    var q := p + SizeE(t);
    Split(D, p, DepthE(t, d), DepthE(i, d.Up(1)));
    FlowE(k, ops, D, mode, p, t, d);
    FlowE(k, ops, D, mode, q, i, d.Up(1));
    Joined(ops, D, mode, p, q, q + SizeE(i));
  }

  lemma {:induction false} FlowSetIndex(k: Tables, ops: Ops, D: Depths, mode: Mode, p: nat, t: Expr, i: Expr, v: Expr,
                                        d: Place)
    requires mode.Plain? ==> PlainE(t) && PlainE(i) && PlainE(v)
    requires Fit(k, ops, D, mode) && CodeSetIndex(k, ops, p, t, i, v)
    requires Has(D, p, ThreeDepths(DepthE(v, d), DepthE(t, d.Up(1)), DepthE(i, d.Up(2)), d))
    requires Next(D, p + SizeE(v) + SizeE(t) + SizeE(i) + 1, d.Up(1))
    ensures AllFlow(ops, D, mode, p, p + SizeE(v) + SizeE(t) + SizeE(i) + 1)
    decreases SizeE(v) + SizeE(t) + SizeE(i) + 1, 0
  {
    hide AllFlow, Has, Good, PlainE, At, Wide, BinaryOpcode, UnaryOpcode, CondOpcode, WideAt, CodeE, DepthE, SizeE;
    var q := p + SizeE(v);
    var r := q + SizeE(t) + SizeE(i);
    var x, y, z := DepthE(v, d), DepthE(t, d.Up(1)), DepthE(i, d.Up(2));
    Split(D, p, x + (y + z), [d.Up(3)]);
    Split(D, p, x, y + z);
    FlowE(k, ops, D, mode, p, v, d);
    FlowPair(k, ops, D, mode, q, t, i, d.Up(1));
    OpFlows(ops, D, mode, r, SAVE_INDEX, 3, 1);
    Joined(ops, D, mode, p, q, r);
    Joined(ops, D, mode, p, r, r + 1);
  }

  lemma {:induction false} FlowUpdate(k: Tables, ops: Ops, D: Depths, mode: Mode, p: nat, op: BinOp, t: Expr, i: Expr,
                                      v: Expr, d: Place)
    requires !mode.Plain?
    requires Fit(k, ops, D, mode) && CodeUpdate(k, ops, p, op, t, i, v)
    requires Has(D, p, DepthE(t, d) + DepthE(i, d.Up(1)) + UpdateDepths(DepthE(v, d.Up(3)), d))
    requires Next(D, p + SizeE(t) + SizeE(i) + 2 + SizeE(v) + 3, d.Up(1))
    ensures AllFlow(ops, D, mode, p, p + SizeE(t) + SizeE(i) + 2 + SizeE(v) + 3)
    decreases SizeE(t) + SizeE(i) + 2 + SizeE(v) + 3, 0
  {
    hide AllFlow, Has, Good, PlainE, At, Wide, BinaryOpcode, UnaryOpcode, CondOpcode, UpdateDepths, CodeE, DepthE,
         CodeUpdateAt, SizeE;
    var q := p + SizeE(t) + SizeE(i);
    Split(D, p, DepthE(t, d) + DepthE(i, d.Up(1)), UpdateDepths(DepthE(v, d.Up(3)), d));
    FlowPair(k, ops, D, mode, p, t, i, d);
    FlowUpdateAt(k, ops, D, mode, q, op, v, d);
    Joined(ops, D, mode, p, q, q + 2 + SizeE(v) + 3);
  }

  lemma {:induction false} FlowUpdateAt(k: Tables, ops: Ops, D: Depths, mode: Mode, q: nat, op: BinOp, v: Expr,
                                        d: Place)
    requires !mode.Plain?
    requires Fit(k, ops, D, mode) && CodeUpdateAt(k, ops, q, op, v)
    requires Has(D, q, UpdateDepths(DepthE(v, d.Up(3)), d))
    requires Next(D, q + 2 + SizeE(v) + 3, d.Up(1))
    ensures AllFlow(ops, D, mode, q, q + 2 + SizeE(v) + 3)
    decreases SizeE(v) + 2, 0
  {
    hide AllFlow, Has, Good, PlainE, At, Wide, BinaryOpcode, UnaryOpcode, CondOpcode, WideAt, CodeE, DepthE, SizeE;
    var r := q + 2 + SizeE(v);
    var front, back := [d.Up(2), d.Up(4)], [d.Up(4), d.Up(3), d.Up(3)];
    Split(D, q, front + DepthE(v, d.Up(3)), back);
    Split(D, q, front, DepthE(v, d.Up(3)));
    HasAt(D, q, front, 0);
    HasAt(D, q, front, 1);
    HasAt(D, r, back, 1);
    HasAt(D, r, back, 2);
    FlowE(k, ops, D, mode, q + 2, v, d.Up(3));
    OpFlows(ops, D, mode, q, DDUPLICATE, 2, 4);
    OpFlows(ops, D, mode, q + 1, LOAD_INDEX, 2, 1);
    BinaryFlows(ops, D, mode, r, op);
    OpFlows(ops, D, mode, r + 1, SINK_FIRST, 3, 3);
    OpFlows(ops, D, mode, r + 2, SAVE_INDEX, 3, 1);
    Joined(ops, D, mode, q, q + 1, q + 2);
    Joined(ops, D, mode, q, q + 2, r);
    Joined(ops, D, mode, q, r, r + 1);
    Joined(ops, D, mode, q, r + 1, r + 2);
    Joined(ops, D, mode, q, r + 2, r + 3);
  }

  lemma {:induction false} FlowCall(k: Tables, ops: Ops, D: Depths, mode: Mode, p: nat, es: Exprs, f: Expr, d: Place)
    requires mode.Plain? ==> Count(es) < BINARY_FIRST && PlainAll(es) && PlainE(f)
    requires Fit(k, ops, D, mode) && CodeCall(k, ops, p, es, f)
    requires Has(D, p, CallDepths(DepthAll(es, d), DepthE(f, d.Up(Count(es))), d.Up(Count(es) + 1)))
    requires Next(D, p + SizeAll(es) + SizeE(f) + 2, d.Up(1))
    ensures AllFlow(ops, D, mode, p, p + SizeAll(es) + SizeE(f) + 2)
    decreases SizeAll(es) + SizeE(f) + 2, 0
  {
    hide AllFlow, Has, Good, PlainE, At, Wide, BinaryOpcode, UnaryOpcode, CondOpcode, WideAt, TwoAt, CodeE, DepthE,
         DepthAll, CodeAll, SizeE;
    var n := Count(es);
    var q, r := p + SizeAll(es), p + SizeAll(es) + SizeE(f);
    Split(D, p, DepthAll(es, d) + DepthE(f, d.Up(n)), TwoAt(d.Up(n + 1)));
    Split(D, p, DepthAll(es, d), DepthE(f, d.Up(n)));
    FlowAll(k, ops, D, mode, p, es, d);
    FlowE(k, ops, D, mode, q, f, d.Up(n));
    CallFlows(ops, D, mode, r, n, d.Up(n + 1));
    Joined(ops, D, mode, p, q, r);
    Joined(ops, D, mode, p, r, r + 2);
  }
}

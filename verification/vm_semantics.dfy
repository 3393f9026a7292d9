/** What a program means: a big-step evaluator over the syntax tree, which knows
    nothing of bytecode. The operators, calls, printing and the indexing of
    anything but arrays are parameters of it. */
module LankySemantics {
  import opened Sequences
  import opened LankySyntax

  datatype Value =
    | Nil | Yes | No | Int(i: int) | Str(s: string) | Array(addr: nat) | Exception(err: Error) | Other(id: int)

  /** An error object, by what it was made from. */
  datatype Error = Undeclared(name: string) | OutOfBounds | Custom(v: Value) | Foreign(v: Value)

  /** Everything a program can change: its variables, its arrays, its output.
      `parents` are the enclosing scopes, innermost last. */
  datatype World = World(bucket: map<string, Value>, parents: seq<map<string, Value>>,
                         arrays: seq<seq<Value>>, output: seq<string>)

  datatype Eval = Ok(v: Value, w: World) | Raised(err: Error, w: World) | Crashed(w: World)

  /** The runtime library. Each operation may change the world and may raise. */
  datatype Runtime = Runtime(
    binary: (BinOp, Value, Value, World) -> Eval,
    unary: (UnOp, Value, World) -> Eval,
    call: (Value, seq<Value>, World) -> Eval,
    loadIndex: (Value, Value, World) -> Eval,
    saveIndex: (Value, Value, Value, World) -> Eval,
    iterable: (Value, World) -> Eval,
    stringify: (Value, World) -> Eval,
    text: Value -> string,
    truthy: Value -> bool,
    /* whether a call that fails ends without a value: a function of the language does, a
       native one comes back with nil */
    quits: (Value, seq<Value>, World) -> bool)

  // ----- variables: LOAD_CLOSE and SAVE_CLOSE -----

  function Lookup(scopes: seq<map<string, Value>>, name: string): Option<Value> {
    if scopes == [] then None
    else if name in scopes[|scopes| - 1] then Some(scopes[|scopes| - 1][name])
    else Lookup(scopes[..|scopes| - 1], name)
  }

  function Store(scopes: seq<map<string, Value>>, name: string, v: Value): Option<seq<map<string, Value>>> {
    if scopes == [] then None
    else
      var n := |scopes| - 1;
      if name in scopes[n] then Some(scopes[n := scopes[n][name := v]])
      else
        match Store(scopes[..n], name, v)
        case None => None
        case Some(outer) => Some(outer + [scopes[n]])
  }

  function LoadVar(name: string, w: World): Eval {
    if name in w.bucket then Ok(w.bucket[name], w)
    else
      match Lookup(w.parents, name)
      case Some(v) => Ok(v, w)
      case None => Raised(Undeclared(name), w)
  }

  function SaveVar(name: string, v: Value, w: World): World {
    match Store(w.parents, name, v)
    case Some(ps) => w.(parents := ps)
    case None => w.(bucket := w.bucket[name := v])
  }

  // ----- arrays -----

  predicate IsArray(v: Value, w: World) {
    v.Array? && v.addr < |w.arrays|
  }

  function MakeArray(items: seq<Value>, w: World): (Value, World) {
    (Array(|w.arrays|), w.(arrays := w.arrays + [items]))
  }

  /** stlarr_get raises above the end; other types and other indices are foreign. */
  function LoadIndex(rt: Runtime, target: Value, index: Value, w: World): Eval {
    if IsArray(target, w) && index.Int? && index.i >= 0 then
      if index.i < |w.arrays[target.addr]| then Ok(w.arrays[target.addr][index.i], w)
      else Raised(OutOfBounds, w)
    else rt.loadIndex(target, index, w)
  }

  /** The result is the stored value, which stays on the operand stack. */
  function SaveIndex(rt: Runtime, target: Value, index: Value, v: Value, w: World): Eval {
    if IsArray(target, w) && index.Int? && index.i >= 0 then
      if index.i < |w.arrays[target.addr]| then
        Ok(v, w.(arrays := w.arrays[target.addr := w.arrays[target.addr][index.i := v]]))
      else Raised(OutOfBounds, w)
    else
      match rt.saveIndex(target, index, v, w)
      case Ok(_, w') => Ok(v, w')
      case other => other
  }

  /** The array an iterator walks; a value that offers none makes the machine
      follow a null pointer. */
  function IterableOf(rt: Runtime, v: Value, w: World): (r: Eval)
    ensures r.Ok? ==> IsArray(r.v, r.w)
  {
    if IsArray(v, w) then Ok(v, w)
    else
      match rt.iterable(v, w)
      case Ok(a, w') => if IsArray(a, w') then Ok(a, w') else Crashed(w')
      case other => other
  }

  // ----- expressions -----

  function ConstantValue(c: Constant): Value {
    match c
    case IntConst(i) => Int(i)
    case StrConst(s) => Str(s)
  }

  function BoolValue(b: bool): Value {
    if b then Yes else No
  }

  datatype Evals = Oks(vs: seq<Value>, w: World) | Failed(r: Eval)

  function EvalExpr(rt: Runtime, e: Expr, w: World): Eval
    decreases e, 1
  {
    match e
    case Const(c) => Ok(ConstantValue(c), w)
    case Var(name) => LoadVar(name, w)
    case NilLit => Ok(Nil, w)
    case BoolLit(b) => Ok(BoolValue(b), w)
    case Unary(op, a) => EvalUnary(rt, op, a, w)
    case Binary(op, a, b) => EvalBinary(rt, op, a, b, w)
    case Cond(op, a, b) => EvalCond(rt, op, a, b, w)
    case Ternary(a, b, c) => EvalTernary(rt, a, b, c, w)
    case Assign(name, a) => EvalAssign(rt, name, a, w)
    case ArrayLit(es) => EvalArray(rt, es, w)
    case Index(t, i) => EvalIndex(rt, t, i, w)
    case SetIndex(t, i, v) => EvalSetIndex(rt, t, i, v, w)
    case Update(op, t, i, v) => EvalUpdate(rt, op, t, i, v, w)
    case Call(es, f) => EvalCall(rt, es, f, w)
  }

  function EvalUnary(rt: Runtime, op: UnOp, a: Expr, w: World): Eval
    decreases Unary(op, a), 0
  {
    match EvalExpr(rt, a, w)
    case Ok(x, w1) => rt.unary(op, x, w1)
    case other => other
  }

  function EvalBinary(rt: Runtime, op: BinOp, a: Expr, b: Expr, w: World): Eval
    decreases Binary(op, a, b), 0
  {
    match EvalExpr(rt, a, w)
    case Ok(x, w1) =>
      (match EvalExpr(rt, b, w1)
       case Ok(y, w2) => rt.binary(op, x, y, w2)
       case other => other)
    case other => other
  }

  /** Whether the left value decides the condition. */
  predicate Decides(rt: Runtime, op: CondOp, v: Value) {
    if op == OrElse then rt.truthy(v) else !rt.truthy(v)
  }

  function EvalCond(rt: Runtime, op: CondOp, a: Expr, b: Expr, w: World): Eval
    decreases Cond(op, a, b), 0
  {
    match EvalExpr(rt, a, w)
    case Ok(x, w1) => if Decides(rt, op, x) then Ok(x, w1) else EvalExpr(rt, b, w1)
    case other => other
  }

  function EvalTernary(rt: Runtime, a: Expr, b: Expr, c: Expr, w: World): Eval
    decreases Ternary(a, b, c), 0
  {
    match EvalExpr(rt, a, w)
    case Ok(x, w1) => if rt.truthy(x) then EvalExpr(rt, b, w1) else EvalExpr(rt, c, w1)
    case other => other
  }

  function EvalAssign(rt: Runtime, name: string, a: Expr, w: World): Eval
    decreases Assign(name, a), 0
  {
    match EvalExpr(rt, a, w)
    case Ok(x, w1) => Ok(x, SaveVar(name, x, w1))
    case other => other
  }

  function EvalAll(rt: Runtime, es: Exprs, w: World): Evals
    decreases es, 0
  {
    match es
    case Nothing => Oks([], w)
    case More(e, rest) =>
      match EvalExpr(rt, e, w)
      case Ok(x, w1) =>
        (match EvalAll(rt, rest, w1)
         case Oks(xs, w2) => Oks([x] + xs, w2)
         case failed => failed)
      case other => Failed(other)
  }

  function EvalArray(rt: Runtime, es: Exprs, w: World): Eval
    decreases ArrayLit(es), 0
  {
    match EvalAll(rt, es, w)
    case Oks(xs, w1) => var (a, w2) := MakeArray(xs, w1); Ok(a, w2)
    case Failed(r) => r
  }

  function EvalIndex(rt: Runtime, t: Expr, i: Expr, w: World): Eval
    decreases Index(t, i), 0
  {
    match EvalExpr(rt, t, w)
    case Ok(x, w1) =>
      (match EvalExpr(rt, i, w1)
       case Ok(y, w2) => LoadIndex(rt, x, y, w2)
       case other => other)
    case other => other
  }

  /** The value is computed before the target and the index. */
  function EvalSetIndex(rt: Runtime, t: Expr, i: Expr, v: Expr, w: World): Eval
    decreases SetIndex(t, i, v), 0
  {
    match EvalExpr(rt, v, w)
    case Ok(x, w1) =>
      (match EvalExpr(rt, t, w1)
       case Ok(y, w2) =>
         (match EvalExpr(rt, i, w2)
          case Ok(z, w3) => SaveIndex(rt, y, z, x, w3)
          case other => other)
       case other => other)
    case other => other
  }

  /** t[i] op= v: target and index are computed once. */
  function EvalUpdate(rt: Runtime, op: BinOp, t: Expr, i: Expr, v: Expr, w: World): Eval
    decreases Update(op, t, i, v), 0
  {
    match EvalExpr(rt, t, w)
    case Ok(x, w1) =>
      (match EvalExpr(rt, i, w1)
       case Ok(y, w2) => EvalUpdateAt(rt, op, x, y, v, w2)
       case other => other)
    case other => other
  }

  function EvalUpdateAt(rt: Runtime, op: BinOp, x: Value, y: Value, v: Expr, w: World): Eval
    decreases v, 2
  {
    match LoadIndex(rt, x, y, w)
    case Ok(before, w1) =>
      (match EvalExpr(rt, v, w1)
       case Ok(z, w2) =>
         (match rt.binary(op, before, z, w2)
          case Ok(r, w3) => SaveIndex(rt, x, y, r, w3)
          case other => other)
       case other => other)
    case other => other
  }

  /** Arguments are computed before the callee. */
  function EvalCall(rt: Runtime, es: Exprs, f: Expr, w: World): Eval
    decreases Call(es, f), 0
  {
    match EvalAll(rt, es, w)
    case Oks(xs, w1) =>
      (match EvalExpr(rt, f, w1)
       case Ok(g, w2) => rt.call(g, xs, w2)
       case other => other)
    case Failed(r) => r
  }

  // ----- statements -----

  datatype Outcome =
    | Normal(w: World)
    | Broke(w: World)
    | Continued(w: World)
    | Returned(v: Value, w: World)
    | Threw(err: Error, w: World)
    | Died(w: World)
    | Timeout

  /** How an expression that does not yield a value ends the program. */
  function Abort(r: Eval): Outcome
    requires !r.Ok?
  {
    if r.Raised? then Threw(r.err, r.w) else Died(r.w)
  }

  function PrintValue(rt: Runtime, v: Value, w: World): Eval {
    match rt.stringify(v, w)
    case Ok(s, w') => Ok(v, w'.(output := w'.output + [rt.text(s)]))
    case other => other
  }

  /** Fuel bounds the number of iterations of each loop. */
  function ExecStmt(rt: Runtime, s: Stmt, w: World, fuel: nat): Outcome
    decreases fuel, s, 1
  {
    match s
    case Do(e) => ExecDo(rt, e, w)
    case Print(e) => ExecPrint(rt, e, w)
    case Return(e) => ExecReturn(rt, e, w)
    case Raise(e) => ExecRaise(rt, e, w)
    case If(test, body, rest) => ExecIf(rt, test, body, rest, w, fuel)
    case Loop(init, test, step, body) => ExecLoop(rt, init, test, step, body, w, fuel)
    case ForIn(name, index, e, body) => ExecForIn(rt, name, index, e, body, w, fuel)
    case Try(body, name, handler) => ExecTry(rt, body, name, handler, w, fuel)
    case Break => Broke(w)
    case Continue => Continued(w)
  }

  function ExecDo(rt: Runtime, e: Expr, w: World): Outcome {
    match EvalExpr(rt, e, w)
    case Ok(_, w1) => Normal(w1)
    case other => Abort(other)
  }

  function ExecPrint(rt: Runtime, e: Expr, w: World): Outcome {
    match EvalExpr(rt, e, w)
    case Ok(v, w1) =>
      (match PrintValue(rt, v, w1)
       case Ok(_, w2) => Normal(w2)
       case other => Abort(other))
    case other => Abort(other)
  }

  function ExecReturn(rt: Runtime, e: Option<Expr>, w: World): Outcome {
    match e
    case None => Returned(Nil, w)
    case Some(e') =>
      match EvalExpr(rt, e', w)
      case Ok(v, w1) => Returned(v, w1)
      case other => Abort(other)
  }

  function ExecRaise(rt: Runtime, e: Expr, w: World): Outcome {
    match EvalExpr(rt, e, w)
    case Ok(v, w1) => Threw(Custom(v), w1)
    case other => Abort(other)
  }

  function ExecIf(rt: Runtime, test: Expr, body: Block, rest: Else, w: World, fuel: nat): Outcome
    decreases fuel, If(test, body, rest), 0
  {
    match EvalExpr(rt, test, w)
    case Ok(v, w1) => if rt.truthy(v) then ExecBlock(rt, body, w1, fuel) else ExecElse(rt, rest, w1, fuel)
    case other => Abort(other)
  }

  function ExecElse(rt: Runtime, rest: Else, w: World, fuel: nat): Outcome
    decreases fuel, rest, 0
  {
    match rest
    case NoElse => Normal(w)
    case ElseBlock(body) => ExecBlock(rt, body, w, fuel)
    case Elif(test, body, rest') =>
      match EvalExpr(rt, test, w)
      case Ok(v, w1) => if rt.truthy(v) then ExecBlock(rt, body, w1, fuel) else ExecElse(rt, rest', w1, fuel)
      case other => Abort(other)
  }

  function ExecBlock(rt: Runtime, b: Block, w: World, fuel: nat): Outcome
    decreases fuel, b, 0
  {
    match b
    case End => Normal(w)
    case Then(s, rest) =>
      match ExecStmt(rt, s, w, fuel)
      case Normal(w1) => ExecBlock(rt, rest, w1, fuel)
      case other => other
  }

  /** The optional parts of a for loop, for their effects. */
  function ExecMaybe(rt: Runtime, e: Option<Expr>, w: World): Outcome {
    match e
    case None => Normal(w)
    case Some(e') => ExecDo(rt, e', w)
  }

  function ExecLoop(rt: Runtime, init: Option<Expr>, test: Expr, step: Option<Expr>, body: Block, w: World,
                    fuel: nat): Outcome
    decreases fuel, Loop(init, test, step, body), 0
  {
    match ExecMaybe(rt, init, w)
    case Normal(w1) => ExecRounds(rt, test, step, body, w1, fuel)
    case other => other
  }

  /** The rounds of a loop whose initialisation is done. */
  function ExecRounds(rt: Runtime, test: Expr, step: Option<Expr>, body: Block, w: World, fuel: nat): Outcome
    decreases fuel, body, 1
  {
    if fuel == 0 then Timeout else
      match EvalExpr(rt, test, w)
      case Ok(v, w1) =>
        if !rt.truthy(v) then Normal(w1) else
          (match ExecBlock(rt, body, w1, fuel)
           case Normal(w2) => ExecNext(rt, test, step, body, w2, fuel)
           case Continued(w2) => ExecNext(rt, test, step, body, w2, fuel)
           case Broke(w2) => Normal(w2)
           case other => other)
      case other => Abort(other)
  }

  function ExecNext(rt: Runtime, test: Expr, step: Option<Expr>, body: Block, w: World, fuel: nat): Outcome
    requires fuel > 0
    decreases fuel, body, 0
  {
    match ExecMaybe(rt, step, w)
    case Normal(w1) => ExecRounds(rt, test, step, body, w1, fuel - 1)
    case other => other
  }

  function ExecForIn(rt: Runtime, name: string, index: Option<string>, e: Expr, body: Block, w: World,
                     fuel: nat): Outcome
    decreases fuel, ForIn(name, index, e, body), 0
  {
    match EvalExpr(rt, e, w)
    case Ok(v, w1) =>
      (match IterableOf(rt, v, w1)
       case Ok(a, w2) => ExecItems(rt, name, index, a.addr, 0, body, w2, fuel)
       case other => Abort(other))
    case other => Abort(other)
  }

  /** One element after the other, from position i of the array as it is by then. */
  function ExecItems(rt: Runtime, name: string, index: Option<string>, a: nat, i: nat, body: Block, w: World,
                     fuel: nat): Outcome
    decreases fuel, body, 1
  {
    if fuel == 0 then Timeout
    else if a >= |w.arrays| then Died(w)
    else if i >= |w.arrays[a]| then Normal(w)
    else
      var w1 := BindItem(name, index, w.arrays[a][i], i, w);
      match ExecBlock(rt, body, w1, fuel)
      case Normal(w2) => ExecItems(rt, name, index, a, i + 1, body, w2, fuel - 1)
      case Continued(w2) => ExecItems(rt, name, index, a, i + 1, body, w2, fuel - 1)
      case Broke(w2) => Normal(w2)
      case other => other
  }

  function BindItem(name: string, index: Option<string>, v: Value, i: nat, w: World): World {
    var w1 := SaveVar(name, v, w);
    match index
    case None => w1
    case Some(j) => SaveVar(j, Int(i), w1)
  }

  /** An error in the body is bound to the name, and the handler goes on. */
  function ExecTry(rt: Runtime, body: Block, name: string, handler: Block, w: World, fuel: nat): Outcome
    decreases fuel, Try(body, name, handler), 0
  {
    match ExecBlock(rt, body, w, fuel)
    case Threw(err, w1) => ExecBlock(rt, handler, SaveVar(name, Exception(err), w1), fuel)
    case other => other
  }

  // ----- programs -----

  datatype Final = Answer(v: Value, w: World) | Fatal(err: Error, w: World) | Crash(w: World)

  /** A program that runs to its end returns nil. */
  function RunProgram(rt: Runtime, b: Block, w: World, fuel: nat): Option<Final> {
    match ExecBlock(rt, b, w, fuel)
    case Normal(w') => Some(Answer(Nil, w'))
    case Returned(v, w') => Some(Answer(v, w'))
    case Threw(err, w') => Some(Fatal(err, w'))
    case Died(w') => Some(Crash(w'))
    case _ => None
  }
}

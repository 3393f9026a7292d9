/** The same for statements: each of them leaves the stack as deep as it found it. */
module LankyBlockDepth {
  import opened Sequences
  import opened Buffers
  import opened LankySyntax
  import opened LankyMachine
  import opened LankyLayout
  import opened LankyLeaving
  import opened LankyDepth

  function DepthMaybe(e: Option<Expr>, d: Place): (r: Depths)
    ensures |r| == SizeMaybe(e) && (r != [] ==> r[0] == d)
  {
    match e
    case None => []
    case Some(e') => DepthE(e', d) + [d.Up(1)]
  }

  /** Storing the element on top of the h-th place, and its position. */
  function DepthItem(index: Option<string>, h: Place): (r: Depths)
    ensures |r| == SizeItem(index) && r[0] == h
  {
    WideAt(h) + [h] + if index.Some? then [h.Up(-1)] + WideAt(h) + [h] else []
  }

  function IfDepths(x: Depths, y: Depths, ends: bool, z: Depths, d: Place): (r: Depths)
    requires |x| > 0
    ensures |r| == |x| + 5 + |y| + (if ends then 0 else 5 + |z|) + 1 && r[0] == x[0]
  {
    x + WideAt(d.Up(1)) + (y + if ends then [d] else WideAt(d) + z + [d])
  }

  function ElifDepths(x: Depths, y: Depths, ends: bool, z: Depths, d: Place): (r: Depths)
    requires |x| > 0
    ensures |r| == |x| + 5 + |y| + (if ends then 0 else 5 + |z|) && r[0] == x[0]
  {
    x + WideAt(d.Up(1)) + if ends then y else y + (WideAt(d) + z)
  }

  function RoundsDepths(x: Depths, y: Depths, z: Depths, d: Place): (r: Depths)
    requires |x| > 0
    ensures |r| == |x| + 5 + |y| + 1 + |z| + 5 + 1 && r[0] == x[0]
  {
    x + WideAt(d.Up(1)) + (y + StepDepths(z, d))
  }

  function StepDepths(z: Depths, d: Place): (r: Depths)
    ensures |r| == 1 + |z| + 6 && r[0] == d
  {
    [d] + z + (WideAt(d) + [d])
  }

  function ItemsDepths(x: Depths, y: Depths, h: Place): (r: Depths)
    ensures |r| == 5 + |x| + |y| + 1 + 5 + 2 && r[0] == h
  {
    WideAt(h) + x + (y + BackDepths(h))
  }

  function BackDepths(h: Place): (r: Depths)
    ensures |r| == 8 && r[0] == h
  {
    [h] + WideAt(h) + [h, h]
  }

  /** The block, the jump over its handler, and the handler, which begins with the error on
      the stack. */
  function TryDepths(x: Depths, y: Depths, c: int, d: Place): (r: Depths)
    ensures |r| == 5 + |x| + 6 + 7 + |y| + 1 && r[0] == d
  {
    WideAt(d) + (x + (LeaveDepths(c, d) + (CatchDepths(d) + (y + [d]))))
  }

  function LeaveDepths(c: int, d: Place): (r: Depths)
    ensures |r| == 6 && r[0] == Inside(d, c)
  {
    [Inside(d, c)] + WideAt(d)
  }

  function CatchDepths(d: Place): (r: Depths)
    ensures |r| == 7 && r[0] == d.Up(1)
  {
    [d.Up(1)] + WideAt(d.Up(1)) + [d.Up(1)]
  }

  /** p is the address: that of a handler depends on it. */
  function DepthS(s: Stmt, p: nat, d: Place): (r: Depths)
    ensures |r| == SizeS(s) && r[0] == d
  {
    match s
    case Do(e) => DepthE(e, d) + [d.Up(1)]
    case Print(e) => DepthE(e, d) + [d.Up(1)]
    case Return(e) => (if e.Some? then DepthE(e.value, d) else [d]) + [d.Up(1)]
    case Raise(e) => DepthE(e, d) + [d.Up(1)]
    case If(test, body, rest) =>
      var q := p + SizeE(test) + 5;
      IfDepths(DepthE(test, d), DepthB(body, q, d), rest.NoElse?, DepthElse(rest, q + SizeB(body) + 5, d), d)
    case Loop(init, test, step, body) =>
      var start := p + SizeMaybe(init);
      DepthMaybe(init, d) + RoundsDepths(DepthE(test, d), DepthB(body, start + SizeE(test) + 5, d),
                                         DepthMaybe(step, d), d)
    case ForIn(_, index, e, body) =>
      var b := p + SizeE(e) + 1 + 5 + SizeItem(index);
      DepthE(e, d) + [d.Up(1)] + ItemsDepths(DepthItem(index, d.Up(2)), DepthB(body, b, d.Up(1)), d.Up(1))
    case Try(body, _, handler) =>
      var c := p + 5 + SizeB(body) + 6;
      TryDepths(DepthB(body, p + 5, Inside(d, c)), DepthB(handler, c + 7, d), c, d)
    case Break => WideAt(d) + [d.Up(1)]
    case Continue => WideAt(d) + [d.Up(1)]
  }

  function DepthElse(s: Else, m: nat, d: Place): (r: Depths)
    ensures |r| == SizeElse(s) && (r != [] ==> r[0] == d)
  {
    match s
    case NoElse => []
    case ElseBlock(body) => [d] + DepthB(body, m + 1, d)
    case Elif(test, body, rest) =>
      var q := m + 1 + SizeE(test) + 5;
      [d] + ElifDepths(DepthE(test, d), DepthB(body, q, d), rest.NoElse?, DepthElse(rest, q + SizeB(body) + 5, d), d)
  }

  function DepthB(b: Block, p: nat, d: Place): (r: Depths)
    ensures |r| == SizeB(b) && (r != [] ==> r[0] == d)
  {
    match b
    case End => []
    case Then(s, rest) => DepthS(s, p, d) + DepthB(rest, p + SizeS(s), d)
  }

  // ----- what the analyzer gets right -----

  predicate PlainMaybe(e: Option<Expr>) {
    e.Some? ==> PlainE(e.value)
  }

  /** No break, no continue, no try. */
  predicate PlainS(s: Stmt) {
    match s
    case Do(e) => PlainE(e)
    case Print(e) => PlainE(e)
    case Return(e) => PlainMaybe(e)
    case Raise(e) => PlainE(e)
    case If(test, body, rest) => PlainE(test) && PlainB(body) && PlainElse(rest)
    case Loop(init, test, step, body) => PlainMaybe(init) && PlainE(test) && PlainMaybe(step) && PlainB(body)
    case ForIn(_, _, e, body) => PlainE(e) && PlainB(body)
    case Try(_, _, _) => false
    case Break => false
    case Continue => false
  }

  predicate PlainElse(s: Else) {
    match s
    case NoElse => true
    case ElseBlock(body) => PlainB(body)
    case Elif(test, body, rest) => PlainE(test) && PlainB(body) && PlainElse(rest)
  }

  predicate PlainB(b: Block) {
    b.Then? ==> PlainS(b.first) && PlainB(b.rest)
  }

  /** Such a block has no try. */
  lemma {:induction false} PlainTrylessB(b: Block)
    requires PlainB(b)
    ensures TrylessB(b)
    decreases SizeB(b), 2, b
  {
    hide PlainS, Tryless, SizeS;
    if b.Then? {
      PlainTryless(b.first);
      PlainTrylessB(b.rest);
    }
  }

  lemma {:induction false} PlainTryless(s: Stmt)
    requires PlainS(s)
    ensures Tryless(s)
    decreases SizeS(s), 1
  {
    hide PlainE, PlainB, PlainElse, TrylessB, TrylessElse, SizeE;
    match s
    case If(_, body, rest) =>
      PlainTrylessB(body);
      PlainTrylessElse(rest);
    case Loop(_, _, _, body) => PlainTrylessB(body);
    case ForIn(_, _, _, body) => PlainTrylessB(body);
    case _ =>
  }

  lemma {:induction false} PlainTrylessElse(s: Else)
    requires PlainElse(s)
    ensures TrylessElse(s)
    decreases SizeElse(s), 3
  {
    hide PlainE, PlainB, TrylessB, SizeE;
    match s
    case NoElse =>
    case ElseBlock(body) => PlainTrylessB(body);
    case Elif(_, body, rest) =>
      PlainTrylessB(body);
      PlainTrylessElse(rest);
  }

  /** Without a try there is none in the body of a for-in, and none to leave. */
  lemma {:induction false} TrylessRestoresB(b: Block, mode: Keeping)
    requires TrylessB(b) && !mode.Neat?
    ensures RestoresB(b, mode) && StaysB(b, true)
    decreases SizeB(b), 2, b
  {
    hide Tryless, Restores, Stays, SizeS;
    if b.Then? {
      TrylessRestores(b.first, mode);
      TrylessRestoresB(b.rest, mode);
    }
  }

  lemma {:induction false} TrylessRestores(s: Stmt, mode: Keeping)
    requires Tryless(s) && !mode.Neat?
    ensures Restores(s, mode) && Stays(s, true)
    decreases SizeS(s), 1
  {
    hide TrylessB, TrylessElse, RestoresB, RestoresElse, StaysB, StaysElse, SizeE;
    match s
    case If(_, body, rest) =>
      TrylessRestoresB(body, mode);
      TrylessRestoresElse(rest, mode);
    case Loop(_, _, _, body) => TrylessRestoresB(body, mode);
    case ForIn(_, _, _, body) => TrylessRestoresB(body, Exact);
    case _ =>
  }

  lemma {:induction false} TrylessRestoresElse(s: Else, mode: Keeping)
    requires TrylessElse(s) && !mode.Neat?
    ensures RestoresElse(s, mode) && StaysElse(s, true)
    decreases SizeElse(s), 3
  {
    hide TrylessB, RestoresB, StaysB, SizeE;
    match s
    case NoElse =>
    case ElseBlock(body) => TrylessRestoresB(body, mode);
    case Elif(_, body, rest) =>
      TrylessRestoresB(body, mode);
      TrylessRestoresElse(rest, mode);
  }

  // ----- pieces -----

  /** A block in front of more. */
  lemma SplitBlock(D: Depths, p: nat, b: Block, d: Place, y: Depths)
    requires Has(D, p, DepthB(b, p, d) + y) && |y| > 0 && y[0] == d
    ensures Has(D, p, DepthB(b, p, d)) && Has(D, p + SizeB(b), y) && Next(D, p + SizeB(b), d) && Next(D, p, d)
  {
    hide Has, DepthB, SizeB;
    Split(D, p, DepthB(b, p, d), y);
    BlockFirst(D, p, b, d);
  }

  lemma StmtSize(s: Stmt)
    ensures SizeS(s) > 0
  {
    hide SizeE, SizeB, SizeElse, SizeMaybe, SizeItem;
  }


  /** Where a break or continue lands. */
  predicate Lands(D: Depths, ref: int, end: nat, d: Place) {
    ref >= 0 ==> ref >= end && Next(D, ref + 1, d)
  }

  lemma {:induction false} FlowMaybe(k: Tables, ops: Ops, D: Depths, mode: Mode, p: nat, e: Option<Expr>, d: Place)
    requires mode.Plain? ==> PlainMaybe(e)
    requires Fit(k, ops, D, mode) && CodeMaybe(k, ops, p, e) && Has(D, p, DepthMaybe(e, d))
    requires Next(D, p + SizeMaybe(e), d)
    ensures AllFlow(ops, D, mode, p, p + SizeMaybe(e))
  {
    hide AllFlow, Has, CodeE, DepthE, SizeE, Good, PlainE, PlainB;
    if e.Some? {
      FlowPop(k, ops, D, mode, p, e.value, POP, d);
    } else {
      NoneFlow(ops, D, mode, p);
    }
  }

  /** An expression and the instruction that takes its value. */
  lemma {:induction false} FlowPop(k: Tables, ops: Ops, D: Depths, mode: Mode, p: nat, e: Expr, op: int, d: Place)
    requires mode.Plain? ==> PlainE(e)
    requires Fit(k, ops, D, mode) && CodeE(k, ops, p, e) && At(ops, p + SizeE(e), op) && Shifts(op, 1, 0)
    requires Has(D, p, DepthE(e, d) + [d.Up(1)]) && Next(D, p + SizeE(e) + 1, d)
    ensures AllFlow(ops, D, mode, p, p + SizeE(e) + 1)
  {
    hide AllFlow, Has, CodeE, DepthE, SizeE, Good, PlainE, PlainB;
    var q := p + SizeE(e);
    Split(D, p, DepthE(e, d), [d.Up(1)]);
    FlowE(k, ops, D, mode, p, e, d);
    OpFlows(ops, D, mode, q, op, 1, 0);
    Joined(ops, D, mode, p, q, q + 1);
  }

  lemma {:induction false} FlowReturn(k: Tables, ops: Ops, D: Depths, mode: Mode, p: nat, e: Option<Expr>, d: Place)
    requires mode.Plain? ==> PlainMaybe(e)
    requires Fit(k, ops, D, mode) && CodeReturn(k, ops, p, e)
    requires Has(D, p, (if e.Some? then DepthE(e.value, d) else [d]) + [d.Up(1)])
    requires Next(D, p + SizeS(Return(e)), d)
    ensures AllFlow(ops, D, mode, p, p + SizeS(Return(e)))
  {
    hide AllFlow, Has, CodeE, DepthE, SizeE, Good, PlainE, PlainB;
    if e.Some? {
      FlowPop(k, ops, D, mode, p, e.value, RETURN, d);
    } else {
      Split(D, p, [d], [d.Up(1)]);
      HasAt(D, p, [d], 0);
      NilFlows(ops, D, mode, p);
      OpFlows(ops, D, mode, p + 1, RETURN, 1, 0);
      Joined(ops, D, mode, p, p + 1, p + 2);
    }
  }

  lemma {:induction false} FlowLeave(k: Tables, ops: Ops, D: Depths, mode: Mode, p: nat, ref: int, d: Place)
    requires !mode.Plain?
    requires Fit(k, ops, D, mode) && JumpRef(k, ops, p, ref) && At(ops, p + 5, POP)
    requires Has(D, p, WideAt(d) + [d.Up(1)]) && Next(D, p + 6, d) && Lands(D, ref, p + 6, d)
    ensures AllFlow(ops, D, mode, p, p + 6)
  {
    hide AllFlow, Has, WideAt, Good, PlainE, PlainB;
    Split(D, p, WideAt(d), [d.Up(1)]);
    JumpFlows(ops, D, mode, p, ref, d);
    OpFlows(ops, D, mode, p + 5, POP, 1, 0);
    Joined(ops, D, mode, p, p + 5, p + 6);
  }

  lemma {:induction false} FlowItem(k: Tables, ops: Ops, D: Depths, mode: Mode, p: nat, name: string,
                                    index: Option<string>, d: Place)
    requires Fit(k, ops, D, mode) && CodeItem(k, ops, p, name, index)
    requires d.depth > 0 && Has(D, p, DepthItem(index, d.Up(1))) && Next(D, p + SizeItem(index), d)
    ensures AllFlow(ops, D, mode, p, p + SizeItem(index))
  {
    hide AllFlow, Has, WideAt, Good, PlainE, PlainB;
    var h := d.Up(1);
    if index.Some? {
      Split(D, p, WideAt(h) + [h], [h.Up(-1)] + WideAt(h) + [h]);
      Split(D, p + 6, [h.Up(-1)] + WideAt(h), [h]);
      Split(D, p + 6, [h.Up(-1)], WideAt(h));
      OpFlows(ops, D, mode, p + 6, ITER_INDEX, 1, 2);
      SaveFlows(k, ops, D, mode, p + 7, index.value, h);
      OpFlows(ops, D, mode, p + 12, POP, 1, 0);
      Joined(ops, D, mode, p + 6, p + 7, p + 12);
      Joined(ops, D, mode, p + 6, p + 12, p + 13);
    } else {
      assert WideAt(h) + [h] + [] == WideAt(h) + [h];
      NoneFlow(ops, D, mode, p + 6);
    }
    Split(D, p, WideAt(h), [h]);
    SaveFlows(k, ops, D, mode, p, name, h);
    OpFlows(ops, D, mode, p + 5, POP, 1, 0);
    Joined(ops, D, mode, p, p + 5, p + 6);
    Joined(ops, D, mode, p, p + 6, p + SizeItem(index));
  }

  // ----- statements -----

  lemma {:induction false} FlowS(k: Tables, ops: Ops, D: Depths, mode: Mode, p: nat, s: Stmt, brk: int, cont: int,
                                 d: Place)
    requires if mode.Any? then Stays(s, true) else Tryless(s)
    requires mode.Plain? ==> PlainS(s)
    requires Fit(k, ops, D, mode) && CodeS(k, ops, p, s, brk, cont) && Has(D, p, DepthS(s, p, d))
    requires Next(D, p + SizeS(s), d) && Lands(D, brk, p + SizeS(s), d) && Lands(D, cont, p + SizeS(s), d)
    ensures AllFlow(ops, D, mode, p, p + SizeS(s))
    decreases SizeS(s), 2
  {
    hide AllFlow, Has, Next, CodeS, DepthS, SizeS, Good, PlainE, PlainB, Lands, Tryless, Stays, TrylessB, StaysB,
         TrylessElse, StaysElse;
    if s.If? || s.Loop? || s.ForIn? || s.Try? {
      FlowCompound(k, ops, D, mode, p, s, brk, cont, d);
    } else {
      FlowSimple(k, ops, D, mode, p, s, brk, cont, d);
    }
  }

  lemma FlowSimple(k: Tables, ops: Ops, D: Depths, mode: Mode, p: nat, s: Stmt, brk: int, cont: int, d: Place)
    requires mode.Plain? ==> PlainS(s)
    requires !(s.If? || s.Loop? || s.ForIn? || s.Try?)
    requires Fit(k, ops, D, mode) && CodeS(k, ops, p, s, brk, cont) && Has(D, p, DepthS(s, p, d))
    requires Next(D, p + SizeS(s), d) && Lands(D, brk, p + SizeS(s), d) && Lands(D, cont, p + SizeS(s), d)
    ensures AllFlow(ops, D, mode, p, p + SizeS(s))
  {
    hide AllFlow, Has, Next, CodeE, DepthE, SizeE, CodeReturn, JumpRef, At, Good, PlainE, PlainB, Lands, WideAt;
    match s
    case Do(e) => FlowPop(k, ops, D, mode, p, e, POP, d);
    case Print(e) => FlowPop(k, ops, D, mode, p, e, PRINT, d);
    case Return(e) => FlowReturn(k, ops, D, mode, p, e, d);
    case Raise(e) => FlowPop(k, ops, D, mode, p, e, RAISE, d);
    case Break => FlowLeave(k, ops, D, mode, p, brk, d);
    case Continue => FlowLeave(k, ops, D, mode, p, cont, d);
  }

  lemma {:induction false} FlowCompound(k: Tables, ops: Ops, D: Depths, mode: Mode, p: nat, s: Stmt, brk: int,
                                        cont: int, d: Place)
    requires if mode.Any? then Stays(s, true) else Tryless(s)
    requires mode.Plain? ==> PlainS(s)
    requires s.If? || s.Loop? || s.ForIn? || s.Try?
    requires Fit(k, ops, D, mode) && CodeS(k, ops, p, s, brk, cont) && Has(D, p, DepthS(s, p, d))
    requires Next(D, p + SizeS(s), d) && Lands(D, brk, p + SizeS(s), d) && Lands(D, cont, p + SizeS(s), d)
    ensures AllFlow(ops, D, mode, p, p + SizeS(s))
    decreases SizeS(s), 1
  {
    hide AllFlow, Has, Next, CodeIf, CodeLoop, CodeForIn, DepthE, SizeE, DepthB, DepthElse, Good, PlainE, PlainB,
         Lands, IfDepths, RoundsDepths, ItemsDepths, DepthMaybe, DepthItem, SizeMaybe, SizeItem, TrylessB, StaysB,
         TrylessElse, StaysElse, CodeTry, TryDepths, PlainElse, PlainMaybe;
    match s
    case If(test, body, rest) => FlowIf(k, ops, D, mode, p, test, body, rest, brk, cont, d);
    case Loop(init, test, step, body) => FlowLoop(k, ops, D, mode, p, init, test, step, body, d);
    case ForIn(name, index, e, body) => FlowForIn(k, ops, D, mode, p, name, index, e, body, d);
    case Try(body, name, handler) => FlowTry(k, ops, D, mode, p, body, name, handler, brk, cont, d);
  }

  lemma {:induction false} FlowIf(k: Tables, ops: Ops, D: Depths, mode: Mode, p: nat, test: Expr, body: Block,
                                  rest: Else, brk: int, cont: int, d: Place)
    requires if mode.Any? then StaysB(body, true) && StaysElse(rest, true)
             else TrylessB(body) && TrylessElse(rest)
    requires mode.Plain? ==> PlainE(test) && PlainB(body) && PlainElse(rest)
    requires Fit(k, ops, D, mode) && CodeIf(k, ops, p, test, body, rest, brk, cont)
    requires var q := p + SizeE(test) + 5;
             Has(D, p, IfDepths(DepthE(test, d), DepthB(body, q, d), rest.NoElse?,
                                DepthElse(rest, q + SizeB(body) + 5, d), d))
    requires var end := p + SizeE(test) + 5 + SizeB(body) + (if rest.NoElse? then 0 else 5 + SizeElse(rest)) + 1;
             Next(D, end, d) && Lands(D, brk, end, d) && Lands(D, cont, end, d)
    ensures AllFlow(ops, D, mode, p, p + SizeE(test) + 5 + SizeB(body) + (if rest.NoElse? then 0
                                                                          else 5 + SizeElse(rest)) + 1)
    decreases SizeE(test) + 5 + SizeB(body) + (if rest.NoElse? then 0 else 5 + SizeElse(rest)) + 1, 0
  {
    hide AllFlow, Has, Good, At, Wide, PlainE, PlainB, WideAt, CodeE, DepthE, SizeE, CodeB, DepthB, SizeB, DepthElse,
         SizeElse, CodeElse, JumpTo, Mark, Tryless, Stays, TrylessB, StaysB, TrylessElse, StaysElse;
    var q := p + SizeE(test);
    var r := q + 5 + SizeB(body);
    var tail := if rest.NoElse? then [d] else WideAt(d) + DepthElse(rest, r + 5, d) + [d];
    Split(D, p, DepthE(test, d) + WideAt(d.Up(1)), DepthB(body, q + 5, d) + tail);
    SplitBlock(D, q + 5, body, d, tail);
    FlowB(k, ops, D, mode, q + 5, body, brk, cont, d);
    if rest.NoElse? {
      FlowTest(k, ops, D, mode, p, test, r, d);
      MarkFlows(k, ops, D, mode, r, d);
      Joined(ops, D, mode, p, q + 5, r);
      Joined(ops, D, mode, p, r, r + 1);
    } else {
      FlowTail(k, ops, D, mode, r, rest, brk, cont, d);
      FlowTest(k, ops, D, mode, p, test, r + 5, d);
      Joined(ops, D, mode, p, q + 5, r);
      Joined(ops, D, mode, p, r, r + 5 + SizeElse(rest) + 1);
    }
  }

  /** Behind the body of an if that goes on. */
  lemma {:induction false} FlowTail(k: Tables, ops: Ops, D: Depths, mode: Mode, r: nat, rest: Else, brk: int,
                                    cont: int, d: Place)
    requires if mode.Any? then StaysElse(rest, true) else TrylessElse(rest)
    requires mode.Plain? ==> PlainElse(rest)
    requires var out := r + 5 + SizeElse(rest);
             Fit(k, ops, D, mode) && !rest.NoElse? && JumpTo(k, ops, r, JUMP, out)
             && CodeElse(k, ops, r + 5, rest, out, brk, cont) && Mark(k, ops, out) && Next(D, out + 1, d)
             && Lands(D, brk, out + 1, d) && Lands(D, cont, out + 1, d)
    requires Has(D, r, WideAt(d) + DepthElse(rest, r + 5, d) + [d])
    ensures AllFlow(ops, D, mode, r, r + 5 + SizeElse(rest) + 1) && Next(D, r + 6, d)
    decreases SizeElse(rest), 2
  {
    hide AllFlow, Has, Good, At, Wide, PlainE, PlainB, WideAt, DepthElse, SizeElse, CodeElse, Tryless, Stays, TrylessB,
         StaysB, TrylessElse, StaysElse;
    var out := r + 5 + SizeElse(rest);
    Split(D, r, WideAt(d) + DepthElse(rest, r + 5, d), [d]);
    HasBoth(D, r, WideAt(d), DepthElse(rest, r + 5, d));
    MarkedElse(k, ops, D, r + 5, rest, out, brk, cont, d);
    JumpFlows(ops, D, mode, r, out, d);
    FlowElse(k, ops, D, mode, r + 5, rest, out, brk, cont, d);
    MarkFlows(k, ops, D, mode, out, d);
    Joined(ops, D, mode, r, r + 5, out);
    Joined(ops, D, mode, r, out, out + 1);
  }

  /** Behind the marker of an else the depth is the same. */
  lemma MarkedElse(k: Tables, ops: Ops, D: Depths, m: nat, rest: Else, out: nat, brk: int, cont: int, d: Place)
    requires !rest.NoElse? && CodeElse(k, ops, m, rest, out, brk, cont) && Has(D, m, DepthElse(rest, m, d))
    requires Next(D, m + SizeElse(rest), d)
    ensures Next(D, m, d) && Next(D, m + 1, d)
  {
    hide Has, DepthE, DepthB, CodeE, CodeB, ElifDepths, SizeE, SizeB;
    HasAt(D, m, DepthElse(rest, m, d), 0);
    if |DepthElse(rest, m, d)| > 1 {
      HasAt(D, m, DepthElse(rest, m, d), 1);
    }
  }

  lemma {:induction false} FlowElse(k: Tables, ops: Ops, D: Depths, mode: Mode, m: nat, rest: Else, out: nat,
                                    brk: int, cont: int, d: Place)
    requires if mode.Any? then StaysElse(rest, true) else TrylessElse(rest)
    requires mode.Plain? ==> PlainElse(rest)
    requires Fit(k, ops, D, mode) && !rest.NoElse? && CodeElse(k, ops, m, rest, out, brk, cont)
    requires Has(D, m, DepthElse(rest, m, d)) && out == m + SizeElse(rest) && Next(D, out, d) && Next(D, out + 1, d)
    requires Lands(D, brk, out, d) && Lands(D, cont, out, d)
    ensures AllFlow(ops, D, mode, m, out)
    decreases SizeElse(rest), 1
  {
    hide AllFlow, Has, Good, Wide, PlainE, PlainB, WideAt, CodeE, DepthE, SizeE, CodeB, DepthB, SizeB, DepthElse,
         ElifDepths, TrylessB, StaysB, Lands, JumpTo;
    MarkedElse(k, ops, D, m, rest, out, brk, cont, d);
    OpFlows(ops, D, mode, m, IGNORE, 0, 0);
    ElseSplits(D, m, rest, d);
    match rest {
      case ElseBlock(body) => FlowB(k, ops, D, mode, m + 1, body, brk, cont, d);
      case Elif(test, body, rest') => FlowElif(k, ops, D, mode, m + 1, test, body, rest', out, brk, cont, d);
    }
    Joined(ops, D, mode, m, m + 1, out);
  }

  lemma ElseSplits(D: Depths, m: nat, rest: Else, d: Place)
    requires Has(D, m, DepthElse(rest, m, d))
    ensures rest.ElseBlock? ==> Has(D, m + 1, DepthB(rest.body, m + 1, d))
    ensures rest.Elif? ==>
              var q := m + 1 + SizeE(rest.test) + 5;
              Has(D, m + 1, ElifDepths(DepthE(rest.test, d), DepthB(rest.body, q, d), rest.rest.NoElse?,
                                       DepthElse(rest.rest, q + SizeB(rest.body) + 5, d), d))
  {
    hide Has, DepthE, DepthB, SizeB, SizeE, ElifDepths;
    match rest
    case NoElse =>
    case ElseBlock(body) => HasBoth(D, m, [d], DepthB(body, m + 1, d));
    case Elif(test, body, rest') =>
      var q := m + 1 + SizeE(test) + 5;
      HasBoth(D, m, [d], ElifDepths(DepthE(test, d), DepthB(body, q, d), rest'.NoElse?,
                                    DepthElse(rest', q + SizeB(body) + 5, d), d));
  }

  /** An elif behind its marker. */
  lemma {:induction false} FlowElif(k: Tables, ops: Ops, D: Depths, mode: Mode, p: nat, test: Expr, body: Block,
                                    rest: Else, out: nat, brk: int, cont: int, d: Place)
    requires if mode.Any? then StaysB(body, true) && StaysElse(rest, true)
             else TrylessB(body) && TrylessElse(rest)
    requires mode.Plain? ==> PlainE(test) && PlainB(body) && PlainElse(rest)
    requires Fit(k, ops, D, mode) && p > 0 && CodeElse(k, ops, p - 1, Elif(test, body, rest), out, brk, cont)
    requires var q := p + SizeE(test) + 5;
             Has(D, p, ElifDepths(DepthE(test, d), DepthB(body, q, d), rest.NoElse?,
                                  DepthElse(rest, q + SizeB(body) + 5, d), d))
    requires out == p + SizeE(test) + 5 + SizeB(body) + if rest.NoElse? then 0 else 5 + SizeElse(rest)
    requires Next(D, out, d) && Next(D, out + 1, d) && Lands(D, brk, out, d) && Lands(D, cont, out, d)
    ensures AllFlow(ops, D, mode, p, out)
    decreases SizeE(test) + 5 + SizeB(body) + (if rest.NoElse? then 0 else 5 + SizeElse(rest)), 1
  {
    hide AllFlow, Has, Good, PlainE, PlainB, WideAt, CodeE, DepthE, SizeE, CodeB, DepthB, SizeB, DepthElse, SizeElse,
         JumpTo, Mark, TrylessB, StaysB, TrylessElse, StaysElse, ElifDepths;
    var q := p + SizeE(test);
    var r := q + 5 + SizeB(body);
    ElifSplits(D, p, test, body, rest, d);
    FlowB(k, ops, D, mode, q + 5, body, brk, cont, d);
    if rest.NoElse? {
      FlowTest(k, ops, D, mode, p, test, out, d);
      Joined(ops, D, mode, p, q + 5, out);
    } else {
      MarkedElse(k, ops, D, r + 5, rest, out, brk, cont, d);
      FlowTest(k, ops, D, mode, p, test, r + 5, d);
      JumpToFlows(k, ops, D, mode, r, out, d);
      FlowElse(k, ops, D, mode, r + 5, rest, out, brk, cont, d);
      Joined(ops, D, mode, p, q + 5, r);
      Joined(ops, D, mode, p, r, r + 5);
      Joined(ops, D, mode, p, r + 5, out);
    }
  }

  lemma ElifSplits(D: Depths, p: nat, test: Expr, body: Block, rest: Else, d: Place)
    requires var q := p + SizeE(test) + 5;
             Has(D, p, ElifDepths(DepthE(test, d), DepthB(body, q, d), rest.NoElse?,
                                  DepthElse(rest, q + SizeB(body) + 5, d), d))
    requires rest.NoElse? ==> Next(D, p + SizeE(test) + 5 + SizeB(body), d)
    ensures var q := p + SizeE(test) + 5;
            var r := q + SizeB(body);
            Has(D, p, DepthE(test, d) + WideAt(d.Up(1))) && Has(D, q, DepthB(body, q, d)) && Next(D, q, d)
              && Next(D, r, d)
            && (!rest.NoElse? ==> Has(D, r, WideAt(d)) && Has(D, r + 5, DepthElse(rest, r + 5, d)))
  {
    hide Has, WideAt, DepthE, SizeE, DepthB, SizeB, DepthElse, SizeElse;
    var q := p + SizeE(test) + 5;
    var r := q + SizeB(body);
    var block, jump := DepthB(body, q, d), WideAt(d) + DepthElse(rest, r + 5, d);
    HasBoth(D, p, DepthE(test, d) + WideAt(d.Up(1)), if rest.NoElse? then block else block + jump);
    if rest.NoElse? {
      BlockFirst(D, q, body, d);
    } else {
      SplitBlock(D, q, body, d, jump);
      HasBoth(D, r, WideAt(d), DepthElse(rest, r + 5, d));
    }
  }

  lemma BlockFirst(D: Depths, p: nat, b: Block, d: Place)
    requires Has(D, p, DepthB(b, p, d)) && Next(D, p + SizeB(b), d)
    ensures Next(D, p, d)
  {
    hide Has, DepthB, SizeB;
    if |DepthB(b, p, d)| > 0 {
      HasAt(D, p, DepthB(b, p, d), 0);
    }
  }

  lemma {:induction false} FlowLoop(k: Tables, ops: Ops, D: Depths, mode: Mode, p: nat, init: Option<Expr>,
                                    test: Expr, step: Option<Expr>, body: Block, d: Place)
    requires if mode.Any? then StaysB(body, true) else TrylessB(body)
    requires mode.Plain? ==> PlainMaybe(init) && PlainE(test) && PlainMaybe(step) && PlainB(body)
    requires Fit(k, ops, D, mode) && CodeLoop(k, ops, p, init, test, step, body)
    requires var b := p + SizeMaybe(init) + SizeE(test) + 5;
             Has(D, p, DepthMaybe(init, d) + RoundsDepths(DepthE(test, d), DepthB(body, b, d), DepthMaybe(step, d), d))
    requires Next(D, p + SizeMaybe(init) + SizeE(test) + 5 + SizeB(body) + 1 + SizeMaybe(step) + 5 + 1, d)
    ensures AllFlow(ops, D, mode, p, p + SizeMaybe(init) + SizeE(test) + 5 + SizeB(body) + 1 + SizeMaybe(step) + 5 + 1)
    decreases SizeMaybe(init) + SizeE(test) + 5 + SizeB(body) + 1 + SizeMaybe(step) + 5 + 1, 0
  {
    hide AllFlow, Has, Good, At, Wide, PlainE, PlainB, DepthMaybe, SizeMaybe, CodeMaybe, DepthE, SizeE, DepthB, SizeB,
         CodeRounds, RoundsDepths, Tryless, Stays, TrylessB, StaysB, TrylessElse, StaysElse;
    var start := p + SizeMaybe(init);
    Split(D, p, DepthMaybe(init, d), RoundsDepths(DepthE(test, d), DepthB(body, start + SizeE(test) + 5, d),
                                                  DepthMaybe(step, d), d));
    FlowMaybe(k, ops, D, mode, p, init, d);
    FlowRounds(k, ops, D, mode, start, test, step, body, d);
    Joined(ops, D, mode, p, start, start + SizeE(test) + 5 + SizeB(body) + 1 + SizeMaybe(step) + 5 + 1);
  }

  lemma {:induction false} FlowRounds(k: Tables, ops: Ops, D: Depths, mode: Mode, start: nat, test: Expr,
                                      step: Option<Expr>, body: Block, d: Place)
    requires if mode.Any? then StaysB(body, true) else TrylessB(body)
    requires mode.Plain? ==> PlainE(test) && PlainMaybe(step) && PlainB(body)
    requires Fit(k, ops, D, mode) && CodeRounds(k, ops, start, test, step, body)
    requires Has(D, start, RoundsDepths(DepthE(test, d), DepthB(body, start + SizeE(test) + 5, d),
                                        DepthMaybe(step, d), d))
    requires Next(D, start + SizeE(test) + 5 + SizeB(body) + 1 + SizeMaybe(step) + 5 + 1, d)
    ensures AllFlow(ops, D, mode, start, start + SizeE(test) + 5 + SizeB(body) + 1 + SizeMaybe(step) + 5 + 1)
    decreases SizeE(test) + 5 + SizeB(body), 0
  {
    hide AllFlow, Has, Good, At, Wide, PlainE, PlainB, WideAt, DepthMaybe, SizeMaybe, CodeMaybe, CodeE, DepthE, SizeE,
         DepthB, SizeB, CodeB, Mark, JumpTo, StepDepths, Tryless, Stays, TrylessB, StaysB, TrylessElse, StaysElse;
    var q := start + SizeE(test);
    var m := q + 5 + SizeB(body);
    var j := m + 1 + SizeMaybe(step);
    var last := StepDepths(DepthMaybe(step, d), d);
    Split(D, start, DepthE(test, d) + WideAt(d.Up(1)), DepthB(body, q + 5, d) + last);
    SplitBlock(D, q + 5, body, d, last);
    FlowTest(k, ops, D, mode, start, test, j + 5, d);
    FlowStep(k, ops, D, mode, m, step, start, d);
    FlowB(k, ops, D, mode, q + 5, body, j + 5, m, d);
    Joined(ops, D, mode, start, q + 5, m);
    Joined(ops, D, mode, start, m, j + 6);
  }

  /** From the marker of continue on: the step, and the way back. */
  lemma FlowStep(k: Tables, ops: Ops, D: Depths, mode: Mode, m: nat, step: Option<Expr>, start: nat, d: Place)
    requires mode.Plain? ==> PlainMaybe(step)
    requires var j := m + 1 + SizeMaybe(step);
             Fit(k, ops, D, mode) && start < m && Next(D, start, d) && Next(D, j + 6, d)
             && Mark(k, ops, m) && CodeMaybe(k, ops, m + 1, step) && Wide(ops, j, JUMP, start) && Mark(k, ops, j + 5)
    requires Has(D, m, StepDepths(DepthMaybe(step, d), d))
    ensures AllFlow(ops, D, mode, m, m + 1 + SizeMaybe(step) + 6) && Next(D, m + 1, d)
  {
    hide AllFlow, Has, Good, At, Wide, WideAt, DepthMaybe, SizeMaybe, CodeMaybe, PlainMaybe;
    var j := m + 1 + SizeMaybe(step);
    Split(D, m, [d] + DepthMaybe(step, d), WideAt(d) + [d]);
    HasBoth(D, m, [d], DepthMaybe(step, d));
    HasAt(D, m, [d], 0);
    MaybeFirst(D, m + 1, step, d);
    Split(D, j, WideAt(d), [d]);
    MarkFlows(k, ops, D, mode, m, d);
    FlowMaybe(k, ops, D, mode, m + 1, step, d);
    JumpFlows(ops, D, mode, j, start, d);
    MarkFlows(k, ops, D, mode, j + 5, d);
    Joined(ops, D, mode, m, m + 1, j);
    Joined(ops, D, mode, m, j, j + 5);
    Joined(ops, D, mode, m, j + 5, j + 6);
  }

  lemma MaybeFirst(D: Depths, p: nat, e: Option<Expr>, d: Place)
    requires Has(D, p, DepthMaybe(e, d)) && Next(D, p + SizeMaybe(e), d)
    ensures Next(D, p, d)
  {
    hide Has, DepthE;
    if e.Some? {
      HasAt(D, p, DepthMaybe(e, d), 0);
    }
  }

  lemma {:induction false} FlowForIn(k: Tables, ops: Ops, D: Depths, mode: Mode, p: nat, name: string,
                                     index: Option<string>, e: Expr, body: Block, d: Place)
    requires if mode.Any? then StaysB(body, true) else TrylessB(body)
    requires mode.Plain? ==> PlainE(e) && PlainB(body)
    requires Fit(k, ops, D, mode) && CodeForIn(k, ops, p, name, index, e, body)
    requires var b := p + SizeE(e) + 1 + 5 + SizeItem(index);
             Has(D, p, DepthE(e, d) + [d.Up(1)] + ItemsDepths(DepthItem(index, d.Up(2)), DepthB(body, b, d.Up(1)),
                                                              d.Up(1)))
    requires Next(D, p + SizeE(e) + 1 + 5 + SizeItem(index) + SizeB(body) + 1 + 5 + 1 + 1, d)
    ensures AllFlow(ops, D, mode, p, p + SizeE(e) + 1 + 5 + SizeItem(index) + SizeB(body) + 1 + 5 + 1 + 1)
    decreases SizeE(e) + 1 + 5 + SizeItem(index) + SizeB(body) + 1 + 5 + 1 + 1, 0
  {
    hide AllFlow, Has, Good, At, Wide, PlainE, PlainB, CodeE, DepthE, SizeE, DepthB, SizeB, DepthItem, SizeItem,
         CodeItems, ItemsDepths, Tryless, Stays, TrylessB, StaysB, TrylessElse, StaysElse;
    var q := p + SizeE(e);
    var items := ItemsDepths(DepthItem(index, d.Up(2)), DepthB(body, q + 1 + 5 + SizeItem(index), d.Up(1)), d.Up(1));
    Split(D, p, DepthE(e, d) + [d.Up(1)], items);
    Split(D, p, DepthE(e, d), [d.Up(1)]);
    FlowE(k, ops, D, mode, p, e, d);
    OpFlows(ops, D, mode, q, MAKE_ITER, 1, 1);
    FlowItems(k, ops, D, mode, q + 1, name, index, body, d.Up(1));
    Joined(ops, D, mode, p, q, q + 1);
    Joined(ops, D, mode, p, q + 1, q + 1 + 5 + SizeItem(index) + SizeB(body) + 8);
  }

  /** h counts the iterator. */
  lemma {:induction false} FlowItems(k: Tables, ops: Ops, D: Depths, mode: Mode, n: nat, name: string,
                                     index: Option<string>, body: Block, h: Place)
    requires if mode.Any? then StaysB(body, true) else TrylessB(body)
    requires mode.Plain? ==> PlainB(body)
    requires Fit(k, ops, D, mode) && CodeItems(k, ops, n, name, index, body) && h.depth > 0
    requires Has(D, n, ItemsDepths(DepthItem(index, h.Up(1)), DepthB(body, n + 5 + SizeItem(index), h), h))
    requires Next(D, n + 5 + SizeItem(index) + SizeB(body) + 8, h.Up(-1))
    ensures AllFlow(ops, D, mode, n, n + 5 + SizeItem(index) + SizeB(body) + 8)
    decreases SizeB(body) + 5, 0
  {
    hide AllFlow, Has, Good, At, Wide, PlainE, PlainB, WideAt, DepthItem, CodeItem, DepthB, SizeB, CodeB, Tryless,
         Stays, TrylessB, StaysB, TrylessElse, StaysElse;
    var b := n + 5 + SizeItem(index);
    var m := b + SizeB(body);
    var last := BackDepths(h);
    Split(D, n, WideAt(h) + DepthItem(index, h.Up(1)), DepthB(body, b, h) + last);
    Split(D, n, WideAt(h), DepthItem(index, h.Up(1)));
    SplitBlock(D, b, body, h, last);
    HasAt(D, n, WideAt(h), 0);
    FlowBack(k, ops, D, mode, m, n, h);
    IterFlows(ops, D, mode, n, m + 6, h.Up(-1));
    FlowItem(k, ops, D, mode, n + 5, name, index, h);
    FlowB(k, ops, D, mode, b, body, m + 6, m, h);
    Joined(ops, D, mode, n, n + 5, b);
    Joined(ops, D, mode, n, b, m);
    Joined(ops, D, mode, n, m, m + 8);
  }

  /** The way back to n, and the end of the loop. */
  lemma FlowBack(k: Tables, ops: Ops, D: Depths, mode: Mode, m: nat, n: nat, h: Place)
    requires Fit(k, ops, D, mode) && n < m && h.depth > 0 && Next(D, n, h) && Next(D, m + 8, h.Up(-1))
    requires Mark(k, ops, m) && Wide(ops, m + 1, JUMP, n) && Mark(k, ops, m + 6) && At(ops, m + 7, POP)
    requires Has(D, m, BackDepths(h))
    ensures AllFlow(ops, D, mode, m, m + 8) && Next(D, m + 1, h) && Next(D, m + 7, h)
  {
    hide AllFlow, Has, Good, At, Wide, WideAt;
    Split(D, m, [h] + WideAt(h), [h, h]);
    Split(D, m, [h], WideAt(h));
    HasAt(D, m, [h], 0);
    HasAt(D, m + 6, [h, h], 1);
    MarkFlows(k, ops, D, mode, m, h);
    JumpFlows(ops, D, mode, m + 1, n, h);
    MarkFlows(k, ops, D, mode, m + 6, h);
    OpFlows(ops, D, mode, m + 7, POP, 1, 0);
    Joined(ops, D, mode, m, m + 1, m + 6);
    Joined(ops, D, mode, m, m + 6, m + 7);
    Joined(ops, D, mode, m, m + 7, m + 8);
  }

  lemma {:induction false} FlowTry(k: Tables, ops: Ops, D: Depths, mode: Mode, p: nat, body: Block, name: string,
                                   handler: Block, brk: int, cont: int, d: Place)
    requires mode.Any? && StaysB(body, false) && StaysB(handler, true)
    requires Fit(k, ops, D, mode) && CodeTry(k, ops, p, body, name, handler, brk, cont)
    requires var c := p + 5 + SizeB(body) + 6;
             Has(D, p, TryDepths(DepthB(body, p + 5, Inside(d, c)), DepthB(handler, c + 7, d), c, d))
    requires var end := p + 5 + SizeB(body) + 6 + 7 + SizeB(handler) + 1;
             Next(D, end, d) && Lands(D, brk, end, d) && Lands(D, cont, end, d)
    ensures AllFlow(ops, D, mode, p, p + 5 + SizeB(body) + 6 + 7 + SizeB(handler) + 1)
    decreases 5 + SizeB(body) + 6 + 7 + SizeB(handler) + 1, 0
  {
    hide AllFlow, Has, Good, WideAt, DepthB, SizeB, CodeB, CodeTryAt, LeaveDepths, CatchDepths, TryDepths, StaysB;
    var r := p + 5 + SizeB(body);
    var c := r + 6;
    var out := c + 7 + SizeB(handler);
    TrySplits(D, p, body, handler, c, d);
    LeavesNotB(k, ops, p + 5, body, brk, cont);
    StaysMoreB(body);
    FlowTryAt(k, ops, D, p, r, c, out, name, d);
    FlowB(k, ops, D, mode, p + 5, body, -1, -1, Inside(d, c));
    FlowB(k, ops, D, mode, c + 7, handler, brk, cont, d);
    Joined(ops, D, mode, p, p + 5, r);
    Joined(ops, D, mode, p, r, c + 7);
    Joined(ops, D, mode, p, c + 7, out);
    Joined(ops, D, mode, p, out, out + 1);
  }

  lemma TrySplits(D: Depths, p: nat, body: Block, handler: Block, c: nat, d: Place)
    requires c == p + 5 + SizeB(body) + 6
    requires Has(D, p, TryDepths(DepthB(body, p + 5, Inside(d, c)), DepthB(handler, c + 7, d), c, d))
    ensures Has(D, p, WideAt(d)) && Has(D, p + 5, DepthB(body, p + 5, Inside(d, c))) && Next(D, p + 5, Inside(d, c))
    ensures Has(D, c - 6, LeaveDepths(c, d)) && Next(D, c - 6, Inside(d, c))
    ensures Has(D, c, CatchDepths(d)) && Next(D, c, d.Up(1))
    ensures Has(D, c + 7, DepthB(handler, c + 7, d)) && Next(D, c + 7, d) && Next(D, c + 7 + SizeB(handler), d)
  {
    hide Has, WideAt, DepthB, SizeB, LeaveDepths, CatchDepths;
    var last := DepthB(handler, c + 7, d) + [d];
    var leave := LeaveDepths(c, d) + (CatchDepths(d) + last);
    Split(D, p, WideAt(d), DepthB(body, p + 5, Inside(d, c)) + leave);
    hide TryDepths;
    SplitBlock(D, p + 5, body, Inside(d, c), leave);
    CatchSplits(D, handler, c, d);
  }

  lemma CatchSplits(D: Depths, handler: Block, c: nat, d: Place)
    requires c >= 6 && Has(D, c - 6, LeaveDepths(c, d) + (CatchDepths(d) + (DepthB(handler, c + 7, d) + [d])))
    ensures Has(D, c - 6, LeaveDepths(c, d)) && Has(D, c, CatchDepths(d)) && Next(D, c, d.Up(1))
    ensures Has(D, c + 7, DepthB(handler, c + 7, d)) && Next(D, c + 7, d) && Next(D, c + 7 + SizeB(handler), d)
  {
    hide Has, WideAt, DepthB, SizeB, LeaveDepths, CatchDepths;
    var last := DepthB(handler, c + 7, d) + [d];
    Split(D, c - 6, LeaveDepths(c, d), CatchDepths(d) + last);
    Split(D, c, CatchDepths(d), last);
    SplitBlock(D, c + 7, handler, d, [d]);
  }

  /** The instructions around the two blocks. */
  lemma FlowTryAt(k: Tables, ops: Ops, D: Depths, p: nat, r: nat, c: nat, out: nat, name: string, d: Place)
    requires Fit(k, ops, D, Any) && CodeTryAt(k, ops, p, r, c, out, name) && c == r + 6 && out >= c + 7
    requires Has(D, p, WideAt(d)) && Has(D, r, LeaveDepths(c, d)) && Has(D, c, CatchDepths(d))
    requires Next(D, p + 5, Inside(d, c)) && Next(D, c, d.Up(1)) && Next(D, c + 7, d) && Next(D, out, d)
             && Next(D, out + 1, d)
    ensures AllFlow(ops, D, Any, p, p + 5) && AllFlow(ops, D, Any, r, c + 7) && AllFlow(ops, D, Any, out, out + 1)
  {
    hide AllFlow, Has, Good, WideAt, At, Wide, NameAt;
    Split(D, c, [d.Up(1)] + WideAt(d.Up(1)), [d.Up(1)]);
    Split(D, c, [d.Up(1)], WideAt(d.Up(1)));
    HasAt(D, c + 1, WideAt(d.Up(1)), 0);
    CatchFlows(ops, D, p, c, d);
    LeaveFlows(k, ops, D, p, r, c, out, name, d);
    MarkFlows(k, ops, D, Any, c, d.Up(1));
    SaveFlows(k, ops, D, Any, c + 1, name, d.Up(1));
    OpFlows(ops, D, Any, c + 6, POP, 1, 0);
    MarkFlows(k, ops, D, Any, out, d);
    Joined(ops, D, Any, r, c, c + 1);
    Joined(ops, D, Any, r, c + 1, c + 6);
    Joined(ops, D, Any, r, c + 6, c + 7);
  }

  lemma LeaveFlows(k: Tables, ops: Ops, D: Depths, p: nat, r: nat, c: nat, out: nat, name: string, d: Place)
    requires Fit(k, ops, D, Any) && CodeTryAt(k, ops, p, r, c, out, name) && c == r + 6 && out >= c + 7
    requires Has(D, r, LeaveDepths(c, d)) && Next(D, c, d.Up(1)) && Next(D, out + 1, d)
    ensures AllFlow(ops, D, Any, r, c)
  {
    hide AllFlow, Has, WideAt, Wide, NameAt, Good;
    Split(D, r, [Inside(d, c)], WideAt(d));
    HasAt(D, r, [Inside(d, c)], 0);
    PopCatchFlows(ops, D, r, c, d);
    JumpFlows(ops, D, Any, r + 1, out, d);
    Joined(ops, D, Any, r, r + 1, c);
  }

  lemma PopCatchFlows(ops: Ops, D: Depths, r: nat, c: int, d: Place)
    requires |D| == |ops| + 1 && At(ops, r, POP_CATCH) && D[r] == Inside(d, c) && Next(D, r + 1, d)
    ensures AllFlow(ops, D, Any, r, r + 1)
  {
    hide AllFlow;
    assert Outside(D[r]) == d by {
      assert (d.handlers + [c])[..|d.handlers|] == d.handlers;
    }
    OneFlows(ops, D, Any, r);
  }

  lemma CatchFlows(ops: Ops, D: Depths, p: nat, c: nat, d: Place)
    requires |D| == |ops| + 1 && Wide(ops, p, PUSH_CATCH, c) && Has(D, p, WideAt(d))
    requires Next(D, p + 5, Inside(d, c)) && Next(D, c + 1, d.Up(1))
    ensures AllFlow(ops, D, Any, p, p + 5)
  {
    hide AllFlow, Has, WideAt, Blank;
    WideBlank(D, p, d);
    WideFlows(ops, D, Any, p);
  }

  lemma {:induction false} FlowB(k: Tables, ops: Ops, D: Depths, mode: Mode, p: nat, b: Block, brk: int, cont: int,
                                 d: Place)
    requires if mode.Any? then StaysB(b, true) else TrylessB(b)
    requires mode.Plain? ==> PlainB(b)
    requires Fit(k, ops, D, mode) && CodeB(k, ops, p, b, brk, cont) && Has(D, p, DepthB(b, p, d))
    requires Next(D, p + SizeB(b), d) && Lands(D, brk, p + SizeB(b), d) && Lands(D, cont, p + SizeB(b), d)
    ensures AllFlow(ops, D, mode, p, p + SizeB(b))
    decreases SizeB(b), 3
  {
    hide AllFlow, Has, Good, At, Wide, CodeS, DepthS, SizeS, PlainS, Tryless, Stays;
    if b.Then? {
      var q := p + SizeS(b.first);
      StmtSize(b.first);
      HasBoth(D, p, DepthS(b.first, p, d), DepthB(b.rest, q, d));
      BlockFirst(D, q, b.rest, d);
      FlowS(k, ops, D, mode, p, b.first, brk, cont, d);
      FlowB(k, ops, D, mode, q, b.rest, brk, cont, d);
      Joined(ops, D, mode, p, q, p + SizeB(b));
    } else {
      NoneFlow(ops, D, mode, p);
    }
  }
}

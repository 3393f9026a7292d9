/** Runs of the machine, and what each single instruction does to a frame that is
    not raising. */
module LankyRuns {
  import opened Sequences
  import opened LankySyntax
  import opened LankySemantics
  import opened LankyMachine
  import opened LankyLayout

  /** A frame between two instructions, inside of try blocks with the handlers hs. */
  function F(hs: seq<int>, pc: int, stack: seq<Entry>, w: World): Frame {
    Frame(pc, stack, w, None, None, hs)
  }

  /** A frame in which an error has been noted. */
  function Noted(hs: seq<int>, pc: int, stack: seq<Entry>, err: Error, w: World): Frame {
    Frame(pc, stack, w, None, Some(err), hs)
  }

  ghost predicate Reach(rt: Runtime, code: Code, f: Frame, s: Status) {
    exists n: nat :: Run(rt, code, Running(f), n) == s
  }

  /** The run from f is still going after n turns. */
  ghost predicate Lasts(rt: Runtime, code: Code, f: Frame, n: nat) {
    Run(rt, code, Running(f), n).Running?
  }

  lemma ReachSelf(rt: Runtime, code: Code, f: Frame)
    ensures Reach(rt, code, f, Running(f))
  {
    assert Run(rt, code, Running(f), 0) == Running(f);
  }

  lemma ReachStep(rt: Runtime, code: Code, f: Frame)
    ensures Reach(rt, code, f, Step(rt, code, f))
  {
    assert Run(rt, code, Running(f), 1) == Run(rt, code, Step(rt, code, f), 0);
  }

  lemma ReachTrans(rt: Runtime, code: Code, f: Frame, g: Frame, s: Status)
    requires Reach(rt, code, f, Running(g)) && Reach(rt, code, g, s)
    ensures Reach(rt, code, f, s)
  {
    var m: nat :| Run(rt, code, Running(f), m) == Running(g);
    var n: nat :| Run(rt, code, Running(g), n) == s;
    RunMore(rt, code, Running(f), m, n);
    assert Run(rt, code, Running(f), m + n) == s;
  }

  lemma {:induction false} LastsLess(rt: Runtime, code: Code, f: Frame, m: nat, n: nat)
    requires Lasts(rt, code, f, n) && m <= n
    ensures Lasts(rt, code, f, m)
  {
    RunMore(rt, code, Running(f), m, n - m);
  }

  lemma ReachLasts(rt: Runtime, code: Code, f: Frame, g: Frame, n: nat)
    requires Reach(rt, code, f, Running(g)) && Lasts(rt, code, g, n)
    ensures Lasts(rt, code, f, n)
  {
    var m: nat :| Run(rt, code, Running(f), m) == Running(g);
    RunMore(rt, code, Running(f), m, n);
    LastsLess(rt, code, f, n, m + n);
  }

  lemma StepLasts(rt: Runtime, code: Code, f: Frame, g: Frame, n: nat)
    requires Step(rt, code, f) == Running(g) && Lasts(rt, code, g, n)
    ensures Lasts(rt, code, f, n + 1)
  {}

  // ----- the outcome of evaluating an expression, on the machine -----

  /** From f the machine notes an error, with the operands it had and perhaps more. */
  ghost predicate Fails(rt: Runtime, code: Code, hs: seq<int>, f: Frame, stack: seq<Entry>, err: Error, w: World) {
    exists pc, top :: stack <= top && Reach(rt, code, f, Running(Noted(hs, pc, top, err, w)))
  }

  lemma ThenFails(rt: Runtime, code: Code, hs: seq<int>, f: Frame, g: Frame, stack: seq<Entry>, err: Error, w: World)
    requires Reach(rt, code, f, Running(g)) && Fails(rt, code, hs, g, stack, err, w)
    ensures Fails(rt, code, hs, f, stack, err, w)
  {
    hide Reach;
    var pc, top :| stack <= top && Reach(rt, code, g, Running(Noted(hs, pc, top, err, w)));
    ReachTrans(rt, code, f, g, Running(Noted(hs, pc, top, err, w)));
  }

  lemma FailsBelow(rt: Runtime, code: Code, hs: seq<int>, f: Frame, stack1: seq<Entry>, stack: seq<Entry>, err: Error,
                   w: World)
    requires Fails(rt, code, hs, f, stack1, err, w) && stack <= stack1
    ensures Fails(rt, code, hs, f, stack, err, w)
  {
    hide Reach;
    var pc, top :| stack1 <= top && Reach(rt, code, f, Running(Noted(hs, pc, top, err, w)));
    assert stack <= top;
  }

  /** From f the machine notes an error, with no operand waiting. */
  ghost predicate FailsAt(rt: Runtime, code: Code, hs: seq<int>, f: Frame, stack: seq<Entry>, err: Error, w: World) {
    exists pc :: Reach(rt, code, f, Running(Noted(hs, pc, stack, err, w)))
  }

  lemma FailsAtLeast(rt: Runtime, code: Code, hs: seq<int>, f: Frame, stack: seq<Entry>, err: Error, w: World)
    requires FailsAt(rt, code, hs, f, stack, err, w)
    ensures Fails(rt, code, hs, f, stack, err, w)
  {
    hide Reach;
    var pc :| Reach(rt, code, f, Running(Noted(hs, pc, stack, err, w)));
    assert stack <= stack;
  }

  lemma ThenFailsAt(rt: Runtime, code: Code, hs: seq<int>, f: Frame, g: Frame, stack: seq<Entry>, err: Error, w: World)
    requires Reach(rt, code, f, Running(g)) && FailsAt(rt, code, hs, g, stack, err, w)
    ensures FailsAt(rt, code, hs, f, stack, err, w)
  {
    hide Reach;
    var pc :| Reach(rt, code, g, Running(Noted(hs, pc, stack, err, w)));
    ReachTrans(rt, code, f, g, Running(Noted(hs, pc, stack, err, w)));
  }

  /** An error that no handler around catches ends the run at the next turn. */
  lemma FailsEnds(rt: Runtime, code: Code, f: Frame, stack: seq<Entry>, err: Error, w: World)
    requires Fails(rt, code, [], f, stack, err, w)
    ensures Reach(rt, code, f, Finished(Fatal(err, w)))
  {
    var pc, top :| stack <= top && Reach(rt, code, f, Running(Noted([], pc, top, err, w)));
    var g := Noted([], pc, top, err, w);
    ReachStep(rt, code, g);
    hide Reach;
    ReachTrans(rt, code, f, g, Finished(Fatal(err, w)));
  }

  /** From f the machine gets to `pc` with the value on top of `stack`, or fails, or ends
      the way the evaluation ends. */
  ghost predicate Yields(rt: Runtime, code: Code, hs: seq<int>, f: Frame, pc: int, stack: seq<Entry>, r: Eval) {
    match r
    case Ok(v, w) => Reach(rt, code, f, Running(F(hs, pc, stack + [Val(v)], w)))
    case Raised(err, w) => Fails(rt, code, hs, f, stack, err, w)
    case Crashed(w) => Reach(rt, code, f, Finished(Crash(w)))
  }

  lemma ThenYields(rt: Runtime, code: Code, hs: seq<int>, f: Frame, g: Frame, pc: int, stack: seq<Entry>, r: Eval)
    requires Reach(rt, code, f, Running(g)) && Yields(rt, code, hs, g, pc, stack, r)
    ensures Yields(rt, code, hs, f, pc, stack, r)
  {
    hide Reach, Fails;
    match r
    case Ok(v, w) => ReachTrans(rt, code, f, g, Running(F(hs, pc, stack + [Val(v)], w)));
    case Raised(err, w) => ThenFails(rt, code, hs, f, g, stack, err, w);
    case Crashed(w) => ReachTrans(rt, code, f, g, Finished(Crash(w)));
  }

  /** An error that has just been noted. */
  lemma RaisedFails(rt: Runtime, code: Code, hs: seq<int>, f: Frame, g: Frame, stack: seq<Entry>, err: Error)
    requires Reach(rt, code, f, Running(g)) && g == Noted(hs, g.pc, g.stack, err, g.w) && stack <= g.stack
    ensures Fails(rt, code, hs, f, stack, err, g.w)
  {
    hide Reach;
  }

  // ----- single instructions -----

  /** An instruction that replaces n operands by a result. */
  lemma DeliverYields(rt: Runtime, code: Code, hs: seq<int>, f: Frame, pc: int, n: nat, stack: seq<Entry>, r: Eval)
    requires n <= |f.stack| && Step(rt, code, f) == Deliver(f, pc, n, r) && Drop(f, n) == stack
    requires f == F(hs, f.pc, f.stack, f.w)
    ensures Yields(rt, code, hs, f, pc, stack, r)
  {
    hide Reach, Step;
    ReachStep(rt, code, f);
    match r
    case Ok(v, w) =>
    case Raised(err, w) =>
      RaisedFails(rt, code, hs, f, Step(rt, code, f).f, stack, err);
    case Crashed(w) =>
  }

  lemma RunUnary(rt: Runtime, code: Code, hs: seq<int>, p: nat, op: UnOp, stack: seq<Entry>, x: Value, w: World)
    requires At(code.ops, p, UnaryOpcode(op))
    ensures Yields(rt, code, hs, F(hs, p - 1, stack + [Val(x)], w), p, stack, rt.unary(op, x, w))
  {
    var f := F(hs, p - 1, stack + [Val(x)], w);
    assert Drop(f, 1) == stack && Holds(f, 1);
    DeliverYields(rt, code, hs, f, p, 1, stack, rt.unary(op, x, w));
  }

  lemma BinaryDecodes(op: BinOp)
    ensures BINARY_FIRST <= BinaryOpcode(op) < BINARY_FIRST + |BINARY_OPS|
    ensures BINARY_OPS[BinaryOpcode(op) - BINARY_FIRST] == op
  {}

  lemma RunBinary(rt: Runtime, code: Code, hs: seq<int>, p: nat, op: BinOp, stack: seq<Entry>, x: Value, y: Value,
                  w: World)
    requires At(code.ops, p, BinaryOpcode(op))
    ensures Yields(rt, code, hs, F(hs, p - 1, stack + [Val(x)] + [Val(y)], w), p, stack, rt.binary(op, x, y, w))
  {
    var f := F(hs, p - 1, stack + [Val(x)] + [Val(y)], w);
    BinaryDecodes(op);
    hide BinaryOpcode;
    assert Drop(f, 2) == stack && Holds(f, 2);
    DeliverYields(rt, code, hs, f, p, 2, stack, rt.binary(op, x, y, w));
  }

  lemma RunPush(rt: Runtime, code: Code, hs: seq<int>, p: nat, stack: seq<Entry>, w: World)
    ensures At(code.ops, p, PUSH_NIL) ==>
              Yields(rt, code, hs, F(hs, p - 1, stack, w), p, stack, Ok(Nil, w))
    ensures forall b: bool :: At(code.ops, p, PUSH_BOOL) && At(code.ops, p + 1, if b then 1 else 0) ==>
              Yields(rt, code, hs, F(hs, p - 1, stack, w), p + 1, stack, Ok(BoolValue(b), w))
  {
    ReachStep(rt, code, F(hs, p - 1, stack, w));
  }

  lemma RunConst(rt: Runtime, code: Code, hs: seq<int>, k: Tables, p: nat, c: Constant, stack: seq<Entry>, w: World)
    requires k.consts == code.constants && k.exact && ConstAt(k, code.ops, p, c)
    ensures Yields(rt, code, hs, F(hs, p - 1, stack, w), p + 4, stack, Ok(ConstantValue(c), w))
  {
    ReachStep(rt, code, F(hs, p - 1, stack, w));
  }

  lemma RunLoad(rt: Runtime, code: Code, hs: seq<int>, k: Tables, p: nat, name: string, stack: seq<Entry>, w: World)
    requires k.names == code.names && NameAt(k, code.ops, p, LOAD_CLOSE, name)
    ensures Yields(rt, code, hs, F(hs, p - 1, stack, w), p + 4, stack, LoadVar(name, w))
  {
    var f := F(hs, p - 1, stack, w);
    ReachStep(rt, code, f);
    if LoadVar(name, w).Raised? {
      hide Reach;
      RaisedFails(rt, code, hs, f, Step(rt, code, f).f, stack, LoadVar(name, w).err);
    }
  }

  /** SAVE_CLOSE leaves the value on the stack. */
  lemma RunSave(rt: Runtime, code: Code, hs: seq<int>, k: Tables, p: nat, name: string, stack: seq<Entry>, v: Value,
                w: World)
    requires k.names == code.names && NameAt(k, code.ops, p, SAVE_CLOSE, name)
    ensures Reach(rt, code, F(hs, p - 1, stack + [Val(v)], w),
                  Running(F(hs, p + 4, stack + [Val(v)], SaveVar(name, v, w))))
  {
    var f := F(hs, p - 1, stack + [Val(v)], w);
    assert Holds(f, 1) && Top(f, 0) == v;
    ReachStep(rt, code, f);
  }

  lemma RunPop(rt: Runtime, code: Code, hs: seq<int>, p: nat, stack: seq<Entry>, e: Entry, w: World)
    requires At(code.ops, p, POP)
    ensures Reach(rt, code, F(hs, p - 1, stack + [e], w), Running(F(hs, p, stack, w)))
  {
    var f := F(hs, p - 1, stack + [e], w);
    assert Drop(f, 1) == stack;
    ReachStep(rt, code, f);
  }

  lemma RunMark(rt: Runtime, code: Code, hs: seq<int>, p: nat, stack: seq<Entry>, w: World)
    requires At(code.ops, p, IGNORE)
    ensures Reach(rt, code, F(hs, p - 1, stack, w), Running(F(hs, p, stack, w)))
  {
    ReachStep(rt, code, F(hs, p - 1, stack, w));
  }

  lemma RunJump(rt: Runtime, code: Code, hs: seq<int>, p: nat, target: int, stack: seq<Entry>, w: World)
    requires Wide(code.ops, p, JUMP, target) && target >= 0
    ensures Step(rt, code, F(hs, p - 1, stack, w)) == Running(F(hs, JumpFrom(p + 4, target), stack, w))
    ensures Reach(rt, code, F(hs, p - 1, stack, w), Running(F(hs, JumpFrom(p + 4, target), stack, w)))
  {
    ReachStep(rt, code, F(hs, p - 1, stack, w));
  }

  lemma RunJumpFalse(rt: Runtime, code: Code, hs: seq<int>, p: nat, target: int, stack: seq<Entry>, v: Value, w: World)
    requires Wide(code.ops, p, JUMP_FALSE, target)
    ensures Reach(rt, code, F(hs, p - 1, stack + [Val(v)], w),
                  Running(F(hs, if rt.truthy(v) then p + 4 else target, stack, w)))
  {
    var f := F(hs, p - 1, stack + [Val(v)], w);
    assert Holds(f, 1) && Top(f, 0) == v && Drop(f, 1) == stack;
    ReachStep(rt, code, f);
  }

  lemma RunDecide(rt: Runtime, code: Code, hs: seq<int>, p: nat, op: CondOp, target: int, stack: seq<Entry>, v: Value,
                  w: World)
    requires Wide(code.ops, p, CondOpcode(op), target)
    ensures Reach(rt, code, F(hs, p - 1, stack + [Val(v)], w),
                  Running(if Decides(rt, op, v) then F(hs, target, stack + [Val(v)], w) else F(hs, p + 4, stack, w)))
  {
    var f := F(hs, p - 1, stack + [Val(v)], w);
    assert Holds(f, 1) && Top(f, 0) == v && Drop(f, 1) == stack;
    ReachStep(rt, code, f);
  }

  function Vals(vs: seq<Value>): seq<Entry> {
    seq(|vs|, i requires 0 <= i < |vs| => Val(vs[i]))
  }

  lemma RunMakeArray(rt: Runtime, code: Code, hs: seq<int>, p: nat, stack: seq<Entry>, vs: seq<Value>, w: World)
    requires Wide(code.ops, p, MAKE_ARRAY, |vs|)
    ensures Reach(rt, code, F(hs, p - 1, stack + Vals(vs), w),
                  Running(F(hs, p + 4, stack + [Val(MakeArray(vs, w).0)], MakeArray(vs, w).1)))
  {
    var f := F(hs, p - 1, stack + Vals(vs), w);
    var n := |vs|;
    assert f.stack[|f.stack| - n..] == Vals(vs) && Drop(f, n) == stack && Holds(f, n);
    assert Values(Vals(vs)) == vs;
    ReachStep(rt, code, f);
  }

  /** The count of arguments is cut to a byte and read back as a signed char: the callee gets
      so many of the topmost ones, the others stay on the stack. It gets all of them exactly if
      there are no more than 127. */
  lemma ArgumentsPassed(rt: Runtime, code: Code, hs: seq<int>, p: nat, stack: seq<Entry>, vs: seq<Value>, g: Value,
                        w: World)
    requires At(code.ops, p, CALL_FUNC) && At(code.ops, p + 1, |vs| % 256)
    ensures SignedCount(|vs| % 256) <= |vs| && (SignedCount(|vs| % 256) == |vs| <==> |vs| <= MAX_ARGS)
    ensures var left := |vs| - SignedCount(|vs| % 256);
            Yields(rt, code, hs, F(hs, p - 1, stack + Vals(vs) + [Val(g)], w), p + 1, stack + Vals(vs[..left]),
                   rt.call(g, vs[left..], w))
  {
    var f, n := F(hs, p - 1, stack + Vals(vs) + [Val(g)], w), SignedCount(|vs| % 256);
    var left := |vs| - n;
    var rest, args := stack + Vals(vs[..left]), vs[left..];
    assert f.stack[|f.stack| - 1 - n..|f.stack| - 1] == Vals(args) && Drop(f, n + 1) == rest;
    assert Holds(f, n + 1) && Top(f, 0) == g && Values(Vals(args)) == args;
    ReachStep(rt, code, f);
    var r := rt.call(g, args, w);
    if r.Raised? {
      hide Reach;
      RaisedFails(rt, code, hs, f, Step(rt, code, f).f, rest, r.err);
    }
  }

  lemma RunCall(rt: Runtime, code: Code, hs: seq<int>, p: nat, stack: seq<Entry>, vs: seq<Value>, g: Value, w: World)
    requires At(code.ops, p, CALL_FUNC) && At(code.ops, p + 1, |vs|) && |vs| <= MAX_ARGS
    ensures Yields(rt, code, hs, F(hs, p - 1, stack + Vals(vs) + [Val(g)], w), p + 1, stack, rt.call(g, vs, w))
  {
    ArgumentsPassed(rt, code, hs, p, stack, vs, g, w);
    hide Yields;
    assert vs[0..] == vs && Vals(vs[..0]) == [] && stack + [] == stack;
  }

  lemma RunLoadIndex(rt: Runtime, code: Code, hs: seq<int>, p: nat, stack: seq<Entry>, x: Value, y: Value, w: World)
    requires At(code.ops, p, LOAD_INDEX)
    ensures Yields(rt, code, hs, F(hs, p - 1, stack + [Val(x)] + [Val(y)], w), p, stack, LoadIndex(rt, x, y, w))
  {
    var f := F(hs, p - 1, stack + [Val(x)] + [Val(y)], w);
    assert Drop(f, 2) == stack && Holds(f, 2);
    hide LoadIndex;
    DeliverYields(rt, code, hs, f, p, 2, stack, LoadIndex(rt, x, y, w));
  }

  lemma SavedValue(rt: Runtime, x: Value, y: Value, z: Value, w: World)
    ensures SaveIndex(rt, x, y, z, w).Ok? ==> SaveIndex(rt, x, y, z, w).v == z
  {}

  lemma RunSaveIndex(rt: Runtime, code: Code, hs: seq<int>, p: nat, stack: seq<Entry>, z: Value, x: Value, y: Value,
                     w: World)
    requires At(code.ops, p, SAVE_INDEX)
    ensures Yields(rt, code, hs, F(hs, p - 1, stack + [Val(z)] + [Val(x)] + [Val(y)], w), p, stack,
                   SaveIndex(rt, x, y, z, w))
  {
    var f := F(hs, p - 1, stack + [Val(z)] + [Val(x)] + [Val(y)], w);
    SavedValue(rt, x, y, z, w);
    hide SaveIndex;
    assert Drop(f, 2) == stack + [Val(z)] && Holds(f, 3);
    ReachStep(rt, code, f);
    var r := SaveIndex(rt, x, y, z, w);
    if r.Raised? {
      hide Reach;
      RaisedFails(rt, code, hs, f, Step(rt, code, f).f, stack, r.err);
    }
  }

  lemma RunDuplicate(rt: Runtime, code: Code, hs: seq<int>, p: nat, stack: seq<Entry>, x: Value, y: Value, w: World)
    requires At(code.ops, p, DDUPLICATE)
    ensures Reach(rt, code, F(hs, p - 1, stack + [Val(x)] + [Val(y)], w),
                  Running(F(hs, p, stack + [Val(x)] + [Val(y)] + [Val(x)] + [Val(y)], w)))
  {
    var f := F(hs, p - 1, stack + [Val(x)] + [Val(y)], w);
    assert Holds(f, 2) && Top(f, 0) == y && Top(f, 1) == x;
    assert f.stack + [Val(x), Val(y)] == f.stack + [Val(x)] + [Val(y)];
    ReachStep(rt, code, f);
  }

  lemma RunSink(rt: Runtime, code: Code, hs: seq<int>, p: nat, stack: seq<Entry>, x: Value, y: Value, z: Value,
                w: World)
    requires At(code.ops, p, SINK_FIRST)
    ensures Reach(rt, code, F(hs, p - 1, stack + [Val(x)] + [Val(y)] + [Val(z)], w),
                  Running(F(hs, p, stack + [Val(z)] + [Val(x)] + [Val(y)], w)))
  {
    var f := F(hs, p - 1, stack + [Val(x)] + [Val(y)] + [Val(z)], w);
    assert Holds(f, 3) && Top(f, 0) == z && Top(f, 1) == y && Top(f, 2) == x && Drop(f, 3) == stack;
    assert stack + [Val(z), Val(x), Val(y)] == stack + [Val(z)] + [Val(x)] + [Val(y)];
    ReachStep(rt, code, f);
  }

  lemma RunPrint(rt: Runtime, code: Code, hs: seq<int>, p: nat, stack: seq<Entry>, v: Value, w: World)
    requires At(code.ops, p, PRINT)
    ensures match PrintValue(rt, v, w)
            case Ok(_, w') => Reach(rt, code, F(hs, p - 1, stack + [Val(v)], w), Running(F(hs, p, stack, w')))
            case Raised(err, w') => FailsAt(rt, code, hs, F(hs, p - 1, stack + [Val(v)], w), stack, err, w')
            case Crashed(w') => Reach(rt, code, F(hs, p - 1, stack + [Val(v)], w), Finished(Crash(w')))
  {
    var f := F(hs, p - 1, stack + [Val(v)], w);
    assert Holds(f, 1) && Top(f, 0) == v && Drop(f, 1) == stack;
    hide PrintValue;
    ReachStep(rt, code, f);
    var r := PrintValue(rt, v, w);
    if r.Raised? {
      hide Reach;
      assert Step(rt, code, f) == Running(Noted(hs, p, stack, r.err, r.w));
    }
  }

  lemma RunReturn(rt: Runtime, code: Code, hs: seq<int>, p: nat, stack: seq<Entry>, v: Value, w: World)
    requires At(code.ops, p, RETURN)
    ensures Reach(rt, code, F(hs, p - 1, stack + [Val(v)], w), Finished(Answer(v, w)))
  {
    var f := F(hs, p - 1, stack + [Val(v)], w);
    assert Holds(f, 1) && Top(f, 0) == v;
    ReachStep(rt, code, f);
    var g := Step(rt, code, f).f;
    ReachStep(rt, code, g);
    hide Reach;
    ReachTrans(rt, code, f, g, Finished(Answer(v, w)));
  }

  lemma RunRaise(rt: Runtime, code: Code, hs: seq<int>, p: nat, stack: seq<Entry>, v: Value, w: World)
    requires At(code.ops, p, RAISE)
    ensures FailsAt(rt, code, hs, F(hs, p - 1, stack + [Val(v)], w), stack, Custom(v), w)
  {
    var f := F(hs, p - 1, stack + [Val(v)], w);
    assert Holds(f, 1) && Top(f, 0) == v;
    ReachStep(rt, code, f);
    hide Reach;
    assert Step(rt, code, f) == Running(Noted(hs, p, stack, Custom(v), w));
  }

  /** MAKE_ITER replaces the array by an iterator at its start. */
  lemma RunMakeIter(rt: Runtime, code: Code, hs: seq<int>, p: nat, stack: seq<Entry>, v: Value, w: World)
    requires At(code.ops, p, MAKE_ITER)
    ensures match IterableOf(rt, v, w)
            case Ok(a, w') => Reach(rt, code, F(hs, p - 1, stack + [Val(v)], w),
                                    Running(F(hs, p, stack + [Iter(a.addr, 0)], w')))
            case Raised(err, w') => Fails(rt, code, hs, F(hs, p - 1, stack + [Val(v)], w), stack, err, w')
            case Crashed(w') => Reach(rt, code, F(hs, p - 1, stack + [Val(v)], w), Finished(Crash(w')))
  {
    var f := F(hs, p - 1, stack + [Val(v)], w);
    assert Holds(f, 1) && Top(f, 0) == v && Drop(f, 1) == stack;
    hide IterableOf;
    ReachStep(rt, code, f);
    var r := IterableOf(rt, v, w);
    if r.Raised? {
      hide Reach;
      RaisedFails(rt, code, hs, f, Step(rt, code, f).f, stack, r.err);
    }
  }

  lemma RunNextIter(rt: Runtime, code: Code, hs: seq<int>, p: nat, target: int, stack: seq<Entry>, a: nat, i: nat,
                    w: World)
    requires Wide(code.ops, p, NEXT_ITER_OR_JUMP, target) && target > p + 4
    ensures var f := F(hs, p - 1, stack + [Iter(a, i)], w);
            Step(rt, code, f) ==
              if a >= |w.arrays| then Finished(Crash(w))
              else if i < |w.arrays[a]| then
                Running(F(hs, p + 4, stack + [Iter(a, i + 1)] + [Val(w.arrays[a][i])], w))
              else Running(F(hs, target, stack + [Iter(a, i)], w))
  {
    var f := F(hs, p - 1, stack + [Iter(a, i)], w);
    assert f.stack[|f.stack| - 1 := Iter(a, i + 1)] == stack + [Iter(a, i + 1)];
  }

  lemma RunIterIndex(rt: Runtime, code: Code, hs: seq<int>, p: nat, stack: seq<Entry>, a: nat, i: nat, w: World)
    requires At(code.ops, p, ITER_INDEX)
    ensures Reach(rt, code, F(hs, p - 1, stack + [Iter(a, i + 1)], w),
                  Running(F(hs, p, stack + [Iter(a, i + 1)] + [Val(Int(i))], w)))
  {
    ReachStep(rt, code, F(hs, p - 1, stack + [Iter(a, i + 1)], w));
  }
}

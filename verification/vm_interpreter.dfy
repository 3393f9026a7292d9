/** The machine as the program runs it (src/interpreter/lky_machine.c:104-140, 326-985): the
    operand stack is an array of fixed size, the dispatch loop updates it in place. */
module LankyInterpreter {
  import opened Sequences
  import ArrayLists
  import opened LankySyntax
  import opened LankySemantics
  import opened LankyMachine

  type Slot = ArrayLists.Pointer<Entry>

  lemma PushedValues(slots: seq<Slot>, was: seq<Slot>, e: Entry)
    requires forall s <- was :: s.To?
    requires slots == was + [ArrayLists.To(e)]
    ensures (forall k :: 0 <= k < |slots| ==> slots[k].To?) && ArrayLists.Values(slots) == ArrayLists.Values(was) + [e]
  {}

  /** The stack and the arrays have room for what comes out of a turn. */
  predicate Room(s: Status, operands: nat, catches: nat) {
    s.Running? ==> |s.f.stack| <= operands && |s.f.catches| <= catches
  }

  /** Where a push went: into its slot, or one place beyond the array; or the program has
      printed a message and exited instead. */
  datatype Pushed = Done | Beyond | Exited

  class StackFrame {
    const rt: Runtime
    const code: Code
    const dataStack: array<Slot>
    const catchStack: array<int>
    var pc: int
    var stackPointer: int
    var catchPointer: nat
    var w: World
    var ret: Option<Value>
    var thrown: Option<Error>
    var outcome: Option<Final>

    /** Operands up to the pointer, and nothing above: a scan up to the first NULL sees the
        operands and no more. */
    ghost predicate Valid()
      reads this, dataStack
    {
      -1 <= stackPointer < dataStack.Length && catchPointer <= catchStack.Length
      && (forall k :: 0 <= k <= stackPointer ==> dataStack[k].To?)
      && (forall k :: stackPointer < k < dataStack.Length ==> dataStack[k].Null?)
    }

    ghost function Stack(): (r: seq<Entry>)
      reads this, dataStack
      requires Valid()
      ensures |r| == stackPointer + 1
    {
      ArrayLists.Values(dataStack[..stackPointer + 1])
    }

    ghost function Live(): Frame
      reads this, dataStack, catchStack
      requires Valid()
    {
      Frame(pc, Stack(), w, ret, thrown, catchStack[..catchPointer])
    }

    ghost function Abs(): Status
      reads this, dataStack, catchStack
      requires Valid()
    {
      if outcome.Some? then Finished(outcome.value) else Running(Live())
    }

    constructor (rt: Runtime, code: Code, stackSize: nat, catchSize: nat, w: World)
      ensures Valid() && Abs() == Running(Start(w)) && this.rt == rt && this.code == code
      ensures dataStack.Length == stackSize && catchStack.Length == catchSize && fresh(dataStack) && fresh(catchStack)
    {
      this.rt, this.code, this.w := rt, code, w;
      dataStack := new Slot[stackSize](_ => ArrayLists.Null);
      catchStack := new int[catchSize](_ => 0);
      pc, stackPointer, catchPointer := -1, -1, 0;
      ret, thrown, outcome := None, None, None;
    }

    // ----- the operand stack -----

    /** push_node. Its test lets one more through than there is room for: the program exits
        exactly if the pointer is at the length or above, and exactly if it is one below, the
        operand is written one place beyond the array. */
    method PushNode(e: Entry) returns (r: Pushed)
      requires stackPointer >= -1
      modifies this`stackPointer, dataStack
      ensures r.Exited? <==> old(stackPointer) >= dataStack.Length
      ensures r.Beyond? <==> old(stackPointer) + 1 == dataStack.Length
      ensures stackPointer == old(stackPointer) + if r.Exited? then 0 else 1
      ensures dataStack[..]
              == if r.Done? then old(dataStack[..])[old(stackPointer) + 1 := ArrayLists.To(e)] else old(dataStack[..])
      ensures old(Valid()) && r.Done? ==> Valid() && Stack() == old(Stack()) + [e]
    {
      if stackPointer >= dataStack.Length {
        return Exited;
      }
      ghost var was := if Valid() then dataStack[..stackPointer + 1] else [];
      stackPointer := stackPointer + 1;
      if stackPointer == dataStack.Length {
        return Beyond;
      }
      dataStack[stackPointer] := ArrayLists.To(e);
      r := Done;
      if old(Valid()) {
        PushedValues(dataStack[..stackPointer + 1], was, e);
      }
    }

    /** Where there is room. */
    method Push(e: Entry)
      requires Valid() && stackPointer + 1 < dataStack.Length
      modifies this`stackPointer, dataStack
      ensures Valid() && Stack() == old(Stack()) + [e]
    {
      var _ := PushNode(e);
    }

    /** top_node. */
    method TopNode() returns (e: Entry)
      requires Valid() && stackPointer >= 0
      ensures e == Stack()[|Stack()| - 1]
    {
      e := dataStack[stackPointer].value;
    }

    /** pop_node. */
    method PopNode() returns (e: Entry)
      requires Valid() && stackPointer >= 0
      modifies this`stackPointer, dataStack
      ensures Valid() && old(Stack()) == Stack() + [e]
    {
      e := dataStack[stackPointer].value;
      dataStack[stackPointer] := ArrayLists.Null;
      stackPointer := stackPointer - 1;
      PushedValues(old(dataStack[..stackPointer + 1]), dataStack[..stackPointer + 1], e);
    }

    method PopValue() returns (v: Value)
      requires Valid() && stackPointer >= 0 && Stack()[stackPointer].Val?
      modifies this`stackPointer, dataStack
      ensures Valid() && old(Stack()) == Stack() + [Val(v)]
    {
      var e := PopNode();
      v := e.v;
    }

    method PopTwo() returns (a: Value, b: Value)
      requires Valid() && Holds(Live(), 2)
      modifies this`stackPointer, dataStack
      ensures Valid() && old(Stack()) == Stack() + [Val(b), Val(a)]
    {
      ghost var was := Stack();
      assert was[|was| - 1].Val? && was[|was| - 2].Val?;
      a := PopValue();
      assert Stack()[|was| - 2] == was[|was| - 2];
      b := PopValue();
      assert was == Stack() + [Val(b), Val(a)];
    }

    /** Whether the n topmost operands are values; the program takes it for granted. */
    method AreValues(n: nat) returns (b: bool)
      requires Valid()
      ensures b <==> Holds(Live(), n)
    {
      if stackPointer + 1 < n {
        return false;
      }
      var i := 0;
      while i < n
        invariant 0 <= i <= n
        invariant forall k :: stackPointer - i < k <= stackPointer ==> dataStack[k].value.Val?
      {
        if !dataStack[stackPointer - i].value.Val? {
          assert Live().stack[stackPointer - i].Iter?;
          return false;
        }
        i := i + 1;
      }
      forall k | |Live().stack| - n <= k < |Live().stack|
        ensures Live().stack[k].Val?
      {
        assert dataStack[k].value.Val?;
      }
      b := true;
    }

    /** Following an operand that is not there, or is not what it is taken for. */
    method Break()
      requires Valid()
      modifies this`outcome
      ensures Valid() && Abs() == Stuck(old(Live()))
    {
      outcome := Some(Crash(w));
    }

    /** f is the frame before its n topmost operands were popped. */
    ghost predicate Popped(f: Frame, n: nat)
      reads this, dataStack, catchStack
      requires Valid()
    {
      n <= |f.stack| && Live() == f.(stack := Drop(f, n))
    }

    /** Pushing the result of an operation of the runtime library, whatever became of it. */
    method Settle(r: Eval, ghost f: Frame, ghost n: nat)
      requires Valid() && outcome.None? && (!r.Crashed? ==> stackPointer + 1 < dataStack.Length) && Popped(f, n)
      modifies this`w, this`thrown, this`outcome, this`stackPointer, dataStack
      ensures Valid() && Abs() == Deliver(f, pc, n, r)
    {
      match r {
        case Ok(v, w') =>
          w := w';
          Push(Val(v));
        case Raised(err, w') =>
          w, thrown := w', Some(err);
          Push(Val(Nil));
        case Crashed(w') =>
          outcome := Some(Crash(w'));
      }
    }

    // ----- instructions -----

    /** An instruction is about to be executed; pc is at its opcode. */
    ghost predicate Ready()
      reads this, dataStack
    {
      Valid() && outcome.None? && ret.None? && thrown.None? && 0 <= pc < |code.ops|
    }

    method Binary()
      requires Ready() && BINARY_FIRST <= code.ops[pc] < BINARY_FIRST + |BINARY_OPS|
      modifies this`w, this`thrown, this`outcome, this`stackPointer, dataStack
      ensures Valid() && Abs() == Execute(rt, code, old(Live()), pc)
    {
      hide Deliver, Execute, Holds;
      ghost var f := Live();
      BinaryIs(rt, code, f, pc);
      var ok := AreValues(2);
      if !ok {
        Break();
        return;
      }
      var a, b := PopTwo();
      Tops(f, Stack(), [Val(b), Val(a)]);
      Settle(rt.binary(BINARY_OPS[code.ops[pc] - BINARY_FIRST], b, a, w), f, 2);
    }

    /** The frame has got to where the machine is, if there was room for what comes out. An
        operand too many went to the place behind the last one. */
    ghost predicate Comes(r: Pushed, s: Status)
      reads this, dataStack, catchStack
    {
      (r.Done? <==> Room(s, dataStack.Length, catchStack.Length)) && (r.Done? ==> Valid() && Abs() == s) && !r.Exited?
      && (r.Beyond? && |s.f.stack| > dataStack.Length ==> stackPointer == dataStack.Length)
    }

    /** IGNORE, POP, PUSH_NIL, PUSH_BOOL, ITER_INDEX. */
    method Simple() returns (r: Pushed)
      requires Ready() && code.ops[pc] in {IGNORE, POP, PUSH_NIL, PUSH_BOOL, ITER_INDEX}
      modifies this`pc, this`outcome, this`stackPointer, dataStack
      ensures Comes(r, Execute(rt, code, old(Live()), old(pc)))
    {
      hide ExecuteOnTop, ExecuteIndexing, ExecuteCall, ExecuteWide;
      var op := code.ops[pc];
      r := Done;
      if op == POP {
        if stackPointer < 0 {
          Break();
          return;
        }
        var _ := PopNode();
      } else if op == PUSH_NIL {
        r := PushNode(Val(Nil));
      } else if op == PUSH_BOOL {
        if pc + 1 >= |code.ops| {
          Break();
          return;
        }
        pc := pc + 1;
        r := PushNode(Val(BoolValue(code.ops[pc] != 0)));
      } else if op == ITER_INDEX {
        if stackPointer < 0 {
          Break();
          return;
        }
        var it := TopNode();
        if it.Val? {
          Break();
          return;
        }
        r := PushNode(Val(Int(it.index - 1)));
      }
    }

    /** The instructions that take one value. */
    method OnTop()
      requires Ready() && code.ops[pc] in {UNARY_NOT, UNARY_NEGATIVE, PRINT, RETURN, RAISE, MAKE_ITER}
      modifies this`w, this`ret, this`thrown, this`outcome, this`stackPointer, dataStack
      ensures Valid() && Abs() == Execute(rt, code, old(Live()), pc)
    {
      hide Deliver, Execute, ExecuteOnTop, Holds, PrintValue, IterableOf;
      ghost var f := Live();
      OnTopIs(rt, code, f, pc);
      var ok := AreValues(1);
      if !ok {
        Break();
        return;
      }
      var a := PopOne();
      Tops(f, Stack(), [Val(a)]);
      Consume(a, f);
    }

    method PopOne() returns (a: Value)
      requires Valid() && Holds(Live(), 1)
      modifies this`stackPointer, dataStack
      ensures Valid() && old(Stack()) == Stack() + [Val(a)]
    {
      assert Live().stack[|Live().stack| - 1].Val?;
      a := PopValue();
    }

    /** What becomes of the value that was popped. */
    method Consume(a: Value, ghost f: Frame)
      requires Ready() && code.ops[pc] in {UNARY_NOT, UNARY_NEGATIVE, PRINT, RETURN, RAISE, MAKE_ITER}
      requires stackPointer + 1 < dataStack.Length && Popped(f, 1) && Holds(f, 1) && Top(f, 0) == a
      modifies this`w, this`ret, this`thrown, this`outcome, this`stackPointer, dataStack
      ensures Valid() && Abs() == ExecuteOnTop(rt, f, pc, code.ops[pc])
    {
      hide Deliver, PrintValue, IterableOf, Holds;
      var op := code.ops[pc];
      if op == UNARY_NOT {
        Settle(rt.unary(Not, a, w), f, 1);
      } else if op == UNARY_NEGATIVE {
        Settle(rt.unary(Negative, a, w), f, 1);
      } else if op == PRINT {
        match PrintValue(rt, a, w) {
          case Ok(_, w') => w := w';
          case Raised(err, w') => w, thrown := w', Some(err);
          case Crashed(w') => outcome := Some(Crash(w'));
        }
      } else if op == RETURN {
        ret := Some(a);
      } else if op == RAISE {
        thrown := Some(Custom(a));
      } else {
        match IterableOf(rt, a, w) {
          case Ok(it, w') =>
            w := w';
            Push(Iter(it.addr, 0));
          case Raised(err, w') =>
            w, thrown := w', Some(err);
            Push(Val(Nil));
          case Crashed(w') => outcome := Some(Crash(w'));
        }
      }
    }

    method LoadIndexed()
      requires Ready() && code.ops[pc] == LOAD_INDEX
      modifies this`w, this`thrown, this`outcome, this`stackPointer, dataStack
      ensures Valid() && Abs() == ExecuteIndexing(rt, old(Live()), pc, LOAD_INDEX)
    {
      hide Deliver, Holds, LoadIndex;
      ghost var f := Live();
      var ok := AreValues(2);
      if !ok {
        Break();
        return;
      }
      var a, b := PopTwo();
      Tops(f, Stack(), [Val(b), Val(a)]);
      Settle(LoadIndex(rt, b, a, w), f, 2);
    }

    /** The two topmost values, and a look at the one below. */
    method PopTwoOfThree() returns (a: Value, b: Value, c: Value)
      requires Valid() && Holds(Live(), 3)
      modifies this`stackPointer, dataStack
      ensures Valid() && stackPointer >= 0 && Stack()[stackPointer] == Val(c)
              && old(Stack()) == Stack() + [Val(b), Val(a)]
    {
      ghost var was := Stack();
      assert was[|was| - 1].Val? && was[|was| - 2].Val? && was[|was| - 3].Val?;
      FewerHold(Live(), 3, 2);
      a, b := PopTwo();
      assert Stack()[|was| - 3] == was[|was| - 3];
      var e := TopNode();
      c := e.v;
    }

    method SaveIndexed()
      requires Ready() && code.ops[pc] == SAVE_INDEX
      modifies this`w, this`thrown, this`outcome, this`stackPointer, dataStack
      ensures Valid() && Abs() == ExecuteIndexing(rt, old(Live()), pc, SAVE_INDEX)
    {
      hide ExecuteIndexing, SaveIndex, Holds;
      ghost var f := Live();
      var ok := AreValues(3);
      SaveIs(rt, f, pc);
      if !ok {
        Break();
        return;
      }
      var idx, targ, nobj := PopTwoOfThree();
      ghost var rest := Stack()[..stackPointer];
      assert f.stack == rest + [Val(nobj), Val(targ), Val(idx)];
      SaveWith(rt, f, pc, rest, nobj, targ, idx);
      match SaveIndex(rt, targ, idx, nobj, w) {
        case Ok(_, w') => w := w';
        case Raised(err, w') => w, thrown := w', Some(err);
        case Crashed(w') => outcome := Some(Crash(w'));
      }
    }

    method Duplicate() returns (r: Pushed)
      requires Ready() && code.ops[pc] == DDUPLICATE
      modifies this`outcome, this`stackPointer, dataStack
      ensures Comes(r, ExecuteIndexing(rt, old(Live()), pc, DDUPLICATE))
    {
      hide Holds;
      r := Done;
      ghost var f := Live();
      var ok := AreValues(2);
      if !ok {
        Break();
        return;
      }
      HeldBelow(f, 2);
      var topa := TopNode();
      var topb := dataStack[stackPointer - 1].value;
      assert topb == Stack()[stackPointer - 1];
      r := PushNode(topb);
      if r.Done? {
        r := PushNode(topa);
        assert r.Done? ==> Stack() == f.stack + [topb, topa];
      }
    }

    method SinkFirst()
      requires Ready() && code.ops[pc] == SINK_FIRST
      modifies this`outcome, this`stackPointer, dataStack
      ensures Valid() && Abs() == ExecuteIndexing(rt, old(Live()), pc, SINK_FIRST)
    {
      hide ExecuteIndexing, Holds;
      ghost var f := Live();
      var ok := AreValues(3);
      SinkIs(rt, f, pc);
      if !ok {
        Break();
        return;
      }
      var topa, topb, _ := PopTwoOfThree();
      var topc := PopValue();
      ghost var rest := Stack();
      assert f.stack == rest + [Val(topc), Val(topb), Val(topa)];
      SinkWith(rt, f, pc, rest, topc, topb, topa);
      Push(Val(topa));
      Push(Val(topc));
      Push(Val(topb));
      assert Stack() == rest + [Val(topa), Val(topc), Val(topb)];
    }

    /** Popping n arguments, the last one first. */
    method PopArguments(n: nat) returns (args: seq<Value>)
      requires Valid() && Holds(Live(), n)
      modifies this`stackPointer, dataStack
      ensures Valid() && old(|Stack()|) >= n && Stack() == old(Drop(Live(), n))
      ensures var es := old(Stack()[|Stack()| - n..]); (forall e <- es :: e.Val?) && args == Values(es)
    {
      ghost var was := Stack();
      args := [];
      var i := 0;
      while i < n
        invariant 0 <= i <= n <= |was| && Valid() && Stack() == was[..|was| - i]
        invariant |args| == i && forall k :: 0 <= k < i ==> was[|was| - i + k] == Val(args[k])
      {
        assert was[|was| - 1 - i].Val?;
        var arg := PopValue();
        args := [arg] + args;
        i := i + 1;
      }
    }

    /** The callee and its n arguments. */
    method PopCall(n: nat) returns (callee: Value, args: seq<Value>)
      requires Valid() && Holds(Live(), n + 1)
      modifies this`stackPointer, dataStack
      ensures Valid() && Called(old(Live()), n, callee, args) && Stack() == Drop(old(Live()), n + 1)
    {
      hide Values;
      ghost var f := Live();
      HeldBelow(f, n + 1);
      callee := PopValue();
      ghost var g := Live();
      assert f.stack == g.stack + [Val(callee)];
      assert forall k :: 0 <= k < |g.stack| ==> g.stack[k] == f.stack[k];
      args := PopArguments(n);
      assert g.stack[|g.stack| - n..] == f.stack[|f.stack| - 1 - n..|f.stack| - 1];
    }

    method Call()
      requires Ready() && code.ops[pc] == CALL_FUNC && pc + 1 < |code.ops|
      modifies this`pc, this`w, this`thrown, this`outcome, this`stackPointer, dataStack
      ensures Valid() && Abs() == ExecuteCall(rt, old(Live()), old(pc), SignedCount(code.ops[old(pc) + 1]))
    {
      hide ExecuteCall, Holds, Values, Called, Deliver;
      ghost var f, p := Live(), pc;
      var ct := SignedCount(code.ops[pc + 1]);
      var ok := AreValues(ct + 1);
      CallIs(rt, f, p, ct);
      if !ok {
        Break();
        return;
      }
      var obj, args := PopCall(ct);
      pc := pc + 1;
      CallWith(rt, f, p, ct, obj, args);
      var r := rt.call(obj, args, w);
      if r.Raised? && rt.quits(obj, args, w) {
        w, thrown := r.w, Some(r.err);
      } else {
        ghost var g := f.(pc := pc);
        assert Popped(g, ct + 1);
        Settle(r, g, ct + 1);
        DeliverBehind(f, pc, ct + 1, r);
      }
    }

    // ----- instructions with a four-byte operand -----

    ghost predicate WideReady()
      reads this, dataStack
    {
      Ready() && pc + 4 < |code.ops|
    }

    method Load() returns (r: Pushed)
      requires WideReady() && code.ops[pc] in {LOAD_CONST, LOAD_CLOSE, SAVE_CLOSE}
      modifies this`pc, this`w, this`thrown, this`outcome, this`stackPointer, dataStack
      ensures Comes(r, ExecuteWide(rt, code, old(Live()), old(pc), code.ops[old(pc)], Operand(code.ops, old(pc) + 1)))
    {
      hide Operand, LoadVar, SaveVar, ConstantValue, Holds;
      ghost var f := Live();
      r := Done;
      var op := code.ops[pc];
      var idx := Operand(code.ops, pc + 1);
      var ok := AreValues(1);
      pc := pc + 4;
      if idx < 0 || idx >= (if op == LOAD_CONST then |code.constants| else |code.names|) {
        Break();
        return;
      }
      if op == LOAD_CONST {
        r := PushNode(Val(ConstantValue(code.constants[idx])));
      } else if op == LOAD_CLOSE {
        match LoadVar(code.names[idx], w) {
          case Ok(v, _) => r := PushNode(Val(v));
          case Raised(err, _) => thrown := Some(err);
          case Crashed(_) => Break();
        }
      } else if ok {
        HeldBelow(f, 1);
        var v := TopNode();
        w := SaveVar(code.names[idx], v.v, w);
      } else {
        Break();
      }
    }

    /** The new value of pc for an operand that may point backwards. */
    method JumpBy(idx: int)
      requires Valid()
      modifies this`pc
      ensures Valid() && pc == JumpFrom(old(pc), idx)
    {
      if idx == 0 {
        pc := -1;
      } else {
        pc := if idx < pc then idx - 1 else idx;
      }
    }

    method Jump()
      requires WideReady() && code.ops[pc] == JUMP
      modifies this`pc
      ensures Valid()
      ensures Abs() == ExecuteWide(rt, code, old(Live()), old(pc), JUMP, Operand(code.ops, old(pc) + 1))
    {
      hide Operand, JumpFrom;
      var idx := Operand(code.ops, pc + 1);
      pc := pc + 4;
      JumpBy(idx);
    }

    method JumpFalse()
      requires WideReady() && code.ops[pc] == JUMP_FALSE
      modifies this`pc, this`outcome, this`stackPointer, dataStack
      ensures Valid()
      ensures Abs() == ExecuteWide(rt, code, old(Live()), old(pc), JUMP_FALSE, Operand(code.ops, old(pc) + 1))
    {
      hide Operand, Holds;
      ghost var f := Live();
      var idx := Operand(code.ops, pc + 1);
      var ok := AreValues(1);
      if !ok {
        Break();
        return;
      }
      var obj := PopOne();
      Tops(f, Stack(), [Val(obj)]);
      pc := pc + 4;
      if !rt.truthy(obj) {
        pc := idx;
      }
    }

    method JumpElsePop()
      requires WideReady() && code.ops[pc] in {JUMP_FALSE_ELSE_POP, JUMP_TRUE_ELSE_POP}
      modifies this`pc, this`outcome, this`stackPointer, dataStack
      ensures Valid()
      ensures Abs() == ExecuteWide(rt, code, old(Live()), old(pc), code.ops[old(pc)], Operand(code.ops, old(pc) + 1))
    {
      hide Operand, Holds;
      ghost var f := Live();
      var op := code.ops[pc];
      var idx := Operand(code.ops, pc + 1);
      var ok := AreValues(1);
      if !ok {
        Break();
        return;
      }
      pc := pc + 4;
      HeldBelow(f, 1);
      var obj := TopNode();
      if Decides(rt, if op == JUMP_TRUE_ELSE_POP then OrElse else AndAlso, obj.v) {
        pc := idx;
      } else {
        var _ := PopNode();
      }
    }

    /** The iterator on top is the object itself: its index moves on. */
    method NextIter() returns (r: Pushed)
      requires WideReady() && code.ops[pc] == NEXT_ITER_OR_JUMP
      modifies this`pc, this`outcome, this`stackPointer, dataStack
      ensures Comes(r, ExecuteWide(rt, code, old(Live()), old(pc), NEXT_ITER_OR_JUMP, Operand(code.ops, old(pc) + 1)))
    {
      hide Operand, JumpFrom;
      ghost var f := Live();
      r := Done;
      var idx := Operand(code.ops, pc + 1);
      if stackPointer < 0 {
        Break();
        return;
      }
      var it := TopNode();
      if (it.Val? && it.v.Int?) || (it.Iter? && it.addr >= |w.arrays|) {
        Break();
        return;
      }
      pc := pc + 4;
      if it.Iter? && it.index < |w.arrays[it.addr]| {
        var _ := PopNode();
        ghost var rest := Stack();
        Push(Iter(it.addr, it.index + 1));
        r := PushNode(Val(w.arrays[it.addr][it.index]));
        assert f.stack[|f.stack| - 1 := Iter(it.addr, it.index + 1)] == rest + [Iter(it.addr, it.index + 1)];
      } else {
        JumpBy(idx);
      }
    }

    /** The loop of MAKE_ARRAY: from below, clearing the slots; then the pointer moves once. */
    method TakeItems(n: nat) returns (items: seq<Value>)
      requires Valid() && Holds(Live(), n)
      modifies this`stackPointer, dataStack
      ensures Valid() && old(|Stack()|) >= n && Stack() == old(Drop(Live(), n))
      ensures var es := old(Stack()[|Stack()| - n..]); (forall e <- es :: e.Val?) && items == Values(es)
    {
      hide Values;
      ghost var was, base := Stack(), stackPointer + 1 - n;
      HeldBelow(Live(), n);
      assert forall k :: 0 <= k <= stackPointer ==> dataStack[k] == ArrayLists.To(was[k]);
      items := [];
      assert was[base..base] == [] && Values(was[base..base]) == [] by { NoItems(); }
      var i := n - 1;
      while i >= 0
        invariant -1 <= i < n && stackPointer == old(stackPointer) && |items| == n - 1 - i
        invariant items == Values(was[base..base + |items|])
        invariant forall k :: 0 <= k < base || base + |items| <= k <= stackPointer ==>
                    dataStack[k] == ArrayLists.To(was[k])
        invariant forall k :: base <= k < base + |items| || stackPointer < k < dataStack.Length ==> dataStack[k].Null?
      {
        var obj := dataStack[stackPointer - i].value;
        OneItem(was, base, items, obj);
        dataStack[stackPointer - i] := ArrayLists.Null;
        items := items + [obj.v];
        i := i - 1;
      }
      stackPointer := stackPointer - n;
      assert was[base..base + n] == was[base..];
      assert Stack() == was[..base];
    }

    method MakeArrayOf() returns (r: Pushed)
      requires WideReady() && code.ops[pc] == MAKE_ARRAY
      modifies this`pc, this`w, this`outcome, this`stackPointer, dataStack
      ensures Comes(r, ExecuteWide(rt, code, old(Live()), old(pc), MAKE_ARRAY, Operand(code.ops, old(pc) + 1)))
    {
      hide Operand, Holds, Values, MakeArray;
      ghost var f := Live();
      r := Done;
      var ct := Operand(code.ops, pc + 1);
      if ct < 0 {
        Break();
        return;
      }
      var ok := AreValues(ct);
      if !ok {
        Break();
        return;
      }
      var items := TakeItems(ct);
      pc := pc + 4;
      var (a, w') := MakeArray(items, w);
      w := w';
      r := PushNode(Val(a));
    }

    method PushCatch() returns (r: Pushed)
      requires WideReady() && code.ops[pc] == PUSH_CATCH
      modifies this`pc, this`catchPointer, catchStack
      ensures Comes(r, ExecuteWide(rt, code, old(Live()), old(pc), PUSH_CATCH, Operand(code.ops, old(pc) + 1)))
    {
      hide Operand;
      ghost var was := catchStack[..catchPointer];
      var idx := Operand(code.ops, pc + 1);
      pc := pc + 4;
      r := if catchPointer == catchStack.Length then Beyond else Done;
      if r.Beyond? {
        catchPointer := catchPointer + 1;
        return;
      }
      catchStack[catchPointer] := idx;
      catchPointer := catchPointer + 1;
      assert catchStack[..catchPointer] == was + [idx];
    }

    /** The program clears the slot above the one it gives up. */
    method PopCatch()
      requires Ready() && code.ops[pc] == POP_CATCH
      modifies this`outcome, this`catchPointer, catchStack
      ensures Valid() && Abs() == Execute(rt, code, old(Live()), pc)
    {
      if catchPointer == 0 {
        Break();
        return;
      }
      if catchPointer < catchStack.Length {
        catchStack[catchPointer] := 0;
      }
      catchPointer := catchPointer - 1;
      assert catchStack[..catchPointer] == old(catchStack[..catchPointer])[..catchPointer];
    }

    // ----- the dispatch loop -----

    method DispatchWide() returns (r: Pushed)
      requires WideReady()
      modifies this`pc, this`w, this`thrown, this`outcome, this`stackPointer, this`catchPointer, dataStack, catchStack
      ensures Comes(r, ExecuteWide(rt, code, old(Live()), old(pc), code.ops[old(pc)], Operand(code.ops, old(pc) + 1)))
    {
      hide Operand;
      r := Done;
      var op := code.ops[pc];
      if op in {LOAD_CONST, LOAD_CLOSE, SAVE_CLOSE} {
        r := Load();
      } else if op == JUMP {
        Jump();
      } else if op == JUMP_FALSE {
        JumpFalse();
      } else if op in {JUMP_FALSE_ELSE_POP, JUMP_TRUE_ELSE_POP} {
        JumpElsePop();
      } else if op == NEXT_ITER_OR_JUMP {
        r := NextIter();
      } else if op == MAKE_ARRAY {
        r := MakeArrayOf();
      } else if op == PUSH_CATCH {
        r := PushCatch();
      } else {
        WideElse(rt, code, Live(), pc);
        Break();
      }
    }

    method Dispatch() returns (r: Pushed)
      requires Ready()
      modifies this`pc, this`w, this`ret, this`thrown, this`outcome, this`stackPointer, this`catchPointer, dataStack,
               catchStack
      ensures Comes(r, Execute(rt, code, old(Live()), old(pc)))
    {
      hide Execute, ExecuteIndexing, ExecuteCall, ExecuteWide, SignedCount, Operand;
      var op := code.ops[pc];
      r := Done;
      ExecuteIs(rt, code, Live(), pc);
      if BINARY_FIRST <= op < BINARY_FIRST + |BINARY_OPS| {
        Binary();
      } else if op in {IGNORE, POP, PUSH_NIL, PUSH_BOOL, ITER_INDEX} {
        r := Simple();
      } else if op in {UNARY_NOT, UNARY_NEGATIVE, PRINT, RETURN, RAISE, MAKE_ITER} {
        OnTop();
      } else if op == LOAD_INDEX {
        LoadIndexed();
      } else if op == SAVE_INDEX {
        SaveIndexed();
      } else if op == DDUPLICATE {
        r := Duplicate();
      } else if op == SINK_FIRST {
        SinkFirst();
      } else if op == POP_CATCH {
        PopCatch();
      } else if op == CALL_FUNC && pc + 1 < |code.ops| {
        Call();
      } else if pc + 4 < |code.ops| {
        r := DispatchWide();
      } else {
        Break();
      }
    }

    /** From one arrival at the top of the loop to the next. */
    method Turn() returns (r: Pushed)
      requires Valid() && outcome.None?
      modifies this`pc, this`w, this`ret, this`thrown, this`outcome, this`stackPointer, this`catchPointer, dataStack,
               catchStack
      ensures Comes(r, Step(rt, code, old(Live())))
    {
      hide Execute;
      r := Done;
      if ret.Some? {
        outcome := Some(Answer(ret.value, w));
      } else if thrown.Some? {
        if catchPointer == 0 {
          outcome := Some(Fatal(thrown.value, w));
          return;
        }
        var exc := thrown.value;
        thrown := None;
        r := PushNode(Val(Exception(exc)));
        if !r.Done? {
          return;
        }
        catchPointer := catchPointer - 1;
        pc := catchStack[catchPointer];
      } else if 0 <= pc + 1 < |code.ops| {
        PcBehind(rt, code, Live(), pc + 1);
        pc := pc + 1;
        r := Dispatch();
      } else {
        Break();
      }
    }

    /** mach_eval, cut off after so many turns, or when something is written beyond an array:
        before that the arrays hold at every moment what the machine says. */
    method MachEval(turns: nat) returns (r: Pushed, done: nat)
      requires Valid()
      modifies this`pc, this`w, this`ret, this`thrown, this`outcome, this`stackPointer, this`catchPointer, dataStack,
               catchStack
      ensures r.Done? ==> Valid() && Abs() == Run(rt, code, old(Abs()), turns) && done == turns
      ensures !r.Done? ==> r.Beyond? && done < turns && Comes(r, Run(rt, code, old(Abs()), done + 1))
      ensures forall k: nat :: k <= done ==> Room(Run(rt, code, old(Abs()), k), dataStack.Length, catchStack.Length)
    {
      hide Step;
      ghost var s := Abs();
      r, done := Done, 0;
      while done < turns && outcome.None?
        invariant 0 <= done <= turns && Valid() && Abs() == Run(rt, code, s, done) && r.Done?
        invariant forall k: nat :: k <= done ==> Room(Run(rt, code, s, k), dataStack.Length, catchStack.Length)
      {
        RunMore(rt, code, s, done, 1);
        OneMore(rt, code, Live());
        r := Turn();
        if !r.Done? {
          return;
        }
        done := done + 1;
      }
      forall k: nat | done <= k <= turns
        ensures Run(rt, code, s, k) == Run(rt, code, s, done)
      {
        StaysFinished(rt, code, s, done, k);
      }
      done := turns;
    }
  }

  // ----- what the instructions come to -----

  lemma Tops(f: Frame, rest: seq<Entry>, top: seq<Entry>)
    requires f.stack == rest + top && forall e <- top :: e.Val?
    ensures Holds(f, |top|) && rest == Drop(f, |top|)
    ensures forall k :: 0 <= k < |top| ==> Top(f, k) == top[|top| - 1 - k].v
  {}

  lemma BinaryIs(rt: Runtime, code: Code, f: Frame, p: nat)
    requires p < |code.ops| && BINARY_FIRST <= code.ops[p] < BINARY_FIRST + |BINARY_OPS|
    ensures Execute(rt, code, f, p)
            == if Holds(f, 2) then
                 Deliver(f, p, 2, rt.binary(BINARY_OPS[code.ops[p] - BINARY_FIRST], Top(f, 1), Top(f, 0), f.w))
               else Stuck(f)
  {
    hide Deliver, Holds;
  }

  lemma OnTopIs(rt: Runtime, code: Code, f: Frame, p: nat)
    requires p < |code.ops| && code.ops[p] in {UNARY_NOT, UNARY_NEGATIVE, PRINT, RETURN, RAISE, MAKE_ITER}
    ensures Execute(rt, code, f, p) == if Holds(f, 1) then ExecuteOnTop(rt, f, p, code.ops[p]) else Stuck(f)
  {
    hide Holds, ExecuteOnTop;
  }

  lemma FewerHold(f: Frame, n: nat, m: nat)
    requires Holds(f, n) && m <= n
    ensures Holds(f, m) && n <= |f.stack|
  {}

  lemma HeldBelow(f: Frame, n: nat)
    requires Holds(f, n)
    ensures n <= |f.stack| && forall k :: |f.stack| - n <= k < |f.stack| ==> f.stack[k].Val?
  {}

  lemma SaveIs(rt: Runtime, f: Frame, p: nat)
    ensures !Holds(f, 3) ==> ExecuteIndexing(rt, f, p, SAVE_INDEX) == Stuck(f)
  {
    hide Holds;
  }

  lemma SaveWith(rt: Runtime, f: Frame, p: nat, rest: seq<Entry>, c: Value, b: Value, a: Value)
    requires f.stack == rest + [Val(c), Val(b), Val(a)]
    ensures ExecuteIndexing(rt, f, p, SAVE_INDEX)
            == match SaveIndex(rt, b, a, c, f.w)
               case Ok(_, w) => Running(f.(pc := p, stack := rest + [Val(c)], w := w))
               case Raised(err, w) => Running(f.(pc := p, stack := rest + [Val(c)], w := w, error := Some(err)))
               case Crashed(w) => Finished(Crash(w))
  {
    hide SaveIndex;
    assert Drop(f, 2) == rest + [Val(c)];
  }

  lemma SinkIs(rt: Runtime, f: Frame, p: nat)
    ensures !Holds(f, 3) ==> ExecuteIndexing(rt, f, p, SINK_FIRST) == Stuck(f)
  {
    hide Holds;
  }

  lemma SinkWith(rt: Runtime, f: Frame, p: nat, rest: seq<Entry>, c: Value, b: Value, a: Value)
    requires f.stack == rest + [Val(c), Val(b), Val(a)]
    ensures ExecuteIndexing(rt, f, p, SINK_FIRST) == Running(f.(pc := p, stack := rest + [Val(a), Val(c), Val(b)]))
  {
    assert Drop(f, 3) == rest;
  }

  lemma CallIs(rt: Runtime, f: Frame, p: nat, n: nat)
    ensures !Holds(f, n + 1) ==> ExecuteCall(rt, f, p, n) == Stuck(f)
  {
    hide Holds;
  }

  /** f has the callee on top of its n arguments. */
  predicate Called(f: Frame, n: nat, callee: Value, args: seq<Value>) {
    |f.stack| > n && f.stack[|f.stack| - 1] == Val(callee)
    && var es := f.stack[|f.stack| - 1 - n..|f.stack| - 1];
       (forall e <- es :: e.Val?) && args == Values(es)
  }

  lemma CallWith(rt: Runtime, f: Frame, p: nat, n: nat, callee: Value, args: seq<Value>)
    requires Holds(f, n + 1) && Called(f, n, callee, args)
    ensures |f.stack| > n
            && ExecuteCall(rt, f, p, n)
               == var r := rt.call(callee, args, f.w);
                  if r.Raised? && rt.quits(callee, args, f.w) then
                    Running(f.(pc := p + 1, stack := Drop(f, n + 1), w := r.w, error := Some(r.err)))
                  else Deliver(f, p + 1, n + 1, r)
  {
    hide Values, Deliver;
  }

  lemma WideElse(rt: Runtime, code: Code, f: Frame, p: nat)
    requires p + 4 < |code.ops|
    requires code.ops[p] !in {LOAD_CONST, LOAD_CLOSE, SAVE_CLOSE, JUMP, JUMP_FALSE, JUMP_FALSE_ELSE_POP,
                              JUMP_TRUE_ELSE_POP, NEXT_ITER_OR_JUMP, MAKE_ARRAY, PUSH_CATCH}
    ensures ExecuteWide(rt, code, f, p, code.ops[p], Operand(code.ops, p + 1)) == Stuck(f)
  {
    hide Operand;
  }

  lemma ExecuteIs(rt: Runtime, code: Code, f: Frame, p: nat)
    requires p < |code.ops|
    ensures var op := code.ops[p];
            !(BINARY_FIRST <= op < BINARY_FIRST + |BINARY_OPS|)
            && op !in {IGNORE, POP, PUSH_NIL, UNARY_NOT, UNARY_NEGATIVE, PRINT, RETURN, RAISE, MAKE_ITER, ITER_INDEX,
                       POP_CATCH}
            && !(op == PUSH_BOOL && p + 1 < |code.ops|)
            ==> Execute(rt, code, f, p)
                == if op in {LOAD_INDEX, SAVE_INDEX, DDUPLICATE, SINK_FIRST} then ExecuteIndexing(rt, f, p, op)
                   else if op == CALL_FUNC && p + 1 < |code.ops| then
                     ExecuteCall(rt, f, p, SignedCount(code.ops[p + 1]))
                   else if p + 4 < |code.ops| then ExecuteWide(rt, code, f, p, op, Operand(code.ops, p + 1))
                   else Stuck(f)
  {
    hide ExecuteIndexing, ExecuteCall, ExecuteWide, SignedCount, Operand;
  }

  lemma SameHolds(f: Frame, p: int, n: nat)
    ensures Holds(f, n) == Holds(f.(pc := p), n) && (n <= |f.stack| ==> Drop(f, n) == Drop(f.(pc := p), n))
  {}

  lemma SameTop(f: Frame, p: int, k: nat)
    requires Holds(f, k + 1)
    ensures Holds(f.(pc := p), k + 1) && Top(f, k) == Top(f.(pc := p), k)
  {}

  lemma DeliverBehind(f: Frame, p: int, n: nat, r: Eval)
    requires n <= |f.stack|
    ensures Deliver(f, p, n, r) == Deliver(f.(pc := p), p, n, r)
  {}

  lemma OnTopBehind(rt: Runtime, f: Frame, p: nat, op: int)
    requires Holds(f, 1)
    ensures Holds(f.(pc := p), 1) && ExecuteOnTop(rt, f, p, op) == ExecuteOnTop(rt, f.(pc := p), p, op)
  {
    hide PrintValue, IterableOf, Deliver, Top, Drop, Holds;
    SameHolds(f, p, 1);
    SameTop(f, p, 0);
    HeldBelow(f, 1);
    DeliverBehind(f, p, 1, rt.unary(Not, Top(f, 0), f.w));
    DeliverBehind(f, p, 1, rt.unary(Negative, Top(f, 0), f.w));
  }

  lemma IndexingBehind(rt: Runtime, f: Frame, p: nat, op: int)
    ensures ExecuteIndexing(rt, f, p, op) == ExecuteIndexing(rt, f.(pc := p), p, op)
  {
    hide LoadIndex, SaveIndex, Deliver, Top, Drop, Holds;
    SameHolds(f, p, 2);
    SameHolds(f, p, 3);
    if Holds(f, 2) {
      FewerHold(f, 2, 1);
      SameTop(f, p, 0);
      SameTop(f, p, 1);
      DeliverBehind(f, p, 2, LoadIndex(rt, Top(f, 1), Top(f, 0), f.w));
    }
    if Holds(f, 3) {
      FewerHold(f, 3, 1);
      FewerHold(f, 3, 2);
      SameTop(f, p, 0);
      SameTop(f, p, 1);
      SameTop(f, p, 2);
    }
  }

  lemma CallBehind(rt: Runtime, f: Frame, p: nat, n: nat)
    ensures ExecuteCall(rt, f, p, n) == ExecuteCall(rt, f.(pc := p), p, n)
  {
    hide Top, Drop, Holds, Values;
    SameHolds(f, p, n + 1);
    if Holds(f, n + 1) {
      HeldBelow(f, n + 1);
      FewerHold(f, n + 1, 1);
      SameTop(f, p, 0);
    }
  }

  lemma NextIterBehind(f: Frame, p: nat, n: int)
    ensures ExecuteNextIter(f, p, n) == ExecuteNextIter(f.(pc := p), p, n)
  {
    hide JumpFrom;
  }

  lemma WideBehind(rt: Runtime, code: Code, f: Frame, p: nat, op: int, n: int)
    ensures ExecuteWide(rt, code, f, p, op, n) == ExecuteWide(rt, code, f.(pc := p), p, op, n)
  {
    hide Top, Drop, Holds, Values, LoadVar, SaveVar, MakeArray, JumpFrom, ConstantValue, Decides, ExecuteNextIter;
    NextIterBehind(f, p, n);
    SameHolds(f, p, 1);
    if Holds(f, 1) {
      HeldBelow(f, 1);
      SameTop(f, p, 0);
    }
    if n >= 0 {
      SameHolds(f, p, n);
      if Holds(f, n) {
        HeldBelow(f, n);
      }
    }
  }

  /** Instructions do not look at the old pc. */
  lemma PcBehind(rt: Runtime, code: Code, f: Frame, p: nat)
    requires p < |code.ops|
    ensures Execute(rt, code, f, p) == Execute(rt, code, f.(pc := p), p)
  {
    hide ExecuteOnTop, ExecuteIndexing, ExecuteCall, ExecuteWide, SignedCount, Operand, Deliver, Top, Holds;
    var op := code.ops[p];
    if BINARY_FIRST <= op < BINARY_FIRST + |BINARY_OPS| {
      SameHolds(f, p, 2);
      if Holds(f, 2) {
        FewerHold(f, 2, 1);
        SameTop(f, p, 0);
        SameTop(f, p, 1);
        DeliverBehind(f, p, 2, rt.binary(BINARY_OPS[op - BINARY_FIRST], Top(f, 1), Top(f, 0), f.w));
      }
    } else if op in {UNARY_NOT, UNARY_NEGATIVE, PRINT, RETURN, RAISE, MAKE_ITER} {
      SameHolds(f, p, 1);
      if Holds(f, 1) {
        OnTopBehind(rt, f, p, op);
      }
    } else if op in {LOAD_INDEX, SAVE_INDEX, DDUPLICATE, SINK_FIRST} {
      IndexingBehind(rt, f, p, op);
    } else if op == CALL_FUNC && p + 1 < |code.ops| {
      CallBehind(rt, f, p, SignedCount(code.ops[p + 1]));
    } else if p + 4 < |code.ops| {
      WideBehind(rt, code, f, p, op, Operand(code.ops, p + 1));
    }
  }

  lemma OneMore(rt: Runtime, code: Code, f: Frame)
    ensures Run(rt, code, Running(f), 1) == Step(rt, code, f)
  {
    hide Step;
    assert Run(rt, code, Step(rt, code, f), 0) == Step(rt, code, f);
  }

  lemma StaysFinished(rt: Runtime, code: Code, s: Status, n: nat, turns: nat)
    requires n <= turns && (n == turns || Run(rt, code, s, n).Finished?)
    ensures Run(rt, code, s, n) == Run(rt, code, s, turns)
  {
    hide Step;
    RunMore(rt, code, s, n, turns - n);
  }

  lemma NoItems()
    ensures Values([]) == []
  {}

  lemma OneItem(was: seq<Entry>, base: nat, items: seq<Value>, obj: Entry)
    requires base + |items| < |was| && was[base + |items|] == obj && obj.Val?
    requires (forall e <- was[base..base + |items|] :: e.Val?) && items == Values(was[base..base + |items|])
    ensures var es := was[base..base + |items| + 1]; (forall e <- es :: e.Val?) && items + [obj.v] == Values(es)
  {}
}

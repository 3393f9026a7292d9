/** The analyzer that says how large the operand stack of a code object has to be
    (src/compiler/bytecode_analyzer.c:24-137), and when it is right. */
module BytecodeAnalyzer {
  import opened Sequences
  import opened LankySyntax
  import opened LankySemantics
  import opened LankyMachine
  import opened LankyLayout
  import opened LankyDepth
  import opened LankyBlockDepth
  import opened LankyStack

  // ----- the instructions that no code in LankyLayout has -----

  const JUMP_TRUE := 76
  const SAVE_LOCAL := 81
  const LOAD_LOCAL := 82
  const PUSH_NEW_OBJECT := 85
  const LOAD_MEMBER := 88
  const SAVE_MEMBER := 89
  const MAKE_CLASS := 91
  const MAKE_TABLE := 95
  const MAKE_OBJECT := 96
  const SDUPLICATE := 99
  const LOAD_MODULE := 106

  /** stack_effect_for: the effect, and how many bytes to skip. Most four-byte operands
      are taken for one byte, so that their other bytes are looked at as opcodes. */
  function StackEffect(code: seq<int>, i: nat): (int, nat)
    requires i < |code|
  {
    var op := code[i];
    if op == JUMP_FALSE || op == JUMP_TRUE || op == SAVE_MEMBER then (-1, 4)
    else if BINARY_FIRST <= op < BINARY_FIRST + 20 || op == PRINT || op == POP || op == RETURN then (-1, 0)
    else if op == LOAD_CONST || op == LOAD_LOCAL || op == LOAD_CLOSE || op == LOAD_INDEX || op == MAKE_ARRAY
            || op == MAKE_TABLE || op == PUSH_BOOL || op == LOAD_MODULE then (1, 1)
    else if op == SDUPLICATE || op == PUSH_NIL || op == PUSH_NEW_OBJECT || op == ITER_INDEX
      || op == MAKE_OBJECT then (1, 0)
    else if op == NEXT_ITER_OR_JUMP then (1, 4)
    else if op == JUMP_TRUE_ELSE_POP || op == JUMP_FALSE_ELSE_POP || op == JUMP || op == SAVE_LOCAL || op == SAVE_CLOSE
            || op == LOAD_MEMBER then (0, 1)
    else if op == DDUPLICATE then (2, 0)
    else if op == MAKE_CLASS && i + 1 < |code| && code[i + 1] >= 0 then (code[i + 1], code[i + 1] * 2 + 1)
    else (0, 0)
  }

  /** The greatest value of `current` from address i on. */
  function Deepest(code: seq<int>, i: nat, current: int, max: int): int
    decreases |code| - i
  {
    if i >= |code| then max else
      var (effect, skip) := StackEffect(code, i);
      var next := current + effect;
      Deepest(code, i + skip + 1, next, if next > max then next else max)
  }

  /** calculate_max_stack_depth. */
  method CalculateMaxStackDepth(code: seq<int>) returns (max: nat)
    ensures max == Deepest(code, 0, 0, 0)
  {
    hide StackEffect;
    var current, i := 0, 0;
    max := 0;
    while i < |code|
      invariant 0 <= i && Deepest(code, 0, 0, 0) == Deepest(code, i, current, max)
      decreases |code| - i
    {
      var (effect, skip) := StackEffect(code, i);
      current := current + effect;
      i := i + skip;
      max := if current > max then current else max;
      i := i + 1;
    }
  }

  // ----- the pass over the code -----

  /** The value of `current` when the pass comes to q, if it does. */
  function Sum(code: seq<int>, i: nat, current: int, q: nat): Option<int>
    decreases |code| - i
  {
    if i == q then Some(current)
    else if i > q || i >= |code| then None
    else
      var (effect, skip) := StackEffect(code, i);
      Sum(code, i + skip + 1, current + effect, q)
  }

  lemma {:induction false} DeepestGrows(code: seq<int>, i: nat, current: int, max: int)
    ensures Deepest(code, i, current, max) >= max
    decreases |code| - i
  {
    hide StackEffect;
    if i < |code| {
      var (effect, skip) := StackEffect(code, i);
      var next := current + effect;
      DeepestGrows(code, i + skip + 1, next, if next > max then next else max);
    }
  }

  lemma {:induction false} SumCounts(code: seq<int>, i: nat, current: int, max: int, q: nat)
    requires Sum(code, i, current, q).Some? && current <= max
    ensures Sum(code, i, current, q).value <= Deepest(code, i, current, max)
    decreases |code| - i
  {
    hide StackEffect;
    if i == q {
      DeepestGrows(code, i, current, max);
    } else {
      var (effect, skip) := StackEffect(code, i);
      var next := current + effect;
      SumCounts(code, i + skip + 1, next, if next > max then next else max, q);
    }
  }

  /** A byte below 50 is no opcode. */
  lemma NoOpcode(code: seq<int>, i: nat, current: int, q: nat)
    requires i < |code| && i < q && 0 <= code[i] < BINARY_FIRST
    ensures Sum(code, i, current, q) == Sum(code, i + 1, current, q)
  {}

  lemma UpperBytes(ops: Ops, p: nat)
    requires Bytes(ops, p) && Operand(ops, p) < OPERAND_LIMIT
    ensures 0 <= ops[p + 1] < BINARY_FIRST && ops[p + 2] == 0 && ops[p + 3] == 0
  {}

  /** From one instruction to the next; the analyzer's effect is never less than what
      happens to the depth. */
  lemma OneInstruction(ops: Ops, D: Depths, i: nat, current: int, q: nat)
    requires |D| == |ops| + 1 && i < |ops| && D[i].depth >= 0 && Good(ops, D, Plain, i) && i + Length(ops[i]) <= q
    ensures i + Length(ops[i]) < |D| && D[i + Length(ops[i])].depth >= 0
    ensures var (effect, _) := StackEffect(ops, i);
            D[i + Length(ops[i])].depth <= D[i].depth + effect
            && Sum(ops, i, current, q) == Sum(ops, i + Length(ops[i]), current + effect, q)
  {
    hide Sum, Operand, Blank, Good;
    var (effect, skip) := StackEffect(ops, i);
    PlaceBehind(ops, D, Plain, i);
    Effects(ops, D, i);
    FirstByte(ops, i, current, q);
    if IsWide(ops[i]) && skip == 1 {
      UpperBytes(ops, i + 1);
      NoOpcode(ops, i + 2, current + effect, q);
      NoOpcode(ops, i + 3, current + effect, q);
      NoOpcode(ops, i + 4, current + effect, q);
    } else if ops[i] == CALL_FUNC {
      NoOpcode(ops, i + 1, current + effect, q);
    }
  }

  lemma FirstByte(ops: Ops, i: nat, current: int, q: nat)
    requires i < |ops| && i < q
    ensures var (effect, skip) := StackEffect(ops, i);
            Sum(ops, i, current, q) == Sum(ops, i + skip + 1, current + effect, q)
  {
    hide StackEffect;
  }

  lemma Effects(ops: Ops, D: Depths, i: nat)
    requires |D| == |ops| + 1 && i < |ops| && Good(ops, D, Plain, i) && D[i].depth >= 0
    ensures i + Length(ops[i]) < |D| && D[i + Length(ops[i])].depth <= D[i].depth + StackEffect(ops, i).0
    ensures IsWide(ops[i]) ==> Bytes(ops, i + 1) && Operand(ops, i + 1) < OPERAND_LIMIT
    ensures if ops[i] == CALL_FUNC then StackEffect(ops, i) == (0, 0) && i + 1 < |ops| && 0 <= ops[i + 1] < BINARY_FIRST
            else StackEffect(ops, i).1 == Length(ops[i]) - 1 || (IsWide(ops[i]) && StackEffect(ops, i).1 == 1)
  {
    hide Operand;
  }

  /** At every instruction the pass has at least the depth. */
  lemma {:induction false} PassAbove(ops: Ops, D: Depths, i: nat, current: int, q: nat)
    requires |D| == |ops| + 1 && AllFlow(ops, D, Plain, 0, |ops|)
    requires i <= q < |D| && 0 <= D[i].depth <= current && D[q].depth >= 0
    ensures Sum(ops, i, current, q).Some? && Sum(ops, i, current, q).value >= D[q].depth
    decreases q - i
  {
    hide StackEffect, Good, Length;
    if i < q {
      assert Good(ops, D, Plain, i);
      PlaceBehind(ops, D, Plain, i);
      OneInstruction(ops, D, i, current, q);
      var (effect, _) := StackEffect(ops, i);
      PassAbove(ops, D, i + Length(ops[i]), current + effect, q);
    }
  }

  lemma PeakCovered(ops: Ops, D: Depths)
    requires |D| == |ops| + 1 && AllFlow(ops, D, Plain, 0, |ops|) && D[0].depth == 0
    ensures Peak(D) <= Deepest(ops, 0, 0, 0)
  {
    hide AllFlow, Peak, Sum, Deepest;
    PeakSomewhere(D);
    DeepestGrows(ops, 0, 0, 0);
    if Peak(D) != 0 {
      var q: nat :| q < |D| && D[q].depth == Peak(D);
      PassAbove(ops, D, 0, 0, q);
      SumCounts(ops, 0, 0, 0, q);
    }
  }

  /** The analyzer says no less than the greatest depth of a program that loads no element,
      has fewer than fifty arguments in every call, does not leave a loop early and has no
      try, if its code, constants and names are few enough; */
  lemma PeakSuffices(k: Tables, ops: Ops, b: Block)
    requires k.exact && ProgramCode(k, ops, b) && PlainB(b)
    requires |ops| <= OPERAND_LIMIT && |k.consts| <= OPERAND_LIMIT && |k.names| <= OPERAND_LIMIT
    ensures Peak(DepthProgram(b)) <= Deepest(ops, 0, 0, 0)
  {
    hide AllFlow, ProgramCode, PlainB, DepthProgram, Peak, Deepest, TrylessB;
    PlainTrylessB(b);
    ProgramFlows(k, ops, b, Plain);
    PeakCovered(ops, DepthProgram(b));
  }

  /** so that it is enough for every run. */
  lemma StackSuffices(rt: Runtime, code: Code, b: Block, w: World, n: nat)
    requires ProgramCode(Tables(true, code.constants, code.names), code.ops, b) && PlainB(b)
    requires |code.ops| <= OPERAND_LIMIT && |code.constants| <= OPERAND_LIMIT && |code.names| <= OPERAND_LIMIT
    ensures var s := Run(rt, code, Running(Start(w)), n);
            s.Running? ==> |s.f.stack| <= Deepest(code.ops, 0, 0, 0)
  {
    hide ProgramCode, PlainB, Run, DepthProgram, Peak, Deepest, TrylessB;
    PlainTrylessB(b);
    PeakSuffices(Tables(true, code.constants, code.names), code.ops, b);
    DepthKept(rt, code, b, w, n);
  }

  // ----- handlers -----

  /** calculate_max_catch_depth: every byte that looks like PUSH_CATCH is counted, operands
      too. */
  method CalculateMaxCatchDepth(code: seq<int>) returns (max: nat)
    ensures max == Pushes(code, 0, |code|)
  {
    max := 0;
    var i := 0;
    PushesNone(code);
    while i < |code|
      invariant 0 <= i <= |code| && max == Pushes(code, 0, i)
    {
      PushesJoin(code, 0, i, i + 1);
      if code[i] == PUSH_CATCH {
        max := max + 1;
      }
      i := i + 1;
    }
  }

  lemma PushesNone(code: seq<int>)
    ensures Pushes(code, 0, 0) == 0
  {}
}

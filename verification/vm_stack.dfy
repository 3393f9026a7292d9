/** How deep the operand stack gets in any run, and which handlers wait at each place. */
module LankyStack {
  import opened Sequences
  import opened Buffers
  import opened LankySyntax
  import opened LankySemantics
  import opened LankyMachine
  import opened LankyLayout
  import opened LankyDepth
  import opened LankyBlockDepth

  function DepthProgram(b: Block): Depths {
    DepthB(b, 0, Spot(0, [])) + if EndsInReturn(b) then [Spot(0, [])] else [Spot(0, []), Spot(1, []), Spot(0, [])]
  }

  lemma ProgramFlows(k: Tables, ops: Ops, b: Block, mode: Mode)
    requires k.exact && ProgramCode(k, ops, b) && if mode.Any? then StaysB(b, true) else TrylessB(b)
    requires mode.Plain? ==>
               PlainB(b) && |ops| <= OPERAND_LIMIT && |k.consts| <= OPERAND_LIMIT && |k.names| <= OPERAND_LIMIT
    ensures |DepthProgram(b)| == |ops| + 1 && DepthProgram(b)[0] == Spot(0, [])
    ensures AllFlow(ops, DepthProgram(b), mode, 0, |ops|)
  {
    hide AllFlow, Has, Good, PlainB, CodeB, DepthB, SizeB, TrylessB, StaysB;
    var D, n, d := DepthProgram(b), SizeB(b), Spot(0, []);
    var tail := if EndsInReturn(b) then [d] else [d, Spot(1, []), d];
    WholeHas(D);
    SplitBlock(D, 0, b, d, tail);
    FlowB(k, ops, D, mode, 0, b, -1, -1, d);
    if !EndsInReturn(b) {
      HasAt(D, n, tail, 1);
      HasAt(D, n, tail, 2);
      NilFlows(ops, D, mode, n);
      OpFlows(ops, D, mode, n + 1, RETURN, 1, 0);
      Joined(ops, D, mode, 0, n, n + 1);
      Joined(ops, D, mode, 0, n + 1, n + 2);
    }
  }

  lemma WholeHas(D: Depths)
    ensures Has(D, 0, D)
  {}

  /** The greatest depth. */
  function Peak(D: Depths): nat {
    if D == [] then 0 else
      var rest := Peak(D[1..]);
      if D[0].depth > rest then D[0].depth else rest
  }

  lemma {:induction false} BelowPeak(D: Depths, q: nat)
    requires q < |D|
    ensures D[q].depth <= Peak(D)
  {
    if q > 0 {
      BelowPeak(D[1..], q - 1);
    }
  }

  lemma {:induction false} PeakSomewhere(D: Depths)
    ensures Peak(D) == 0 || exists q: nat :: q < |D| && D[q].depth == Peak(D)
  {
    if D != [] && D[0].depth <= Peak(D[1..]) {
      PeakSomewhere(D[1..]);
      if Peak(D[1..]) != 0 {
        var q: nat :| q < |D[1..]| && D[1..][q].depth == Peak(D[1..]);
        assert D[q + 1].depth == Peak(D);
      }
    }
  }

  // ----- what every turn keeps -----

  /** The handlers hs are nested: each of them goes on inside of those before it. */
  predicate Nested(D: Depths, hs: seq<int>) {
    forall k :: 0 <= k < |hs| ==> Handles(D, hs[k], hs[..k])
  }

  /** f is at place q; if the stack is to be exact, it is as deep as is said there. */
  predicate AtPlace(D: Depths, f: Frame, q: int, exact: bool) {
    0 <= q < |D| && D[q].depth >= 0 && D[q].handlers == f.catches && (exact ==> D[q].depth == |f.stack|)
  }

  /** On the way out, by a return or an error, f is no deeper than at place q. */
  predicate LeftPlace(D: Depths, f: Frame, q: int, exact: bool) {
    0 <= q < |D| && D[q].depth >= 0 && D[q].handlers == f.catches && (exact ==> |f.stack| <= D[q].depth)
  }

  predicate Goes(f: Frame) {
    f.ret.None? && f.error.None?
  }

  ghost predicate Kept(D: Depths, f: Frame, exact: bool) {
    Nested(D, f.catches) && (exact ==> f.catches == [])
    && if Goes(f) then AtPlace(D, f, f.pc + 1, exact) else exists q :: LeftPlace(D, f, q, exact)
  }

  ghost predicate KeptNext(D: Depths, s: Status, exact: bool) {
    s.Running? ==> Kept(D, s.f, exact)
  }

  /** After an instruction at p. */
  ghost predicate From(D: Depths, f: Frame, p: nat, exact: bool) {
    Kept(D, f, exact) && Goes(f) && AtPlace(D, f, p, exact)
  }

  lemma GoesOn(D: Depths, f: Frame, p: nat, g: Frame, exact: bool)
    requires From(D, f, p, exact) && Goes(g) && g.catches == f.catches
    requires Next(D, g.pc + 1, D[p].Up(|g.stack| - |f.stack|)) && D[p].Up(|g.stack| - |f.stack|).depth >= 0
    ensures Kept(D, g, exact)
  {}

  lemma GoesOut(D: Depths, f: Frame, p: nat, g: Frame, q: nat, exact: bool)
    requires From(D, f, p, exact) && !Goes(g) && g.catches == f.catches
    requires q < |D| && D[q].depth >= 0 && D[q].handlers == D[p].handlers && (exact ==> |g.stack| <= D[q].depth)
    ensures Kept(D, g, exact)
  {
    assert LeftPlace(D, g, q, exact);
  }

  lemma DeliverKeeps(D: Depths, f: Frame, p: nat, pc: nat, n: nat, r: Eval, exact: bool)
    requires From(D, f, p, exact) && n <= |f.stack| && Next(D, pc + 1, D[p].Up(1 - n)) && D[p].depth >= n
    ensures KeptNext(D, Deliver(f, pc, n, r), exact)
  {
    hide Kept;
    var s := Deliver(f, pc, n, r);
    if s.Running? {
      assert |s.f.stack| == |f.stack| - n + 1;
      if r.Raised? {
        KeptAt(D, f, p, exact);
        GoesOut(D, f, p, s.f, pc + 1, exact);
      } else {
        GoesOn(D, f, p, s.f, exact);
      }
    }
  }

  lemma KeptAt(D: Depths, f: Frame, p: nat, exact: bool)
    requires From(D, f, p, exact)
    ensures p < |D| && D[p].depth >= 0 && (exact ==> D[p].depth == |f.stack|)
  {}

  lemma OnTopKeeps(rt: Runtime, ops: Ops, D: Depths, f: Frame, p: nat, exact: bool)
    requires |D| == |ops| + 1 && p < |ops| && Flows(ops, D, p) && From(D, f, p, exact) && Holds(f, 1)
    requires ops[p] in {UNARY_NOT, UNARY_NEGATIVE, PRINT, RETURN, RAISE, MAKE_ITER}
    ensures KeptNext(D, ExecuteOnTop(rt, f, p, ops[p]), exact)
  {
    hide PrintValue, IterableOf, Kept, Deliver, Top;
    var op, v, s := ops[p], Top(f, 0), ExecuteOnTop(rt, f, p, ops[p]);
    KeptAt(D, f, p, exact);
    if op == UNARY_NOT {
      DeliverKeeps(D, f, p, p, 1, rt.unary(Not, v, f.w), exact);
    } else if op == UNARY_NEGATIVE {
      DeliverKeeps(D, f, p, p, 1, rt.unary(Negative, v, f.w), exact);
    } else if s.Running? {
      if Goes(s.f) {
        GoesOn(D, f, p, s.f, exact);
      } else {
        GoesOut(D, f, p, s.f, p, exact);
      }
    }
  }

  lemma IndexingKeeps(rt: Runtime, ops: Ops, D: Depths, f: Frame, p: nat, exact: bool)
    requires |D| == |ops| + 1 && p < |ops| && Flows(ops, D, p) && From(D, f, p, exact)
    requires ops[p] in {LOAD_INDEX, SAVE_INDEX, DDUPLICATE, SINK_FIRST}
    ensures KeptNext(D, ExecuteIndexing(rt, f, p, ops[p]), exact)
  {
    hide LoadIndex, SaveIndex, Kept, Deliver, Top;
    var op, s := ops[p], ExecuteIndexing(rt, f, p, ops[p]);
    KeptAt(D, f, p, exact);
    if op == LOAD_INDEX {
      if Holds(f, 2) {
        DeliverKeeps(D, f, p, p, 2, LoadIndex(rt, Top(f, 1), Top(f, 0), f.w), exact);
      }
    } else if s.Running? {
      if Goes(s.f) {
        GoesOn(D, f, p, s.f, exact);
      } else {
        GoesOut(D, f, p, s.f, p, exact);
      }
    }
  }

  lemma CallKeeps(rt: Runtime, ops: Ops, D: Depths, f: Frame, p: nat, exact: bool)
    requires |D| == |ops| + 1 && p + 1 < |ops| && Flows(ops, D, p) && From(D, f, p, exact) && ops[p] == CALL_FUNC
    ensures KeptNext(D, ExecuteCall(rt, f, p, SignedCount(ops[p + 1])), exact)
  {
    hide Kept, Top, Values;
    var s := ExecuteCall(rt, f, p, SignedCount(ops[p + 1]));
    KeptAt(D, f, p, exact);
    if s.Running? {
      if Goes(s.f) {
        GoesOn(D, f, p, s.f, exact);
      } else {
        GoesOut(D, f, p, s.f, p, exact);
      }
    }
  }

  lemma WideKeeps(rt: Runtime, code: Code, D: Depths, f: Frame, p: nat, exact: bool)
    requires |D| == |code.ops| + 1 && p + 4 < |code.ops| && From(D, f, p, exact) && code.ops[p] != PUSH_CATCH
    requires FlowsWide(code.ops, D, p, Operand(code.ops, p + 1))
    ensures KeptNext(D, ExecuteWide(rt, code, f, p, code.ops[p], Operand(code.ops, p + 1)), exact)
  {
    hide Kept, Top, Values, Operand, LoadVar, SaveVar, MakeArray, ConstantValue, JumpFrom;
    var s := ExecuteWide(rt, code, f, p, code.ops[p], Operand(code.ops, p + 1));
    KeptAt(D, f, p, exact);
    if s.Running? {
      if Goes(s.f) {
        GoesOn(D, f, p, s.f, exact);
      } else {
        GoesOut(D, f, p, s.f, p, exact);
      }
    }
  }

  lemma OneMoreNested(D: Depths, hs: seq<int>, n: int)
    requires Nested(D, hs) && Handles(D, n, hs)
    ensures Nested(D, hs + [n])
  {
    hide Handles;
    forall k | 0 <= k < |hs| + 1
      ensures Handles(D, (hs + [n])[k], (hs + [n])[..k])
    {
      assert (hs + [n])[..k] == hs[..k];
      assert k == |hs| ==> hs[..k] == hs;
    }
  }

  lemma OneLessNested(D: Depths, hs: seq<int>)
    requires Nested(D, hs) && hs != []
    ensures var m := |hs| - 1; Nested(D, hs[..m]) && Handles(D, hs[m], hs[..m])
  {
    hide Handles;
    var m := |hs| - 1;
    forall k | 0 <= k < m
      ensures Handles(D, hs[..m][k], hs[..m][..k])
    {
      assert hs[..m][..k] == hs[..k];
    }
  }

  /** Entering and leaving a try block. */
  lemma TryKeeps(rt: Runtime, code: Code, D: Depths, f: Frame, p: nat)
    requires |D| == |code.ops| + 1 && p < |code.ops| && Flows(code.ops, D, p) && From(D, f, p, false)
    requires code.ops[p] in {PUSH_CATCH, POP_CATCH}
    ensures KeptNext(D, Execute(rt, code, f, p), false)
  {
    hide Operand, Handles, Nested;
    var s := Execute(rt, code, f, p);
    if code.ops[p] == PUSH_CATCH {
      OneMoreNested(D, f.catches, Operand(code.ops, p + 1));
    } else {
      OneLessNested(D, f.catches);
    }
  }

  /** Code without a try has no such instruction at any place. */
  lemma InsideTry(ops: Ops, D: Depths, mode: Mode, f: Frame, p: nat, exact: bool)
    requires |D| == |ops| + 1 && p < |ops| && Good(ops, D, mode, p) && From(D, f, p, exact)
    requires ops[p] in {PUSH_CATCH, POP_CATCH} && (exact ==> !mode.Any?)
    ensures !exact
  {
    hide FlowsWide, Operand;
  }

  lemma ExecuteKeeps(rt: Runtime, code: Code, D: Depths, mode: Mode, f: Frame, p: nat, exact: bool)
    requires |D| == |code.ops| + 1 && p < |code.ops| && Good(code.ops, D, mode, p) && From(D, f, p, exact)
    requires exact ==> !mode.Any?
    ensures KeptNext(D, Execute(rt, code, f, p), exact)
  {
    hide ExecuteOnTop, ExecuteIndexing, ExecuteCall, ExecuteWide, FlowsWide, Kept, Deliver, Top, Operand, SignedCount,
         Nested;
    var op := code.ops[p];
    KeptAt(D, f, p, exact);
    if BINARY_FIRST <= op < BINARY_FIRST + |BINARY_OPS| {
      if Holds(f, 2) {
        DeliverKeeps(D, f, p, p, 2, rt.binary(BINARY_OPS[op - BINARY_FIRST], Top(f, 1), Top(f, 0), f.w), exact);
      }
    } else if op in {UNARY_NOT, UNARY_NEGATIVE, PRINT, RETURN, RAISE, MAKE_ITER} {
      if Holds(f, 1) {
        OnTopKeeps(rt, code.ops, D, f, p, exact);
      }
    } else if op in {LOAD_INDEX, SAVE_INDEX, DDUPLICATE, SINK_FIRST} {
      IndexingKeeps(rt, code.ops, D, f, p, exact);
    } else if op == CALL_FUNC {
      CallKeeps(rt, code.ops, D, f, p, exact);
    } else if op in {IGNORE, POP, PUSH_NIL, ITER_INDEX, PUSH_BOOL} {
      var s := Execute(rt, code, f, p);
      if s.Running? {
        GoesOn(D, f, p, s.f, exact);
      }
    } else if op == POP_CATCH || op == PUSH_CATCH {
      InsideTry(code.ops, D, mode, f, p, exact);
      TryKeeps(rt, code, D, f, p);
    } else {
      WideKeeps(rt, code, D, f, p, exact);
    }
  }

  lemma StepKeeps(rt: Runtime, code: Code, D: Depths, mode: Mode, f: Frame, exact: bool)
    requires |D| == |code.ops| + 1 && AllFlow(code.ops, D, mode, 0, |code.ops|) && Kept(D, f, exact)
    requires exact ==> !mode.Any?
    ensures KeptNext(D, Step(rt, code, f), exact)
  {
    hide Execute, Good, Nested, Handles;
    if f.ret.None? {
      if f.error.Some? {
        if f.catches != [] {
          OneLessNested(D, f.catches);
          HandlerKeeps(D, f, Step(rt, code, f).f, exact);
        }
      } else if f.pc + 1 < |code.ops| {
        assert Good(code.ops, D, mode, f.pc + 1);
        ExecuteKeeps(rt, code, D, mode, f, f.pc + 1, exact);
      }
    }
  }

  /** An error goes to the last handler, and there the ones before it are left. */
  lemma HandlerKeeps(D: Depths, f: Frame, g: Frame, exact: bool)
    requires f.catches != [] && !exact
    requires var m := |f.catches| - 1;
             g.catches == f.catches[..m] && g.pc == f.catches[m] && Goes(g) && Nested(D, g.catches)
               && Handles(D, g.pc, g.catches)
    ensures Kept(D, g, exact)
  {
    hide Nested;
  }

  lemma {:induction false} RunKeeps(rt: Runtime, code: Code, D: Depths, mode: Mode, s: Status, n: nat, exact: bool)
    requires |D| == |code.ops| + 1 && AllFlow(code.ops, D, mode, 0, |code.ops|) && KeptNext(D, s, exact)
    requires exact ==> !mode.Any?
    ensures KeptNext(D, Run(rt, code, s, n), exact)
    decreases n
  {
    hide AllFlow, Step, Kept;
    if n > 0 && s.Running? {
      StepKeeps(rt, code, D, mode, s.f, exact);
      RunKeeps(rt, code, D, mode, Step(rt, code, s.f), n - 1, exact);
    }
  }

  // ----- errors from anywhere -----

  /** An error is noted between two turns, unless one is already or the frame is left. */
  function Disturbed(s: Status, fault: Option<Error>): Status {
    if s.Running? && Goes(s.f) then Running(s.f.(error := fault)) else s
  }

  /** A run with an error or none noted before each of its turns, whatever the instructions do. */
  function Troubled(rt: Runtime, code: Code, s: Status, faults: seq<Option<Error>>): Status
    decreases |faults|
  {
    if faults == [] || s.Finished? then s
    else Troubled(rt, code, Step(rt, code, Disturbed(s, faults[0]).f), faults[1..])
  }

  /** Without such errors it is the run as it is. */
  lemma {:induction false} Untroubled(rt: Runtime, code: Code, s: Status, n: nat)
    ensures Troubled(rt, code, s, seq(n, _ => None)) == Run(rt, code, s, n)
    decreases n
  {
    hide Step;
    if n > 0 && s.Running? {
      var faults: seq<Option<Error>> := seq(n, _ => None);
      assert faults[1..] == seq(n - 1, _ => None) && Disturbed(s, faults[0]) == s;
      Untroubled(rt, code, Step(rt, code, s.f), n - 1);
    }
  }

  lemma DisturbedKeeps(D: Depths, s: Status, fault: Option<Error>)
    requires KeptNext(D, s, false)
    ensures KeptNext(D, Disturbed(s, fault), false)
  {
    hide Nested;
    if s.Running? && Goes(s.f) && fault.Some? {
      assert LeftPlace(D, Disturbed(s, fault).f, s.f.pc + 1, false);
    }
  }

  lemma {:induction false} TroubledKeeps(rt: Runtime, code: Code, D: Depths, s: Status, faults: seq<Option<Error>>)
    requires |D| == |code.ops| + 1 && AllFlow(code.ops, D, Any, 0, |code.ops|) && KeptNext(D, s, false)
    ensures KeptNext(D, Troubled(rt, code, s, faults), false)
    decreases |faults|
  {
    hide AllFlow, Step, Kept;
    if faults != [] && s.Running? {
      DisturbedKeeps(D, s, faults[0]);
      StepKeeps(rt, code, D, Any, Disturbed(s, faults[0]).f, false);
      TroubledKeeps(rt, code, D, Step(rt, code, Disturbed(s, faults[0]).f), faults[1..]);
    }
  }

  /** In code where no break or continue leaves a try. */
  lemma TroubledKept(rt: Runtime, code: Code, b: Block, w: World, faults: seq<Option<Error>>)
    requires ProgramCode(Tables(true, code.constants, code.names), code.ops, b) && StaysB(b, true)
    ensures |DepthProgram(b)| == |code.ops| + 1
    ensures KeptNext(DepthProgram(b), Troubled(rt, code, Running(Start(w)), faults), false)
  {
    hide AllFlow, ProgramCode, Troubled, DepthProgram, StaysB;
    ProgramFlows(Tables(true, code.constants, code.names), code.ops, b, Any);
    TroubledKeeps(rt, code, DepthProgram(b), Running(Start(w)), faults);
  }

  // ----- the results -----

  lemma RunKept(rt: Runtime, code: Code, b: Block, mode: Mode, w: World, n: nat, exact: bool)
    requires ProgramCode(Tables(true, code.constants, code.names), code.ops, b)
    requires !mode.Plain? && (if mode.Any? then StaysB(b, true) else TrylessB(b)) && (exact ==> !mode.Any?)
    ensures |DepthProgram(b)| == |code.ops| + 1 && KeptNext(DepthProgram(b), Run(rt, code, Running(Start(w)), n), exact)
  {
    hide AllFlow, ProgramCode, Run, DepthProgram, TrylessB, StaysB;
    ProgramFlows(Tables(true, code.constants, code.names), code.ops, b, mode);
    RunKeeps(rt, code, DepthProgram(b), mode, Running(Start(w)), n, exact);
  }

  /** In every run of the code of a program without try, the depth of the stack between two
      instructions is that of the place, and it never exceeds the greatest depth. */
  lemma DepthKept(rt: Runtime, code: Code, b: Block, w: World, n: nat)
    requires ProgramCode(Tables(true, code.constants, code.names), code.ops, b) && TrylessB(b)
    ensures var s := Run(rt, code, Running(Start(w)), n);
            s.Running? ==> |s.f.stack| <= Peak(DepthProgram(b)) && s.f.catches == []
                           && (Goes(s.f) ==> 0 <= s.f.pc + 1 < |DepthProgram(b)|
                                             && |s.f.stack| == DepthProgram(b)[s.f.pc + 1].depth)
  {
    hide ProgramCode, Run, DepthProgram, Peak, TrylessB, StaysB;
    var D := DepthProgram(b);
    RunKept(rt, code, b, Untried, w, n, true);
    var s := Run(rt, code, Running(Start(w)), n);
    if s.Running? {
      var q: nat :| q < |D| && |s.f.stack| <= D[q].depth;
      BelowPeak(D, q);
    }
  }

  /** In every run of code where no break or continue leaves a try, with an error noted
      between any two turns or by an instruction, the catch stack between two instructions
      holds the handlers of the try blocks around the place; when an error is noted there, it
      still does, and the next turn goes to the last of them, where the others are left. */
  lemma CatchesKept(rt: Runtime, code: Code, b: Block, w: World, faults: seq<Option<Error>>, fault: Option<Error>)
    requires ProgramCode(Tables(true, code.constants, code.names), code.ops, b) && StaysB(b, true)
    ensures var s, D := Troubled(rt, code, Running(Start(w)), faults), DepthProgram(b);
            s.Running? ==>
              var f := Disturbed(s, fault).f;
              (if Goes(s.f) then 0 <= s.f.pc + 1 < |D| && f.catches == s.f.catches == D[s.f.pc + 1].handlers
               else exists q :: 0 <= q < |D| && D[q].depth >= 0 && D[q].handlers == f.catches)
              && (f.error.Some? && f.ret.None? && f.catches != [] ==> ToHandler(D, Step(rt, code, f), f.catches))
  {
    hide ProgramCode, Troubled, DepthProgram, Nested, Handles, StaysB;
    var s, D := Troubled(rt, code, Running(Start(w)), faults), DepthProgram(b);
    TroubledKept(rt, code, b, w, faults);
    if s.Running? && s.f.catches != [] {
      OneLessNested(D, s.f.catches);
      Arrived(rt, code, D, Disturbed(s, fault).f);
    }
  }

  /** At the last of the handlers hs, inside of the others. */
  predicate ToHandler(D: Depths, s: Status, hs: seq<int>)
    requires hs != []
  {
    var m := |hs| - 1;
    s.Running? && Goes(s.f) && s.f.pc == hs[m] && s.f.catches == hs[..m] && Handles(D, hs[m], hs[..m])
  }

  lemma Arrived(rt: Runtime, code: Code, D: Depths, f: Frame)
    requires f.catches != [] && Handles(D, f.catches[|f.catches| - 1], f.catches[..|f.catches| - 1])
    ensures f.error.Some? && f.ret.None? ==> ToHandler(D, Step(rt, code, f), f.catches)
  {
    hide Handles;
  }

  // ----- how many handlers -----

  /** How many of the bytes from i up to j are PUSH_CATCH. */
  function Pushes(ops: Ops, i: nat, j: nat): nat
    requires i <= j <= |ops|
    decreases j - i
  {
    if i == j then 0 else (if ops[i] == PUSH_CATCH then 1 else 0) + Pushes(ops, i + 1, j)
  }

  lemma {:induction false} PushesJoin(ops: Ops, i: nat, j: nat, k: nat)
    requires i <= j <= k <= |ops|
    ensures Pushes(ops, i, k) == Pushes(ops, i, j) + Pushes(ops, j, k)
    decreases j - i
  {
    if i < j {
      PushesJoin(ops, i + 1, j, k);
    }
  }

  function Length(op: int): (n: nat)
    ensures n > 0
  {
    if IsWide(op) || op == PUSH_CATCH then 5 else if op == PUSH_BOOL || op == CALL_FUNC then 2 else 1
  }

  /** From one place to the one behind it. */
  lemma PlaceBehind(ops: Ops, D: Depths, mode: Mode, i: nat)
    requires |D| == |ops| + 1 && i < |ops| && D[i].depth >= 0 && Good(ops, D, mode, i)
    ensures var j := i + Length(ops[i]);
            j < |D| && D[j].depth >= 0 && Blank(D, i, Length(ops[i]))
            && |D[j].handlers| <= |D[i].handlers| + if ops[i] == PUSH_CATCH then 1 else 0
  {
    hide Operand, Handles, Simple, JumpFrom;
  }

  lemma {:induction false} HandlersBounded(ops: Ops, D: Depths, mode: Mode, i: nat, q: nat)
    requires |D| == |ops| + 1 && AllFlow(ops, D, mode, 0, |ops|) && i <= q < |D| && D[i].depth >= 0 && D[q].depth >= 0
    ensures |D[q].handlers| <= |D[i].handlers| + Pushes(ops, i, q)
    decreases q - i
  {
    hide Good, Length;
    if i < q {
      assert Good(ops, D, mode, i);
      PlaceBehind(ops, D, mode, i);
      var j := i + Length(ops[i]);
      assert j <= q;
      HandlersBounded(ops, D, mode, j, q);
      PushesJoin(ops, i + 1, j, q);
    }
  }

  /** No such run ever has more handlers waiting than there are bytes that look like PUSH_CATCH. */
  lemma CatchesBounded(rt: Runtime, code: Code, b: Block, w: World, faults: seq<Option<Error>>)
    requires ProgramCode(Tables(true, code.constants, code.names), code.ops, b) && StaysB(b, true)
    ensures var s := Troubled(rt, code, Running(Start(w)), faults);
            s.Running? ==> |s.f.catches| <= Pushes(code.ops, 0, |code.ops|)
  {
    hide ProgramCode, Troubled, DepthProgram, AllFlow, Nested, StaysB;
    var s, D := Troubled(rt, code, Running(Start(w)), faults), DepthProgram(b);
    TroubledKept(rt, code, b, w, faults);
    ProgramFlows(Tables(true, code.constants, code.names), code.ops, b, Any);
    if s.Running? {
      var q: nat :| q < |D| && D[q].depth >= 0 && D[q].handlers == s.f.catches;
      HandlersBounded(code.ops, D, Any, 0, q);
      PushesJoin(code.ops, 0, q, |code.ops|);
    }
  }
}

/** The compiler, the analyzer and the machine together. */
module LankyProgram {
  import opened Sequences
  import opened LankySyntax
  import opened LankySemantics
  import opened LankyMachine
  import opened LankyLayout
  import opened LankyRuns
  import opened LankyStatements
  import opened LankyTags
  import opened LankyAssembly
  import opened LankyConstants
  import opened LankyCompiler
  import opened LankyDepth
  import opened LankyBlockDepth
  import opened LankyStack
  import opened LankyInterpreter
  import opened BytecodeAnalyzer

  /** Compiling a program gives bytes on which the machine, started in any world and
      with any runtime library, stops with a result exactly when the program has that
      result, unless two of its integers are the same double or a call has more than 127
      arguments (LoadedExactly and ArgumentsPassed say what happens then), or a try stands inside
      of a for-in loop and its block may fail with operands waiting, or is left by a break or
      continue (LankyExceptions has such programs). The stack size that goes with them is no less
      than the greatest depth, if the analyzer has every effect right and the code is not too
      long. */
  method CompileProgram(b: Block, ghost lim: Limits) returns (code: Code, stackSize: nat, catchSize: nat)
    requires b.Then? && WellFormedBlock(b, false, lim) && lim.args < FIRST_TAG && SizeB(b) + 2 < CODE_LIMIT
    ensures AllBytes(code.ops)
            && ProgramCode(Tables(true, code.constants, code.names, AsWritten(lim)), code.ops, b)
    ensures code.constants == InternAll(ConstantsB([], b))
    ensures AsWritten(lim) && RestoresB(b, Loose) ==>
              forall rt, w, r :: Reach(rt, code, Start(w), LankyMachine.Finished(r))
                                 <==> exists fuel: nat :: RunProgram(rt, b, w, fuel) == Some(r)
    ensures AsWritten(lim) && PlainB(b) && SizeB(b) + 2 <= OPERAND_LIMIT ==> Peak(DepthProgram(b)) <= stackSize
    ensures stackSize == Deepest(code.ops, 0, 0, 0) && catchSize == Pushes(code.ops, 0, |code.ops|)
  {
    hide WellFormedBlock, AsWritten, SizeB, Deepest, ProgramCode, PlainB, RunProgram, Reach, Peak, DepthProgram,
         RestoresB, StaysB;
    var cw := new CompilerWrapper(lim);
    code := cw.CompileAst(b);
    stackSize := CalculateMaxStackDepth(code.ops);
    catchSize := CalculateMaxCatchDepth(code.ops);
    CodeOf(Tables(true, code.constants, code.names, AsWritten(lim)), code.ops, b);
    if AsWritten(lim) && RestoresB(b, Loose) {
      forall rt, w, r
        ensures Reach(rt, code, Start(w), LankyMachine.Finished(r))
                <==> exists fuel: nat :: RunProgram(rt, b, w, fuel) == Some(r)
      {
        ProgramMeans(rt, code, b, w, r);
      }
    }
    if AsWritten(lim) && PlainB(b) && SizeB(b) + 2 <= OPERAND_LIMIT {
      PeakSuffices(Tables(true, code.constants, code.names), code.ops, b);
    }
  }

  lemma CodeOf(k: Tables, ops: Ops, b: Block)
    requires ProgramCode(k, ops, b)
    ensures CodeProgram(k, ops, b) && |ops| <= SizeB(b) + 2
  {
    hide CodeProgram, SizeB;
  }

  /** Through so many turns there are never more operands than that. */
  ghost predicate Within(rt: Runtime, code: Code, w: World, turns: nat, size: nat) {
    forall k: nat | k <= turns :: var s := Run(rt, code, Running(Start(w)), k); s.Running? ==> |s.f.stack| <= size
  }

  /** Without a try the greatest depth is such a size, for any number of turns. */
  lemma PeakIsWithin(rt: Runtime, code: Code, b: Block, w: World, turns: nat, size: nat)
    requires ProgramCode(Tables(true, code.constants, code.names), code.ops, b) && TrylessB(b)
    requires Peak(DepthProgram(b)) <= size
    ensures Within(rt, code, w, turns, size)
  {
    hide ProgramCode, Run, Peak, DepthProgram, RestoresB, TrylessB, StaysB;
    forall k: nat | k <= turns
      ensures var s := Run(rt, code, Running(Start(w)), k); s.Running? ==> |s.f.stack| <= size
    {
      DepthKept(rt, code, b, w, k);
    }
  }

  /** The catch stack has room at any rate. */
  lemma OnlyOperands(rt: Runtime, code: Code, b: Block, w: World, k: nat, stackSize: nat)
    requires ProgramCode(Tables(true, code.constants, code.names), code.ops, b) && StaysB(b, true)
    ensures var s := Run(rt, code, Running(Start(w)), k);
            Room(s, stackSize, Pushes(code.ops, 0, |code.ops|)) <==> (s.Running? ==> |s.f.stack| <= stackSize)
  {
    hide ProgramCode, Run, StaysB, Pushes;
    Untroubled(rt, code, Running(Start(w)), k);
    CatchesBounded(rt, code, b, w, seq(k, _ => None));
  }

  /** Run for so many turns on arrays of the sizes that are stored with it, compiled code
      reaches beyond them exactly if its operands do not fit; until then it is where the machine
      says. */
  method Interpret(rt: Runtime, code: Code, ghost b: Block, stackSize: nat, catchSize: nat, w: World, turns: nat)
    returns (frame: StackFrame, end: Pushed)
    requires ProgramCode(Tables(true, code.constants, code.names), code.ops, b) && StaysB(b, true)
    requires catchSize == Pushes(code.ops, 0, |code.ops|)
    ensures end.Done? <==> Within(rt, code, w, turns, stackSize)
    ensures end.Done? ==> frame.Valid() && frame.Abs() == Run(rt, code, Running(Start(w)), turns)
    ensures frame.dataStack.Length == stackSize && frame.catchStack.Length == catchSize
  {
    hide ProgramCode, Run, StaysB, Room, Pushes;
    frame := new StackFrame(rt, code, stackSize, catchSize, w);
    var done;
    end, done := frame.MachEval(turns);
    forall k: nat | k <= turns
      ensures var s := Run(rt, code, Running(Start(w)), k);
              Room(s, stackSize, catchSize) <==> (s.Running? ==> |s.f.stack| <= stackSize)
    {
      OnlyOperands(rt, code, b, w, k, stackSize);
    }
    if !end.Done? {
      assert !Room(Run(rt, code, Running(Start(w)), done + 1), stackSize, catchSize);
    }
  }

  /** At one of so many turns something is written beyond arrays of these sizes. */
  ghost predicate Overruns(rt: Runtime, code: Code, w: World, turns: nat, stackSize: nat, catchSize: nat) {
    exists k: nat :: k <= turns && !Room(Run(rt, code, Running(Start(w)), k), stackSize, catchSize)
  }

  /** From the tree to the result: a program is compiled, and run on arrays of the sizes found.
      If the run stops, the program has its result; if the program has a result, a run of enough
      turns stops with it; unless something is written beyond the arrays, which cannot happen
      when the analyzer has every effect right. */
  method CompileAndRun(b: Block, ghost lim: Limits, rt: Runtime, w: World, turns: nat)
    returns (code: Code, stackSize: nat, catchSize: nat, result: Option<Final>, end: Pushed)
    requires b.Then? && WellFormedBlock(b, false, lim) && lim.args < FIRST_TAG && SizeB(b) + 2 < CODE_LIMIT
    ensures !end.Done? <==> Overruns(rt, code, w, turns, stackSize, catchSize)
    ensures AsWritten(lim) && PlainB(b) && SizeB(b) + 2 <= OPERAND_LIMIT ==> end.Done?
    ensures AsWritten(lim) && RestoresB(b, Loose) && end.Done? && result.Some? ==>
              exists fuel: nat :: RunProgram(rt, b, w, fuel) == result
    ensures end.Done? && result.None? ==> Lasts(rt, code, Start(w), turns)
    ensures AsWritten(lim) && RestoresB(b, Loose) ==>
              forall fuel: nat :: RunProgram(rt, b, w, fuel).Some? ==> exists n: nat :: !Lasts(rt, code, Start(w), n)
  {
    hide WellFormedBlock, AsWritten, SizeB, Deepest, ProgramCode, PlainB, RunProgram, Run, Reach, Peak, DepthProgram,
         RestoresB, StaysB, Pushes, Room, Within;
    code, stackSize, catchSize := CompileProgram(b, lim);
    var frame := new StackFrame(rt, code, stackSize, catchSize, w);
    var done;
    end, done := frame.MachEval(turns);
    result := if end.Done? then frame.outcome else None;
    if AsWritten(lim) && PlainB(b) && SizeB(b) + 2 <= OPERAND_LIMIT && !end.Done? {
      PlainFits(rt, code, b, w, done + 1, stackSize);
    }
    if end.Done? && result.Some? {
      ItReaches(rt, code, w, turns, result.value);
    }
    if AsWritten(lim) && RestoresB(b, Loose) {
      forall fuel: nat | RunProgram(rt, b, w, fuel).Some?
        ensures exists n: nat :: !Lasts(rt, code, Start(w), n)
      {
        var r := RunProgram(rt, b, w, fuel).value;
        assert RunProgram(rt, b, w, fuel) == Some(r);
        ItStops(rt, code, w, r);
      }
    }
  }

  lemma PlainFits(rt: Runtime, code: Code, b: Block, w: World, k: nat, stackSize: nat)
    requires ProgramCode(Tables(true, code.constants, code.names), code.ops, b) && PlainB(b)
    requires Peak(DepthProgram(b)) <= stackSize
    ensures Room(Run(rt, code, Running(Start(w)), k), stackSize, Pushes(code.ops, 0, |code.ops|))
  {
    hide ProgramCode, PlainB, Run, Peak, DepthProgram, RestoresB, TrylessB, StaysB, Pushes, Room;
    PlainTrylessB(b);
    TrylessRestoresB(b, Exact);
    PeakIsWithin(rt, code, b, w, k, stackSize);
    OnlyOperands(rt, code, b, w, k, stackSize);
  }

  lemma ItReaches(rt: Runtime, code: Code, w: World, n: nat, r: Final)
    requires Run(rt, code, Running(Start(w)), n) == LankyMachine.Finished(r)
    ensures Reach(rt, code, Start(w), LankyMachine.Finished(r))
  {}

  lemma ItStops(rt: Runtime, code: Code, w: World, r: Final)
    requires Reach(rt, code, Start(w), LankyMachine.Finished(r))
    ensures exists n: nat :: !Lasts(rt, code, Start(w), n)
  {
    var n: nat :| Run(rt, code, Running(Start(w)), n) == LankyMachine.Finished(r);
    assert !Lasts(rt, code, Start(w), n);
  }
}

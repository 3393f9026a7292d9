/** The compiler (src/compiler/ast_compiler.c): one pass over the tree that appends to
    the running lists, then the replacement of the tags by addresses. */
module LankyCompiler {
  import opened Sequences
  import opened LankySyntax
  import opened LankyMachine
  import opened LankyLayout
  import opened LankyCarry
  import opened LankyTags
  import opened Doubles
  import opened LankyAddresses
  import opened LankyAssembly
  import opened LankyConstants

  class CompilerWrapper {
    var rops: seq<int>
    var rcon: seq<Constant>
    var rnames: seq<string>
    var loopStartStack: seq<int>
    var loopEndStack: seq<int>
    var saveVal: bool
    var ifTag: int
    ghost var marked: set<int>
    ghost var open: set<int>
    ghost var seen: seq<Constant>
    ghost const lim: Limits

    ghost function Now(): Snap
      reads this
    {
      Snap(rops, rcon, rnames, ifTag, marked, open, AsWritten(lim))
    }

    ghost predicate Valid()
      reads this
    {
      Sound(Now(), loopStartStack, loopEndStack, lim) && rcon == InternAll(seen) && lim.args < FIRST_TAG
    }

    /** The loops around. */
    ghost function Around(): set<int>
      reads this
    {
      Tags(loopStartStack, loopEndStack)
    }

    /** A tag handed out and not marked yet. */
    ghost predicate Pending(t: int)
      reads this
    {
      FIRST_TAG <= t < ifTag && t !in marked && t !in Around()
    }

    constructor (ghost lim: Limits)
      requires lim.args < FIRST_TAG
      ensures Valid() && this.lim == lim && seen == []
      ensures Now() == Snap([], [], [], FIRST_TAG, {}, {}, AsWritten(lim)) && loopStartStack == loopEndStack == []
    {
      rops, rcon, rnames := [], [], [];
      loopStartStack, loopEndStack := [], [];
      saveVal, ifTag := false, FIRST_TAG;
      marked, open := {}, {};
      seen, this.lim := [], lim;
    }

    // ----- appending -----

    method AppendOp(ins: int)
      modifies this`rops
      ensures rops == old(rops) + [ins]
    {
      rops := rops + [ins];
    }

    /** An instruction without operand, or a number that is no tag. */
    method AppendByte(b: int)
      requires Valid() && 0 <= b < FIRST_TAG
      modifies this`rops
      ensures Valid() && Did(old(Now()), Now(), {}, {})
      ensures |rops| == old(|rops|) + 1 && At(rops, old(|rops|), b)
    {
      hide Listed;
      AppendOp(b);
      ListedBytes(old(Now()), [b], Now());
    }

    method AppendOperator(op: BinOp)
      requires Valid()
      modifies this`rops
      ensures Valid() && Did(old(Now()), Now(), {}, {})
      ensures |rops| == old(|rops|) + 1 && At(rops, old(|rops|), BinaryOpcode(op))
    {
      hide Sound, AsWritten, InternAll, Did, At;
      AppendByte(BinaryOpcode(op));
    }

    /** An instruction with a four-byte operand, before the lists are in order again. */
    method AppendFive(o: int, n: int)
      modifies this`rops
      ensures rops == old(rops) + ([o] + LittleEndian(n))
    {
      var buf := LittleEndian(n);
      AppendOp(o);
      AppendOp(buf[0]);
      AppendOp(buf[1]);
      AppendOp(buf[2]);
      AppendOp(buf[3]);
    }

    method AppendWide(o: int, n: int)
      requires Valid() && 0 <= o < 256 && 0 <= n < CODE_LIMIT
      modifies this`rops
      ensures Valid() && Did(old(Now()), Now(), {}, {})
      ensures |rops| == old(|rops|) + 5 && Wide(rops, old(|rops|), o, n)
    {
      hide Listed, Operand;
      ghost var p := |rops|;
      AppendFive(o, n);
      assert rops[p + 1..p + 5] == LittleEndian(n);
      LittleEndianDecodes(rops, p + 1, n);
      ListedBytes(old(Now()), [o] + LittleEndian(n), Now());
    }

    /** A jump to a tag: the tag and three placeholders, for the address to come. */
    method AppendJump(o: int, tag: int)
      requires Valid() && 0 <= o < 256 && FIRST_TAG <= tag < ifTag && tag !in marked
      modifies this`rops, this`open
      ensures Valid() && Did(old(Now()), Now(), {tag}, {})
      ensures |rops| == old(|rops|) + 5 && Jumps(rops, old(|rops|), o, tag)
    {
      hide Listed;
      AppendOp(o);
      AppendOp(tag);
      AppendOp(-1);
      AppendOp(-1);
      AppendOp(-1);
      open := open + {tag};
      assert rops == old(rops) + [o, tag, -1, -1, -1];
      ListedUse(old(Now()), o, tag, Now());
    }

    /** The place a tag stands for. */
    method AppendMarker(tag: int)
      requires Valid() && Pending(tag)
      modifies this`rops, this`open, this`marked
      ensures Valid() && Did(old(Now()), Now(), {}, {tag})
      ensures |rops| == old(|rops|) + 1 && IsMarker(rops, old(|rops|)) && rops[old(|rops|)] == tag
    {
      hide Listed;
      AppendOp(tag);
      open, marked := open - {tag}, marked + {tag};
      ListedMark(old(Now()), tag, Now());
    }

    method NextIfTag() returns (tag: int)
      requires Valid()
      modifies this`ifTag
      ensures Valid() && Did(old(Now()), Now(), {}, {}) && rops == old(rops)
      ensures tag == old(ifTag) && ifTag == tag + 1 && Pending(tag)
    {
      hide InList, MarkersLast, AllMarkedIn, Closed;
      tag := ifTag;
      ifTag := ifTag + 1;
      ListedTag(old(Now()));
    }

    // ----- names and constants -----

    method FindPrevName(name: string) returns (i: int)
      ensures i < |rnames| && if i < 0 then name !in rnames else rnames[i] == name && name !in rnames[..i]
    {
      i := 0;
      while i < |rnames|
        invariant 0 <= i <= |rnames| && name !in rnames[..i]
      {
        if rnames[i] == name {
          return;
        }
        i := i + 1;
      }
      i := -1;
    }

    method FindPrevConst(c: Constant) returns (i: int)
      ensures i < |rcon| && if i < 0 then forall d <- rcon :: !SameConstant(c, d)
                            else SameConstant(c, rcon[i]) && forall d <- rcon[..i] :: !SameConstant(c, d)
    {
      i := 0;
      while i < |rcon|
        invariant 0 <= i <= |rcon| && forall d <- rcon[..i] :: !SameConstant(c, d)
      {
        if SameConstant(c, rcon[i]) {
          return;
        }
        i := i + 1;
      }
      i := -1;
    }

    /** append_var_info at the top level: every variable lives in a bucket. */
    method AppendVarInfo(name: string, load: bool)
      requires Valid() && |rops| < CODE_LIMIT
      modifies this`rops, this`rnames
      ensures Valid() && Did(old(Now()), Now(), {}, {})
      ensures |rops| == old(|rops|) + 5
              && NameAt(K(Now()), rops, old(|rops|), if load then LOAD_CLOSE else SAVE_CLOSE, name)
    {
      hide Listed, Operand, At;
      ghost var p, s0 := |rops|, Now();
      var i := FindPrevName(name);
      if i < 0 {
        i := |rnames|;
        rnames := rnames + [name];
      }
      var o := if load then LOAD_CLOSE else SAVE_CLOSE;
      AppendFive(o, i);
      FiveAppended(s0.ops, o, i, rops);
      ListedBytes(s0, [o] + LittleEndian(i), Now());
    }

    /** The place of a constant in the table, which is added if none is the same. */
    method InternConstant(c: Constant) returns (i: nat)
      modifies this`rcon
      ensures (rcon, i) == Intern(c, old(rcon))
    {
      var found := FindPrevConst(c);
      if found < 0 {
        i := |rcon|;
        rcon := rcon + [c];
      } else {
        i := found;
      }
    }

    method CompileConstant(c: Constant)
      requires Valid() && |rops| < CODE_LIMIT && Known([c], lim.ints)
      modifies this`rops, this`rcon, this`seen
      ensures Valid() && Did(old(Now()), Now(), {}, {})
      ensures |rops| == old(|rops|) + 5 && ConstAt(K(Now()), rops, old(|rops|), c)
      ensures seen == old(seen) + [c]
    {
      hide Listed, Operand, At, SameConstant, ToldApart, FirstSame, InternAll;
      ghost var p, s0 := |rops|, Now();
      assert c in [c];
      var i := InternConstant(c);
      if i < |s0.consts| && AsWritten(lim) {
        SameMeansEqual(c, rcon[i], lim.ints);
      }
      SameAsItself(c);
      seen := seen + [c];
      InternedNext(old(seen), c);
      AppendFive(LOAD_CONST, i);
      FiveAppended(s0.ops, LOAD_CONST, i, rops);
      ListedBytes(s0, [LOAD_CONST] + LittleEndian(i), Now());
    }

    // ----- expressions -----

    method Compile(e: Expr)
      requires Valid() && Fits(e, lim) && |rops| + SizeE(e) < CODE_LIMIT
      modifies this`rops, this`rcon, this`seen, this`rnames, this`ifTag, this`marked, this`open
      ensures Valid() && Did(old(Now()), Now(), {}, {})
      ensures |rops| == old(|rops|) + SizeE(e) && CodeE(K(Now()), rops, old(|rops|), e)
      ensures seen == ConstantsE(old(seen), e)
      decreases SizeE(e), 2
    {
      hide Sound, AsWritten, InternAll, Did, ConstAt, NameAt, CodeUnary, CodeBinary, CodeCond, CodeTernary, CodeAssign,
           CodeArray, CodeIndex, CodeSetIndex, CodeUpdate, CodeCall, At;
      match e {
        case Const(c) => CompileConstant(c);
        case Var(name) => AppendVarInfo(name, true);
        case NilLit => AppendByte(PUSH_NIL);
        case BoolLit(b) => CompileBool(b);
        case Unary(op, a) => CompileUnary(op, a);
        case Binary(op, a, b) => CompileBinary(op, a, b);
        case Cond(op, a, b) => CompileCond(op, a, b);
        case Ternary(a, b, c) => CompileTernary(a, b, c);
        case Assign(name, a) => CompileAssign(name, a);
        case ArrayLit(es) => CompileArray(es);
        case Index(t, i) => CompileIndex(t, i);
        case SetIndex(t, i, v) => CompileSetIndex(t, i, v);
        case Update(op, t, i, v) => CompileTripleSet(op, t, i, v);
        case Call(es, f) => CompileFunctionCall(es, f);
      }
    }

    method CompileBool(b: bool)
      requires Valid()
      modifies this`rops
      ensures Valid() && Did(old(Now()), Now(), {}, {}) && |rops| == old(|rops|) + 2
      ensures At(rops, old(|rops|), PUSH_BOOL) && At(rops, old(|rops|) + 1, if b then 1 else 0)
    {
      hide Sound, AsWritten, InternAll, Did, Extends, At;
      ghost var s0, p := Now(), |rops|;
      AppendByte(PUSH_BOOL);
      ghost var s1 := Now();
      AppendByte(if b then 1 else 0);
      ghost var s2 := Now();
      DidThen(s0, s1, s2);
      KeepAt(s1, s2, p, PUSH_BOOL);
    }

    method CompileUnary(op: UnOp, a: Expr)
      requires Valid() && Fits(a, lim) && |rops| + SizeE(a) + 1 < CODE_LIMIT
      modifies this`rops, this`rcon, this`seen, this`rnames, this`ifTag, this`marked, this`open
      ensures Valid() && Did(old(Now()), Now(), {}, {})
      ensures |rops| == old(|rops|) + SizeE(a) + 1 && CodeUnary(K(Now()), rops, old(|rops|), op, a)
      ensures seen == ConstantsE(old(seen), a)
      decreases SizeE(a) + 1, 0
    {
      hide Sound, AsWritten, InternAll, Did, Extends, Fits, At, CodeE, SizeE, ConstantsE, ConstantsAll, ConstantsB;
      ghost var s0, p := Now(), |rops|;
      Compile(a);
      ghost var s1 := Now();
      AppendByte(UnaryOpcode(op));
      ghost var s2 := Now();
      DidThen(s0, s1, s2);
      KeepE(s1, s2, p, a);
    }

    method CompileBinary(op: BinOp, a: Expr, b: Expr)
      requires Valid() && Fits(a, lim) && Fits(b, lim) && |rops| + SizeE(a) + SizeE(b) + 1 < CODE_LIMIT
      modifies this`rops, this`rcon, this`seen, this`rnames, this`ifTag, this`marked, this`open
      ensures Valid() && Did(old(Now()), Now(), {}, {})
      ensures |rops| == old(|rops|) + SizeE(a) + SizeE(b) + 1 && CodeBinary(K(Now()), rops, old(|rops|), op, a, b)
      ensures seen == ConstantsE(ConstantsE(old(seen), a), b)
      decreases SizeE(a) + SizeE(b) + 1, 0
    {
      hide Sound, AsWritten, InternAll, Did, Extends, Fits, At, CodeE, SizeE, BinaryOpcode, ConstantsE, ConstantsAll,
           ConstantsB;
      ghost var s0, p := Now(), |rops|;
      Compile(a);
      ghost var s1 := Now();
      Compile(b);
      ghost var s2 := Now();
      AppendOperator(op);
      ghost var s3 := Now();
      DidThen(s1, s2, s3);
      DidThen(s0, s1, s3);
      KeepE(s1, s3, p, a);
      KeepE(s2, s3, p + SizeE(a), b);
    }

    method CompileAssign(name: string, a: Expr)
      requires Valid() && Fits(a, lim) && |rops| + SizeE(a) + 5 < CODE_LIMIT
      modifies this`rops, this`rcon, this`seen, this`rnames, this`ifTag, this`marked, this`open
      ensures Valid() && Did(old(Now()), Now(), {}, {})
      ensures |rops| == old(|rops|) + SizeE(a) + 5 && CodeAssign(K(Now()), rops, old(|rops|), name, a)
      ensures seen == ConstantsE(old(seen), a)
      decreases SizeE(a) + 5, 0
    {
      hide Sound, AsWritten, InternAll, Did, Extends, Fits, NameAt, CodeE, SizeE, ConstantsE, ConstantsAll, ConstantsB;
      ghost var s0, p := Now(), |rops|;
      Compile(a);
      ghost var s1 := Now();
      AppendVarInfo(name, false);
      ghost var s2 := Now();
      DidThen(s0, s1, s2);
      KeepE(s1, s2, p, a);
    }

    method CompileIndex(t: Expr, i: Expr)
      requires Valid() && Fits(t, lim) && Fits(i, lim) && |rops| + SizeE(t) + SizeE(i) + 1 < CODE_LIMIT
      modifies this`rops, this`rcon, this`seen, this`rnames, this`ifTag, this`marked, this`open
      ensures Valid() && Did(old(Now()), Now(), {}, {})
      ensures |rops| == old(|rops|) + SizeE(t) + SizeE(i) + 1 && CodeIndex(K(Now()), rops, old(|rops|), t, i)
      ensures seen == ConstantsE(ConstantsE(old(seen), t), i)
      decreases SizeE(t) + SizeE(i) + 1, 0
    {
      hide Sound, AsWritten, InternAll, Did, Extends, Fits, At, CodeE, SizeE, ConstantsE, ConstantsAll, ConstantsB;
      ghost var s0, p := Now(), |rops|;
      Compile(t);
      ghost var s1 := Now();
      Compile(i);
      ghost var s2 := Now();
      AppendByte(LOAD_INDEX);
      ghost var s3 := Now();
      DidThen(s1, s2, s3);
      DidThen(s0, s1, s3);
      KeepE(s1, s3, p, t);
      KeepE(s2, s3, p + SizeE(t), i);
    }

    method CompileSetIndex(t: Expr, i: Expr, v: Expr)
      requires Valid() && Fits(t, lim) && Fits(i, lim) && Fits(v, lim)
               && |rops| + SizeE(v) + SizeE(t) + SizeE(i) + 1 < CODE_LIMIT
      modifies this`rops, this`rcon, this`seen, this`rnames, this`ifTag, this`marked, this`open
      ensures Valid() && Did(old(Now()), Now(), {}, {})
      ensures |rops| == old(|rops|) + SizeE(v) + SizeE(t) + SizeE(i) + 1
              && CodeSetIndex(K(Now()), rops, old(|rops|), t, i, v)
      ensures seen == ConstantsE(ConstantsE(ConstantsE(old(seen), v), t), i)
      decreases SizeE(v) + SizeE(t) + SizeE(i) + 1, 0
    {
      hide Sound, AsWritten, InternAll, Did, Extends, Fits, At, CodeE, SizeE, ConstantsE, ConstantsAll, ConstantsB;
      ghost var s0, p := Now(), |rops|;
      Compile(v);
      ghost var s1 := Now();
      Compile(t);
      ghost var s2 := Now();
      Compile(i);
      ghost var s3 := Now();
      AppendByte(SAVE_INDEX);
      ghost var s4 := Now();
      DidThen(s2, s3, s4);
      DidThen(s1, s2, s4);
      DidThen(s0, s1, s4);
      KeepE(s1, s4, p, v);
      KeepE(s2, s4, p + SizeE(v), t);
      KeepE(s3, s4, p + SizeE(v) + SizeE(t), i);
    }

    method CompileTripleSet(op: BinOp, t: Expr, i: Expr, v: Expr)
      requires Valid() && Fits(t, lim) && Fits(i, lim) && Fits(v, lim)
               && |rops| + SizeE(t) + SizeE(i) + 2 + SizeE(v) + 3 < CODE_LIMIT
      modifies this`rops, this`rcon, this`seen, this`rnames, this`ifTag, this`marked, this`open
      ensures Valid() && Did(old(Now()), Now(), {}, {})
      ensures |rops| == old(|rops|) + SizeE(t) + SizeE(i) + 2 + SizeE(v) + 3
              && CodeUpdate(K(Now()), rops, old(|rops|), op, t, i, v)
      ensures seen == ConstantsE(ConstantsE(ConstantsE(old(seen), t), i), v)
      decreases SizeE(t) + SizeE(i) + 2 + SizeE(v) + 3, 0
    {
      hide Sound, AsWritten, InternAll, Did, Extends, Fits, At, CodeE, CodeUpdate, SizeE, BinaryOpcode, ConstantsE,
           ConstantsAll, ConstantsB;
      ghost var s0, p := Now(), |rops|;
      Compile(t);
      ghost var s1 := Now();
      Compile(i);
      ghost var s2 := Now();
      AppendByte(DDUPLICATE);
      ghost var s3 := Now();
      AppendByte(LOAD_INDEX);
      ghost var s4 := Now();
      Compile(v);
      ghost var s5 := Now();
      AppendOperator(op);
      ghost var s6 := Now();
      AppendByte(SINK_FIRST);
      ghost var s7 := Now();
      AppendByte(SAVE_INDEX);
      ghost var s8 := Now();
      DidThen(s6, s7, s8);
      DidThen(s5, s6, s8);
      DidThen(s4, s5, s8);
      DidThen(s3, s4, s8);
      DidThen(s2, s3, s8);
      DidThen(s1, s2, s8);
      DidThen(s0, s1, s8);
      UpdateMade(p, op, t, i, v, s1, s2, s3, s4, s5, s6, s7, s8);
    }

    method CompileCond(op: CondOp, a: Expr, b: Expr)
      requires Valid() && Fits(a, lim) && Fits(b, lim) && |rops| + SizeE(Cond(op, a, b)) < CODE_LIMIT
      modifies this`rops, this`rcon, this`seen, this`rnames, this`ifTag, this`marked, this`open
      ensures Valid() && Did(old(Now()), Now(), {}, {}) && |rops| == old(|rops|) + SizeE(Cond(op, a, b))
      ensures CodeCond(K(Now()), rops, old(|rops|), op, a, b, |rops| - 1)
      ensures seen == ConstantsE(ConstantsE(old(seen), a), b)
      decreases SizeE(Cond(op, a, b)), 1
    {
      hide Sound, AsWritten, InternAll, Did, Extends, Fits, SizeE, CodeCond, ConstantsE, ConstantsAll, ConstantsB;
      ghost var s0 := Now();
      var tagOut := NextIfTag();
      ghost var s1 := Now();
      CompileCondEx(op, a, b, tagOut);
      DidTrans(s0, {}, {}, s1, {}, {tagOut}, Now(), {}, {});
    }

    /** All links of a chain leave through the one tag. */
    method CompileCondEx(op: CondOp, a: Expr, b: Expr, tagOut: int)
      requires Valid() && Fits(a, lim) && Fits(b, lim) && |rops| + SizeE(Cond(op, a, b)) < CODE_LIMIT
      requires Pending(tagOut)
      modifies this`rops, this`rcon, this`seen, this`rnames, this`ifTag, this`marked, this`open
      ensures Valid() && Did(old(Now()), Now(), {}, {tagOut}) && |rops| == old(|rops|) + SizeE(Cond(op, a, b))
      ensures CodeCond(K(Now()), rops, old(|rops|), op, a, b, |rops| - 1)
      ensures IsMarker(rops, |rops| - 1) && rops[|rops| - 1] == tagOut
      ensures seen == ConstantsE(ConstantsE(old(seen), a), b)
      decreases SizeE(Cond(op, a, b)), 0
    {
      hide Sound, AsWritten, InternAll, Did, Extends, SizeE, CodeE, CodeCond, Jumps, IsMarker, JumpTo, ConstantsE,
           ConstantsAll, ConstantsB;
      ghost var s0, p := Now(), |rops|;
      CondSize(op, a, b);
      Compile(a);
      ghost var s1 := Now();
      StillPending(s0, s1, {}, {}, tagOut);
      AppendJump(CondOpcode(op), tagOut);
      ghost var s2, q := Now(), |rops|;
      StillPending(s1, s2, {tagOut}, {}, tagOut);
      if b.Cond? {
        CondConstants(seen, b);
        CompileCondEx(b.cop, b.left, b.right, tagOut);
      } else {
        Compile(b);
        ghost var s3 := Now();
        StillPending(s2, s3, {}, {}, tagOut);
        AppendMarker(tagOut);
        ghost var s4 := Now();
        DidTrans(s2, {}, {}, s3, {}, {tagOut}, s4, {}, {tagOut});
        KeepE(s3, s4, q, b);
        MarkHere(s4, |rops| - 1);
      }
      ghost var s5 := Now();
      DidTrans(s1, {tagOut}, {}, s2, {}, {tagOut}, s5, {}, {tagOut});
      DidTrans(s0, {}, {}, s1, {}, {tagOut}, s5, {}, {tagOut});
      KeepE(s1, s5, p, a);
      JumpMade(s2, s5, p + SizeE(a), CondOpcode(op), tagOut, |rops| - 1);
      CondMade(K(s5), rops, p, op, a, b, |rops| - 1);
    }

    method CompileTernary(a: Expr, b: Expr, c: Expr)
      requires Valid() && Fits(a, lim) && Fits(b, lim) && Fits(c, lim)
      requires |rops| + SizeE(Ternary(a, b, c)) < CODE_LIMIT
      modifies this`rops, this`rcon, this`seen, this`rnames, this`ifTag, this`marked, this`open
      ensures Valid() && Did(old(Now()), Now(), {}, {}) && |rops| == old(|rops|) + SizeE(Ternary(a, b, c))
      ensures CodeTernary(K(Now()), rops, old(|rops|), a, b, c)
      ensures seen == ConstantsE(ConstantsE(ConstantsE(old(seen), a), b), c)
      decreases SizeE(Ternary(a, b, c)), 1
    {
      hide Sound, AsWritten, InternAll, Did, Extends, Fits, SizeE, CodeTernary, ConstantsE, ConstantsAll, ConstantsB;
      ghost var s0 := Now();
      var tagNext := NextIfTag();
      ghost var s1 := Now();
      var tagOut := NextIfTag();
      ghost var s2, both := Now(), {tagNext, tagOut};
      StillPending(s1, s2, {}, {}, tagNext);
      CompileBranches(a, b, c, tagNext, tagOut);
      ghost var s3 := Now();
      DidTrans(s1, {}, {}, s2, {}, both, s3, {}, both);
      DidTrans(s0, {}, {}, s1, {}, both, s3, {}, {});
    }

    method CompileBranches(a: Expr, b: Expr, c: Expr, tagNext: int, tagOut: int)
      requires Valid() && Fits(a, lim) && Fits(b, lim) && Fits(c, lim)
      requires |rops| + SizeE(Ternary(a, b, c)) < CODE_LIMIT
      requires Pending(tagNext) && Pending(tagOut) && tagNext != tagOut
      modifies this`rops, this`rcon, this`seen, this`rnames, this`ifTag, this`marked, this`open
      ensures Valid() && Did(old(Now()), Now(), {}, {tagNext, tagOut})
      ensures |rops| == old(|rops|) + SizeE(Ternary(a, b, c)) && CodeTernary(K(Now()), rops, old(|rops|), a, b, c)
      ensures seen == ConstantsE(ConstantsE(ConstantsE(old(seen), a), b), c)
      decreases SizeE(Ternary(a, b, c)), 0
    {
      hide Sound, AsWritten, InternAll, Did, Extends, Fits, SizeE, CodeE, CodeTernary, Jumps, IsMarker, JumpTo,
           ConstantsE, ConstantsAll, ConstantsB;
      ghost var s0, p := Now(), |rops|;
      TernarySize(a, b, c);
      Compile(a);
      ghost var s1 := Now();
      StillPending(s0, s1, {}, {}, tagNext);
      StillPending(s0, s1, {}, {}, tagOut);
      AppendJump(JUMP_FALSE, tagNext);
      ghost var s2 := Now();
      StillPending(s1, s2, {tagNext}, {}, tagNext);
      StillPending(s1, s2, {tagNext}, {}, tagOut);
      Compile(b);
      ghost var s3 := Now();
      StillPending(s2, s3, {}, {}, tagNext);
      StillPending(s2, s3, {}, {}, tagOut);
      AppendJump(JUMP, tagOut);
      ghost var s4 := Now();
      StillPending(s3, s4, {tagOut}, {}, tagNext);
      StillPending(s3, s4, {tagOut}, {}, tagOut);
      AppendMarker(tagNext);
      ghost var s5 := Now();
      StillPending(s4, s5, {}, {tagNext}, tagOut);
      Compile(c);
      ghost var s6 := Now();
      StillPending(s5, s6, {}, {}, tagOut);
      AppendMarker(tagOut);
      ghost var s7, both := Now(), {tagNext, tagOut};
      DidTrans(s5, {}, {}, s6, {}, {tagOut}, s7, {}, {tagOut});
      DidTrans(s4, {}, {tagNext}, s5, {}, {tagOut}, s7, {}, both);
      DidTrans(s3, {tagOut}, {}, s4, {}, both, s7, {}, both);
      DidTrans(s2, {}, {}, s3, {}, both, s7, {}, both);
      DidTrans(s1, {tagNext}, {}, s2, {}, both, s7, {}, both);
      DidTrans(s0, {}, {}, s1, {}, both, s7, {}, both);
      TernaryMade(p, a, b, c, tagNext, tagOut, s1, s2, s3, s4, s5, s6, s7);
    }

    // ----- lists of expressions -----

    /** The elements of an array, the arguments of a call. */
    method CompileList(es: Exprs) returns (ct: nat)
      requires Valid() && AllFit(es, lim) && |rops| + SizeAll(es) < CODE_LIMIT
      modifies this`rops, this`rcon, this`seen, this`rnames, this`ifTag, this`marked, this`open
      ensures Valid() && Did(old(Now()), Now(), {}, {}) && |rops| == old(|rops|) + SizeAll(es)
      ensures ct == Count(es) && CodeAll(K(Now()), rops, old(|rops|), es)
      ensures seen == ConstantsAll(old(seen), es)
      decreases SizeAll(es), 3
    {
      hide Sound, AsWritten, InternAll, Did, Extends, Fits, SizeE, CodeE, CodedUpTo, CodeAll;
      ghost var s0, p := Now(), |rops|;
      var list := es;
      ct := 0;
      ListBegins(s0, es);
      while list.More?
        invariant Valid() && Did(s0, Now(), {}, {}) && |rops| >= p
        invariant AllFit(list, lim) && |rops| + SizeAll(list) == p + SizeAll(es) && ct + Count(list) == Count(es)
        invariant CodedUpTo(K(Now()), rops, p, es, list, |rops|)
                  && ConstantsAll(seen, list) == ConstantsAll(old(seen), es)
        invariant list == es || list < es
        decreases list
      {
        ghost var s1, q := Now(), |rops|;
        Compile(list.head);
        ghost var s2 := Now();
        DidThen(s0, s1, s2);
        KeepUpTo(s1, s2, p, es, list, q);
        OneMore(K(s2), rops, p, es, list, q);
        ct := ct + 1;
        list := list.tail;
      }
      AllCoded(K(Now()), rops, p, es, |rops|);
    }

    method CompileArray(es: Exprs)
      requires Valid() && AllFit(es, lim) && |rops| + SizeAll(es) + 5 < CODE_LIMIT
      modifies this`rops, this`rcon, this`seen, this`rnames, this`ifTag, this`marked, this`open
      ensures Valid() && Did(old(Now()), Now(), {}, {}) && |rops| == old(|rops|) + SizeAll(es) + 5
      ensures CodeArray(K(Now()), rops, old(|rops|), es)
      ensures seen == ConstantsAll(old(seen), es)
      decreases SizeAll(es) + 5, 0
    {
      hide Sound, AsWritten, InternAll, Did, Extends, AllFit, SizeAll, CodeAll, Wide, Count, ConstantsE, ConstantsAll,
           ConstantsB;
      ghost var s0, p := Now(), |rops|;
      var ct := CompileList(es);
      ghost var s1 := Now();
      CountBound(es);
      AppendWide(MAKE_ARRAY, ct);
      ghost var s2 := Now();
      DidThen(s0, s1, s2);
      KeepAll(s1, s2, p, es);
    }

    method CompileFunctionCall(es: Exprs, f: Expr)
      requires Valid() && AllFit(es, lim) && Fits(f, lim) && Count(es) <= lim.args
      requires |rops| + SizeAll(es) + SizeE(f) + 2 < CODE_LIMIT
      modifies this`rops, this`rcon, this`seen, this`rnames, this`ifTag, this`marked, this`open
      ensures Valid() && Did(old(Now()), Now(), {}, {}) && |rops| == old(|rops|) + SizeAll(es) + SizeE(f) + 2
      ensures CodeCall(K(Now()), rops, old(|rops|), es, f)
      ensures seen == ConstantsE(ConstantsAll(old(seen), es), f)
      decreases SizeAll(es) + SizeE(f) + 2, 0
    {
      hide Sound, ToldApart, InternAll, Did, Extends, Fits, AllFit, SizeAll, CodeAll, SizeE, CodeE, At, Count,
           ConstantsE, ConstantsAll, ConstantsB;
      ghost var s0, p := Now(), |rops|;
      var ct := CompileList(es);
      ghost var s1 := Now();
      Compile(f);
      ghost var s2 := Now();
      AppendByte(CALL_FUNC);
      ghost var s3 := Now();
      AppendByte(ct);
      ghost var s4 := Now();
      DidThen(s2, s3, s4);
      DidThen(s1, s2, s4);
      DidThen(s0, s1, s4);
      KeepAll(s1, s4, p, es);
      KeepE(s2, s4, p + SizeAll(es), f);
      KeepAt(s3, s4, p + SizeAll(es) + SizeE(f), CALL_FUNC);
    }

    // ----- statements -----

    /** An optional expression for its effect. */
    method CompileMaybe(e: Option<Expr>)
      requires Valid() && MaybeFits(e, lim) && |rops| + SizeMaybe(e) < CODE_LIMIT
      modifies this`rops, this`rcon, this`seen, this`rnames, this`ifTag, this`marked, this`open, this`saveVal
      ensures Valid() && Did(old(Now()), Now(), {}, {}) && |rops| == old(|rops|) + SizeMaybe(e)
      ensures CodeMaybe(K(Now()), rops, old(|rops|), e) && saveVal == old(saveVal)
      ensures seen == ConstantsMaybe(old(seen), e)
    {
      hide Sound, AsWritten, InternAll, Did, Extends, Fits, SizeE, CodeE, At, ConstantsE, ConstantsAll, ConstantsB;
      ghost var s0, p := Now(), |rops|;
      DidNothing(s0);
      if e.Some? {
        var save := saveVal;
        saveVal := false;
        Compile(e.value);
        ghost var s1 := Now();
        if !saveVal {
          AppendByte(POP);
        }
        saveVal := save;
        DidThen(s0, s1, Now());
        KeepE(s1, Now(), p, e.value);
      }
    }

    /** An expression and an instruction that uses its value up. */
    method CompileThen(e: Expr, o: int)
      requires Valid() && Fits(e, lim) && 0 <= o < 256 && |rops| + SizeE(e) + 1 < CODE_LIMIT
      modifies this`rops, this`rcon, this`seen, this`rnames, this`ifTag, this`marked, this`open
      ensures Valid() && Did(old(Now()), Now(), {}, {}) && |rops| == old(|rops|) + SizeE(e) + 1
      ensures CodeE(K(Now()), rops, old(|rops|), e) && At(rops, old(|rops|) + SizeE(e), o)
      ensures seen == ConstantsE(old(seen), e)
    {
      hide Sound, AsWritten, InternAll, Did, Extends, Fits, SizeE, CodeE, At, ConstantsE, ConstantsAll, ConstantsB;
      ghost var s0, p := Now(), |rops|;
      Compile(e);
      ghost var s1 := Now();
      AppendByte(o);
      DidThen(s0, s1, Now());
      KeepE(s1, Now(), p, e);
    }

    method CompileReturn(e: Option<Expr>)
      requires Valid() && MaybeFits(e, lim) && |rops| + (if e.Some? then SizeE(e.value) else 1) + 1 < CODE_LIMIT
      modifies this`rops, this`rcon, this`seen, this`rnames, this`ifTag, this`marked, this`open
      ensures Valid() && Did(old(Now()), Now(), {}, {})
      ensures |rops| == old(|rops|) + (if e.Some? then SizeE(e.value) else 1) + 1
      ensures CodeReturn(K(Now()), rops, old(|rops|), e)
      ensures seen == ConstantsMaybe(old(seen), e)
    {
      hide Sound, AsWritten, InternAll, Did, Extends, Fits, SizeE, CodeE, At, ConstantsE, ConstantsAll, ConstantsB;
      ghost var s0, p := Now(), |rops|;
      if e.Some? {
        CompileThen(e.value, RETURN);
      } else {
        AppendByte(PUSH_NIL);
        ghost var s1 := Now();
        AppendByte(RETURN);
        DidThen(s0, s1, Now());
        KeepAt(s1, Now(), p, PUSH_NIL);
      }
    }

    /** break and continue: a jump to a tag of the loop around. */
    method CompileOneOff(breaks: bool)
      requires Valid() && loopEndStack != []
      modifies this`rops, this`open
      ensures Valid() && Did(old(Now()), Now(), Around(), {}) && |rops| == old(|rops|) + 5
      ensures JumpRef(K(Now()), rops, old(|rops|), Innermost(if breaks then loopEndStack else loopStartStack))
    {
      hide Sound, AsWritten, InternAll, Did, Extends, Slots;
      ghost var s0 := Now();
      SoundStacks(s0, loopStartStack, loopEndStack, lim);
      var jix := if breaks then loopEndStack[|loopEndStack| - 1] else loopStartStack[|loopStartStack| - 1];
      assert jix in Around();
      AppendJump(JUMP, jix);
      DidWider(s0, Now(), {jix}, Around(), {});
    }

    /** The main dispatch, for statements. It leaves behind whether the value of the
        statement is used up. */
    method CompileStmt(s: Stmt)
      requires Valid() && WellFormed(s, loopEndStack != [], lim) && |rops| + SizeS(s) < CODE_LIMIT && !saveVal
      modifies this
      ensures Valid() && loopStartStack == old(loopStartStack) && loopEndStack == old(loopEndStack)
      ensures Did(old(Now()), Now(), Around(), {}) && saveVal == Saves(s)
      ensures |rops| + (if saveVal then 0 else 1) == old(|rops|) + SizeS(s)
      ensures CodeBare(K(Now()), rops, old(|rops|), s, Innermost(loopEndStack), Innermost(loopStartStack))
      ensures seen == ConstantsS(old(seen), s)
      decreases SizeS(s), 2
    {
      hide Sound, AsWritten, InternAll, Did, Extends, Fits, SizeE, CodeE, At, CodeReturn, CodeIf, CodeLoop, CodeForIn,
           CodeTry, JumpRef;
      ghost var s0 := Now();
      match s {
        case Do(e) => Compile(e);
        case Print(e) => CompileThen(e, PRINT); saveVal := true;
        case Return(e) => CompileReturn(e); saveVal := true;
        case Raise(e) => CompileThen(e, RAISE); saveVal := true;
        case If(test, body, rest) => CompileIf(test, body, rest);
        case Loop(init, test, step, body) => CompileLoop(init, test, step, body);
        case ForIn(name, index, e, body) => CompileIterLoop(name, index, e, body);
        case Try(body, name, handler) => CompileTryCatch(body, name, handler);
        case Break => CompileOneOff(true);
        case Continue => CompileOneOff(false);
      }
      if s.Do? || s.Print? || s.Return? || s.Raise? {
        DidWider(s0, Now(), {}, Around(), {});
      }
    }

    /** compile_compound. */
    method CompileCompound(b: Block)
      requires Valid() && WellFormedBlock(b, loopEndStack != [], lim) && |rops| + SizeB(b) < CODE_LIMIT
      modifies this
      ensures Valid() && loopStartStack == old(loopStartStack) && loopEndStack == old(loopEndStack)
      ensures Did(old(Now()), Now(), Around(), {}) && |rops| == old(|rops|) + SizeB(b)
      ensures CodeB(K(Now()), rops, old(|rops|), b, Innermost(loopEndStack), Innermost(loopStartStack))
      ensures seen == ConstantsB(old(seen), b)
      decreases SizeB(b), 3
    {
      hide Sound, AsWritten, InternAll, Did, Extends, WellFormed, SizeS, CodeS, CodeBare, BlockUpTo, CodeB, At;
      ghost var s0, p, brk, cont := Now(), |rops|, Innermost(loopEndStack), Innermost(loopStartStack);
      var root := b;
      BlockBegins(s0, b, Around(), brk, cont);
      while root.Then?
        invariant Valid() && loopStartStack == old(loopStartStack) && loopEndStack == old(loopEndStack)
        invariant Did(s0, Now(), Around(), {}) && |rops| >= p
        invariant WellFormedBlock(root, loopEndStack != [], lim) && |rops| + SizeB(root) == p + SizeB(b)
        invariant BlockUpTo(K(Now()), rops, p, b, root, |rops|, brk, cont)
                  && ConstantsB(seen, root) == ConstantsB(old(seen), b)
        invariant root == b || root < b
        decreases root
      {
        ghost var s1, q := Now(), |rops|;
        saveVal := false;
        CompileStmt(root.first);
        ghost var s2 := Now();
        if !saveVal {
          AppendByte(POP);
          DidWider(s2, Now(), {}, Around(), {});
        } else {
          DidNothing(s2);
          DidWider(s2, s2, {}, Around(), {});
        }
        ghost var s3 := Now();
        AroundThen(s1, s2, s3, Around());
        AroundThen(s0, s1, s3, Around());
        BareDone(s2, s3, q, root.first, brk, cont);
        KeepBlockUpTo(s1, s3, p, b, root, q, brk, cont);
        OneStmtMore(K(s3), rops, p, b, root, q, brk, cont);
        root := root.rest;
      }
      AllStmtsCoded(K(Now()), rops, p, b, |rops|, brk, cont);
    }

    // ----- if -----

    method CompileIf(test: Expr, body: Block, rest: Else)
      requires Valid() && Fits(test, lim) && WellFormedBlock(body, loopEndStack != [], lim)
      requires WellFormedElse(rest, loopEndStack != [], lim) && |rops| + SizeS(If(test, body, rest)) < CODE_LIMIT
      modifies this
      ensures Valid() && loopStartStack == old(loopStartStack) && loopEndStack == old(loopEndStack) && saveVal
      ensures Did(old(Now()), Now(), Around(), {}) && |rops| == old(|rops|) + SizeS(If(test, body, rest))
      ensures CodeIf(K(Now()), rops, old(|rops|), test, body, rest, Innermost(loopEndStack), Innermost(loopStartStack))
      ensures seen == ConstantsElse(ConstantsB(ConstantsE(old(seen), test), body), rest)
      decreases SizeS(If(test, body, rest)), 1
    {
      hide Sound, AsWritten, InternAll, Tags, Did, Extends, Fits, WellFormedBlock, WellFormedElse, SizeE, SizeB,
           SizeElse, CodeE, CodeB, CodeElse, CodeIf, Jumps, IsMarker, ConstantsE, ConstantsB;
      ghost var before, p := Now(), |rops|;
      var tagNext := NextIfTag();
      ghost var between := Now();
      var tagOut := NextIfTag();
      ghost var s0, both := Now(), {tagNext, tagOut};
      StillPending(between, s0, {}, {}, tagNext);
      if rest.NoElse? {
        CompileSingleIf(Some(test), body, tagNext, tagNext);
        ghost var s1 := Now();
        StillPending(s0, s1, Around() + {tagNext, tagNext}, {}, tagNext);
        AppendMarker(tagNext);
        ghost var s2 := Now();
        DidTrans(s0, Around() + {tagNext, tagNext}, {}, s1, {}, {tagNext}, s2, Around(), {tagNext});
        DidTrans(between, {}, {}, s0, Around(), {tagNext}, s2, Around(), {tagNext});
        DidTrans(before, {}, {}, between, Around(), {tagNext}, s2, Around(), {});
        OneIfMade(p, test, body, Innermost(loopEndStack), Innermost(loopStartStack), tagNext, s1, s2);
      } else {
        CompileSingleIf(Some(test), body, tagOut, tagNext);
        ghost var s1 := Now();
        StillPending(s0, s1, Around() + both, {}, tagNext);
        StillPending(s0, s1, Around() + both, {}, tagOut);
        CompileRest(rest, tagNext, tagOut);
        ghost var s2 := Now();
        DidTrans(s0, Around() + both, {}, s1, Around(), both, s2, Around(), both);
        DidTrans(between, {}, {}, s0, Around(), both, s2, Around(), both);
        DidTrans(before, {}, {}, between, Around(), both, s2, Around(), {});
        IfMade(p, test, body, rest, Innermost(loopEndStack), Innermost(loopStartStack), tagNext, tagOut, s1, s2);
      }
      saveVal := true;
    }

    /** compile_single_if: a condition and its body; the else has no condition. */
    method CompileSingleIf(test: Option<Expr>, body: Block, tagOut: int, tagNext: int)
      requires Valid() && MaybeFits(test, lim) && WellFormedBlock(body, loopEndStack != [], lim)
      requires |rops| + SizeSingle(test, body, tagOut != tagNext) < CODE_LIMIT
      requires Pending(tagOut) && Pending(tagNext)
      modifies this
      ensures Valid() && loopStartStack == old(loopStartStack) && loopEndStack == old(loopEndStack)
      ensures Did(old(Now()), Now(), Around() + {tagNext, tagOut}, {})
      ensures |rops| == old(|rops|) + SizeSingle(test, body, tagOut != tagNext)
      ensures SingleIf(Now(), old(|rops|), test, body, Innermost(loopEndStack), Innermost(loopStartStack), tagOut,
                       tagNext)
      ensures seen == ConstantsB(ConstantsMaybe(old(seen), test), body)
      decreases SizeSingle(test, body, false), 4
    {
      hide Sound, AsWritten, InternAll, Tags, Did, Extends, Fits, WellFormedBlock, SizeE, SizeB, CodeE, CodeB, Jumps,
           ConstantsE, ConstantsAll, ConstantsB;
      ghost var s0, p, a := Now(), |rops|, Around();
      ghost var w, brk, cont := a + {tagNext, tagOut}, Innermost(loopEndStack), Innermost(loopStartStack);
      DidNothing(s0);
      ghost var s1 := s0;
      if test.Some? {
        Compile(test.value);
        s1 := Now();
        StillPending(s0, s1, {}, {}, tagNext);
        AppendJump(JUMP_FALSE, tagNext);
        DidTrans(s0, {}, {}, s1, {tagNext}, {}, Now(), w, {});
        KeepE(s1, Now(), p, test.value);
      } else {
        DidWider(s0, s0, {}, w, {});
      }
      ghost var s2, q := Now(), |rops|;
      StillPending(s0, s2, w, {}, tagOut);
      CompileCompound(body);
      ghost var s3 := Now();
      DidTrans(s0, w, {}, s2, a, {}, s3, w, {});
      StillPending(s2, s3, a, {}, tagOut);
      if tagOut != tagNext && test.Some? {
        AppendJump(JUMP, tagOut);
        DidTrans(s0, w, {}, s3, {tagOut}, {}, Now(), w, {});
        DidTrans(s2, a, {}, s3, {tagOut}, {}, Now(), w, {});
        KeepB(s3, Now(), q, body, brk, cont);
      } else {
        DidExtends(s2, s3, a, {});
      }
      if test.Some? {
        KeepE(s2, Now(), p, test.value);
        KeepJumps(s2, Now(), p + SizeE(test.value), JUMP_FALSE, tagNext);
      }
    }

    /** The elifs and the else, up to the marker that all bodies jump to. */
    method CompileRest(rest: Else, tagNext: int, tagOut: int)
      requires Valid() && !rest.NoElse? && WellFormedElse(rest, loopEndStack != [], lim)
      requires |rops| + SizeElse(rest) + 1 < CODE_LIMIT && Pending(tagNext) && Pending(tagOut) && tagNext != tagOut
      modifies this
      ensures Valid() && loopStartStack == old(loopStartStack) && loopEndStack == old(loopEndStack)
      ensures Did(old(Now()), Now(), Around(), {tagNext, tagOut}) && |rops| == old(|rops|) + SizeElse(rest) + 1
      ensures CodeElse(K(Now()), rops, old(|rops|), rest, |rops| - 1, Innermost(loopEndStack),
                       Innermost(loopStartStack))
      ensures IsMarker(rops, old(|rops|)) && rops[old(|rops|)] == tagNext
      ensures IsMarker(rops, |rops| - 1) && rops[|rops| - 1] == tagOut
      ensures seen == ConstantsElse(old(seen), rest)
      decreases SizeElse(rest), 0
    {
      hide Sound, AsWritten, InternAll, Tags, Did, Extends, Fits, WellFormedBlock, SizeE, SizeB, CodeE, CodeB,
           CodeElse, SingleIf, IsMarker, Jumps, ConstantsE, ConstantsB;
      ghost var s0, m, a := Now(), |rops|, Around();
      ghost var both, brk, cont := {tagNext, tagOut}, Innermost(loopEndStack), Innermost(loopStartStack);
      AppendMarker(tagNext);
      ghost var s1 := Now();
      StillPending(s0, s1, {}, {tagNext}, tagOut);
      match rest {
        case ElseBlock(body) =>
          CompileSingleIf(None, body, tagOut, tagOut);
          ghost var s2 := Now();
          StillPending(s1, s2, a + {tagOut, tagOut}, {}, tagOut);
          AppendMarker(tagOut);
          ghost var s3 := Now();
          DidTrans(s1, a + {tagOut, tagOut}, {}, s2, {}, {tagOut}, s3, a, {tagOut});
          DidTrans(s0, {}, {tagNext}, s1, a, {tagOut}, s3, a, both);
          ElseMade(m, body, brk, cont, tagOut, s1, s2, s3);
        case Elif(test, body, rest') =>
          ghost var s2 := s1;
          var next := tagOut;
          DidNothing(s1);
          if !rest'.NoElse? {
            next := NextIfTag();
            s2 := Now();
            StillPending(s1, s2, {}, {}, tagOut);
          }
          CompileSingleIf(Some(test), body, tagOut, next);
          ghost var s3, w := Now(), a + {next, tagOut};
          StillPending(s2, s3, w, {}, tagOut);
          StillPending(s2, s3, w, {}, next);
          if rest'.NoElse? {
            AppendMarker(tagOut);
          } else {
            CompileRest(rest', next, tagOut);
          }
          ghost var s4 := Now();
          ElifDid(s0, s1, s2, s3, s4, a, tagNext, tagOut, next);
          ElifMade(m, test, body, rest', brk, cont, tagOut, next, s1, s3, s4);
      }
    }

    // ----- loops -----

    method CompileLoop(init: Option<Expr>, test: Expr, step: Option<Expr>, body: Block)
      requires Valid() && MaybeFits(init, lim) && Fits(test, lim) && MaybeFits(step, lim)
      requires WellFormedBlock(body, true, lim) && |rops| + SizeS(Loop(init, test, step, body)) < CODE_LIMIT
      modifies this
      ensures Valid() && loopStartStack == old(loopStartStack) && loopEndStack == old(loopEndStack) && saveVal
      ensures Did(old(Now()), Now(), Around(), {}) && |rops| == old(|rops|) + SizeS(Loop(init, test, step, body))
      ensures CodeLoop(K(Now()), rops, old(|rops|), init, test, step, body)
      ensures seen == ConstantsMaybe(ConstantsB(ConstantsE(ConstantsMaybe(old(seen), init), test), body), step)
      decreases SizeS(Loop(init, test, step, body)), 1
    {
      hide Sound, AsWritten, InternAll, Did, Extends, Fits, MaybeFits, WellFormedBlock, SizeE, SizeB, SizeMaybe, CodeE,
           CodeMaybe, CodeRounds, ConstantsE, ConstantsAll, ConstantsB, ConstantsMaybe;
      ghost var before, p, a := Now(), |rops|, Around();
      var tagOut := NextIfTag();
      ghost var between := Now();
      var tagLoop := NextIfTag();
      ghost var s0, both := Now(), {tagOut, tagLoop};
      StillPending(between, s0, {}, {}, tagOut);
      CompileMaybe(init);
      ghost var s1 := Now();
      StillPending(s0, s1, {}, {}, tagOut);
      StillPending(s0, s1, {}, {}, tagLoop);
      CompileRounds(test, step, body, tagOut, tagLoop);
      ghost var s2 := Now();
      DidTrans(s0, {}, {}, s1, a, both, s2, a, both);
      DidTrans(between, {}, {}, s0, a, both, s2, a, both);
      DidTrans(before, {}, {}, between, a, both, s2, a, {});
      KeepMaybe(s1, s2, p, init);
      saveVal := true;
    }

    method CompileRounds(test: Expr, step: Option<Expr>, body: Block, tagOut: int, tagLoop: int)
      requires Valid() && Fits(test, lim) && MaybeFits(step, lim) && WellFormedBlock(body, true, lim)
      requires |rops| + SizeRounds(test, step, body) < CODE_LIMIT
      requires Pending(tagOut) && Pending(tagLoop) && tagOut != tagLoop
      modifies this
      ensures Valid() && loopStartStack == old(loopStartStack) && loopEndStack == old(loopEndStack)
      ensures Did(old(Now()), Now(), Around(), {tagOut, tagLoop})
              && |rops| == old(|rops|) + SizeRounds(test, step, body)
      ensures CodeRounds(K(Now()), rops, old(|rops|), test, step, body)
      ensures seen == ConstantsMaybe(ConstantsB(ConstantsE(old(seen), test), body), step)
      decreases SizeRounds(test, step, body), 0
    {
      hide Sound, AsWritten, InternAll, Tags, Did, Extends, Fits, MaybeFits, WellFormedBlock, SizeE, SizeB, SizeMaybe,
           CodeE, CodeB, CodeRounds, Jumps, BackAt, ConstantsE, ConstantsAll, ConstantsB, ConstantsMaybe;
      ghost var s0, a := Now(), Around();
      var start := |rops|;
      Compile(test);
      ghost var s1 := Now();
      StillPending(s0, s1, {}, {}, tagOut);
      StillPending(s0, s1, {}, {}, tagLoop);
      AppendJump(JUMP_FALSE, tagOut);
      ghost var s2 := Now();
      StillPending(s1, s2, {tagOut}, {}, tagOut);
      StillPending(s1, s2, {tagOut}, {}, tagLoop);
      CompileBody(body, tagOut, tagLoop);
      ghost var s3, both := Now(), {tagOut, tagLoop};
      StillPending(s2, s3, a + both, {}, tagOut);
      StillPending(s2, s3, a + both, {}, tagLoop);
      CompileBack(step, start, tagOut, tagLoop);
      ghost var s4 := Now();
      DidTrans(s2, a + both, {}, s3, {}, both, s4, a, both);
      DidTrans(s1, {tagOut}, {}, s2, a, both, s4, a, both);
      DidTrans(s0, {}, {}, s1, a, both, s4, a, both);
      RoundsMade(start, test, step, body, tagOut, tagLoop, s1, s2, s3, s4);
    }

    /** The end of a loop: the place to continue at, the step, the jump back, the exit. */
    method CompileBack(step: Option<Expr>, start: nat, tagOut: int, tagLoop: int)
      requires Valid() && MaybeFits(step, lim) && |rops| + SizeMaybe(step) + 7 < CODE_LIMIT && start <= |rops|
      requires Pending(tagOut) && Pending(tagLoop) && tagOut != tagLoop
      modifies this`rops, this`rcon, this`seen, this`rnames, this`ifTag, this`marked, this`open, this`saveVal
      ensures Valid() && Did(old(Now()), Now(), {}, {tagOut, tagLoop}) && |rops| == old(|rops|) + SizeMaybe(step) + 7
      ensures BackAt(Now(), old(|rops|), |rops| - 6, step, start, tagOut, tagLoop)
      ensures seen == ConstantsMaybe(old(seen), step)
    {
      hide Sound, AsWritten, InternAll, Did, Extends, Fits, MaybeFits, SizeMaybe, CodeMaybe, Wide, IsMarker,
           ConstantsE, ConstantsAll, ConstantsB, ConstantsMaybe;
      ghost var s0, m := Now(), |rops|;
      AppendMarker(tagLoop);
      ghost var s1 := Now();
      StillPending(s0, s1, {}, {tagLoop}, tagOut);
      CompileMaybe(step);
      ghost var s2 := Now();
      StillPending(s1, s2, {}, {}, tagOut);
      AppendWide(JUMP, start);
      ghost var s3 := Now();
      StillPending(s2, s3, {}, {}, tagOut);
      AppendMarker(tagOut);
      ghost var s4, both := Now(), {tagOut, tagLoop};
      DidTrans(s2, {}, {}, s3, {}, {tagOut}, s4, {}, {tagOut});
      DidTrans(s1, {}, {}, s2, {}, {tagOut}, s4, {}, {tagOut});
      DidTrans(s0, {}, {tagLoop}, s1, {}, {tagOut}, s4, {}, both);
      KeepMark(s1, s4, m);
      KeepMaybe(s2, s4, m + 1, step);
      KeepWide(s3, s4, |rops| - 6, JUMP, start);
    }

    /** The body of a loop, with the loop's tags on the stacks for break and continue. */
    method CompileBody(body: Block, tagOut: int, tagLoop: int)
      requires Valid() && WellFormedBlock(body, true, lim) && |rops| + SizeB(body) < CODE_LIMIT
      requires Pending(tagOut) && Pending(tagLoop)
      modifies this
      ensures Valid() && loopStartStack == old(loopStartStack) && loopEndStack == old(loopEndStack)
      ensures Did(old(Now()), Now(), Around() + {tagOut, tagLoop}, {}) && |rops| == old(|rops|) + SizeB(body)
      ensures CodeB(K(Now()), rops, old(|rops|), body, tagOut, tagLoop)
      ensures seen == ConstantsB(old(seen), body)
      decreases SizeB(body), 4
    {
      hide Sound, AsWritten, InternAll, Did, Extends, WellFormedBlock, SizeB, CodeB, Tags, ConstantsE, ConstantsAll,
           ConstantsB;
      SoundPush(Now(), loopStartStack, loopEndStack, lim, tagLoop, tagOut);
      loopStartStack := loopStartStack + [tagLoop];
      loopEndStack := loopEndStack + [tagOut];
      CompileCompound(body);
      SoundPop(Now(), loopStartStack, loopEndStack, lim);
      loopStartStack := loopStartStack[..|loopStartStack| - 1];
      loopEndStack := loopEndStack[..|loopEndStack| - 1];
    }

    method CompileIterLoop(name: string, index: Option<string>, e: Expr, body: Block)
      requires Valid() && Fits(e, lim) && WellFormedBlock(body, true, lim)
      requires |rops| + SizeS(ForIn(name, index, e, body)) < CODE_LIMIT
      modifies this
      ensures Valid() && loopStartStack == old(loopStartStack) && loopEndStack == old(loopEndStack) && saveVal
      ensures Did(old(Now()), Now(), Around(), {}) && |rops| == old(|rops|) + SizeS(ForIn(name, index, e, body))
      ensures CodeForIn(K(Now()), rops, old(|rops|), name, index, e, body)
      ensures seen == ConstantsB(ConstantsE(old(seen), e), body)
      decreases SizeS(ForIn(name, index, e, body)), 1
    {
      hide Sound, AsWritten, InternAll, Did, Extends, Fits, WellFormedBlock, SizeE, SizeB, SizeItem, CodeE, CodeItems,
           At, ConstantsE, ConstantsAll, ConstantsB;
      ghost var s0, p, a := Now(), |rops|, Around();
      CompileThen(e, MAKE_ITER);
      ghost var s1 := Now();
      var tagOut := NextIfTag();
      ghost var s2 := Now();
      var tagLoop := NextIfTag();
      ghost var s3, both := Now(), {tagOut, tagLoop};
      StillPending(s2, s3, {}, {}, tagOut);
      CompileItems(name, index, body, tagOut, tagLoop);
      ghost var s4 := Now();
      DidTrans(s2, {}, {}, s3, a, both, s4, a, both);
      DidTrans(s1, {}, {}, s2, a, both, s4, a, {});
      DidTrans(s0, {}, {}, s1, a, {}, s4, a, {});
      KeepE(s1, s4, p, e);
      KeepAt(s1, s4, p + SizeE(e), MAKE_ITER);
      saveVal := true;
    }

    /** Storing the element, and its position when it is asked for. */
    method CompileItem(name: string, index: Option<string>)
      requires Valid() && |rops| + SizeItem(index) < CODE_LIMIT
      modifies this`rops, this`rnames
      ensures Valid() && Did(old(Now()), Now(), {}, {}) && |rops| == old(|rops|) + SizeItem(index)
      ensures CodeItem(K(Now()), rops, old(|rops|), name, index)
    {
      hide Sound, AsWritten, InternAll, Did, Extends, NameAt, At;
      ghost var s0, p := Now(), |rops|;
      AppendVarInfo(name, false);
      ghost var s1 := Now();
      AppendByte(POP);
      ghost var s2 := Now();
      DidThen(s0, s1, s2);
      KeepName(s1, s2, p, SAVE_CLOSE, name);
      if index.Some? {
        AppendByte(ITER_INDEX);
        ghost var s3 := Now();
        AppendVarInfo(index.value, false);
        ghost var s4 := Now();
        AppendByte(POP);
        ghost var s5 := Now();
        DidThen(s3, s4, s5);
        DidThen(s2, s3, s5);
        DidThen(s0, s2, s5);
        KeepName(s2, s5, p, SAVE_CLOSE, name);
        KeepAt(s2, s5, p + 5, POP);
        KeepAt(s3, s5, p + 6, ITER_INDEX);
        KeepName(s4, s5, p + 7, SAVE_CLOSE, index.value);
      }
    }

    method CompileItems(name: string, index: Option<string>, body: Block, tagOut: int, tagLoop: int)
      requires Valid() && WellFormedBlock(body, true, lim)
      requires |rops| + 5 + SizeItem(index) + SizeB(body) + 8 < CODE_LIMIT
      requires Pending(tagOut) && Pending(tagLoop) && tagOut != tagLoop
      modifies this
      ensures Valid() && loopStartStack == old(loopStartStack) && loopEndStack == old(loopEndStack)
      ensures Did(old(Now()), Now(), Around(), {tagOut, tagLoop})
      ensures |rops| == old(|rops|) + 5 + SizeItem(index) + SizeB(body) + 8
      ensures CodeItems(K(Now()), rops, old(|rops|), name, index, body)
      ensures seen == ConstantsB(old(seen), body)
      decreases SizeB(body), 5
    {
      hide Sound, AsWritten, InternAll, Tags, Did, Extends, WellFormedBlock, SizeB, SizeItem, CodeB, CodeItem,
           CodeItems, Jumps, Wide, At, IsMarker, ConstantsE, ConstantsAll, ConstantsB;
      ghost var s0, a := Now(), Around();
      var start := |rops|;
      AppendJump(NEXT_ITER_OR_JUMP, tagOut);
      ghost var s1 := Now();
      StillPending(s0, s1, {tagOut}, {}, tagOut);
      StillPending(s0, s1, {tagOut}, {}, tagLoop);
      CompileItem(name, index);
      ghost var s2 := Now();
      StillPending(s1, s2, {}, {}, tagOut);
      StillPending(s1, s2, {}, {}, tagLoop);
      CompileBody(body, tagOut, tagLoop);
      ghost var s3, both := Now(), {tagOut, tagLoop};
      StillPending(s2, s3, a + both, {}, tagOut);
      StillPending(s2, s3, a + both, {}, tagLoop);
      AppendMarker(tagLoop);
      ghost var s4 := Now();
      StillPending(s3, s4, {}, {tagLoop}, tagOut);
      AppendWide(JUMP, start);
      ghost var s5 := Now();
      StillPending(s4, s5, {}, {}, tagOut);
      AppendMarker(tagOut);
      ghost var s6 := Now();
      AppendByte(POP);
      ghost var s7 := Now();
      DidTrans(s5, {}, {tagOut}, s6, {}, {}, s7, {}, {tagOut});
      DidTrans(s4, {}, {}, s5, {}, {tagOut}, s7, {}, {tagOut});
      DidTrans(s3, {}, {tagLoop}, s4, {}, {tagOut}, s7, {}, both);
      DidTrans(s2, a + both, {}, s3, {}, both, s7, a, both);
      DidTrans(s1, {}, {}, s2, a, both, s7, a, both);
      DidTrans(s0, {tagOut}, {}, s1, a, both, s7, a, both);
      ItemsMade(start, name, index, body, tagOut, tagLoop, s1, s2, s3, s4, s5, s6, s7);
    }

    // ----- try -----

    /** compile_try_catch. */
    method CompileTryCatch(body: Block, name: string, handler: Block)
      requires Valid() && WellFormedBlock(body, loopEndStack != [], lim)
               && WellFormedBlock(handler, loopEndStack != [], lim)
      requires |rops| + SizeS(Try(body, name, handler)) < CODE_LIMIT
      modifies this
      ensures Valid() && loopStartStack == old(loopStartStack) && loopEndStack == old(loopEndStack) && saveVal
      ensures Did(old(Now()), Now(), Around(), {}) && |rops| == old(|rops|) + SizeS(Try(body, name, handler))
      ensures CodeTry(K(Now()), rops, old(|rops|), body, name, handler, Innermost(loopEndStack),
                      Innermost(loopStartStack))
      ensures seen == ConstantsB(ConstantsB(old(seen), body), handler)
      decreases SizeS(Try(body, name, handler)), 1
    {
      hide Sound, AsWritten, InternAll, Did, Extends, WellFormedBlock, SizeB, CodeTry, TryBlock, CatchBlock,
           ConstantsE, ConstantsAll, ConstantsB;
      ghost var before, p, a := Now(), |rops|, Around();
      var tagCatch := NextIfTag();
      ghost var between := Now();
      var tagOut := NextIfTag();
      ghost var s0, both := Now(), {tagCatch, tagOut};
      StillPending(between, s0, {}, {}, tagCatch);
      CompileTryBlock(body, tagCatch, tagOut);
      ghost var s1 := Now();
      StillPending(s0, s1, a + both, {}, tagCatch);
      StillPending(s0, s1, a + both, {}, tagOut);
      CompileCatchBlock(name, handler, tagCatch, tagOut);
      ghost var s2 := Now();
      DidTrans(s0, a + both, {}, s1, a, both, s2, a, both);
      DidTrans(between, {}, {}, s0, a, both, s2, a, both);
      DidTrans(before, {}, {}, between, a, both, s2, a, {});
      TryMade(p, body, name, handler, Innermost(loopEndStack), Innermost(loopStartStack), tagCatch, tagOut, s1, s2);
      saveVal := true;
    }

    method CompileTryBlock(body: Block, tagCatch: int, tagOut: int)
      requires Valid() && WellFormedBlock(body, loopEndStack != [], lim) && |rops| + 5 + SizeB(body) + 6 < CODE_LIMIT
      requires Pending(tagCatch) && Pending(tagOut)
      modifies this
      ensures Valid() && loopStartStack == old(loopStartStack) && loopEndStack == old(loopEndStack)
      ensures Did(old(Now()), Now(), Around() + {tagCatch, tagOut}, {}) && |rops| == old(|rops|) + 5 + SizeB(body) + 6
      ensures TryBlock(Now(), old(|rops|), body, Innermost(loopEndStack), Innermost(loopStartStack), tagCatch, tagOut)
      ensures seen == ConstantsB(old(seen), body)
      decreases SizeB(body), 4
    {
      hide Sound, AsWritten, InternAll, Did, Extends, WellFormedBlock, SizeB, CodeB, Jumps, At, TryBlock, ConstantsE,
           ConstantsAll, ConstantsB;
      ghost var s0, p, a := Now(), |rops|, Around();
      ghost var w, brk, cont := a + {tagCatch, tagOut}, Innermost(loopEndStack), Innermost(loopStartStack);
      AppendJump(PUSH_CATCH, tagCatch);
      ghost var s1 := Now();
      StillPending(s0, s1, {tagCatch}, {}, tagOut);
      CompileCompound(body);
      ghost var s2 := Now();
      StillPending(s1, s2, a, {}, tagOut);
      AppendByte(POP_CATCH);
      ghost var s3 := Now();
      StillPending(s2, s3, {}, {}, tagOut);
      AppendJump(JUMP, tagOut);
      ghost var s4 := Now();
      DidTrans(s2, {}, {}, s3, {tagOut}, {}, s4, {tagOut}, {});
      DidTrans(s1, a, {}, s2, {tagOut}, {}, s4, w, {});
      DidTrans(s0, {tagCatch}, {}, s1, w, {}, s4, w, {});
      TryBlockMade(p, body, brk, cont, tagCatch, tagOut, s1, s2, s3, s4);
    }

    method CompileCatchBlock(name: string, handler: Block, tagCatch: int, tagOut: int)
      requires Valid() && WellFormedBlock(handler, loopEndStack != [], lim)
               && |rops| + 7 + SizeB(handler) + 1 < CODE_LIMIT
      requires Pending(tagCatch) && Pending(tagOut) && tagCatch != tagOut
      modifies this
      ensures Valid() && loopStartStack == old(loopStartStack) && loopEndStack == old(loopEndStack)
      ensures Did(old(Now()), Now(), Around(), {tagCatch, tagOut}) && |rops| == old(|rops|) + 7 + SizeB(handler) + 1
      ensures CatchBlock(Now(), old(|rops|), name, handler, Innermost(loopEndStack), Innermost(loopStartStack),
                         tagCatch, tagOut)
      ensures seen == ConstantsB(old(seen), handler)
      decreases SizeB(handler), 4
    {
      hide Sound, AsWritten, InternAll, Did, Extends, WellFormedBlock, SizeB, CodeB, NameAt, At, IsMarker, CatchBlock,
           ConstantsE, ConstantsAll, ConstantsB;
      ghost var s0, c, a := Now(), |rops|, Around();
      ghost var both, brk, cont := {tagCatch, tagOut}, Innermost(loopEndStack), Innermost(loopStartStack);
      AppendMarker(tagCatch);
      ghost var s1 := Now();
      StillPending(s0, s1, {}, {tagCatch}, tagOut);
      AppendVarInfo(name, false);
      ghost var s2 := Now();
      AppendByte(POP);
      ghost var s3 := Now();
      DidThen(s1, s2, s3);
      StillPending(s1, s3, {}, {}, tagOut);
      CompileCompound(handler);
      ghost var s4 := Now();
      StillPending(s3, s4, a, {}, tagOut);
      AppendMarker(tagOut);
      ghost var s5 := Now();
      DidTrans(s3, a, {}, s4, {}, {tagOut}, s5, a, {tagOut});
      DidTrans(s1, {}, {}, s3, a, {tagOut}, s5, a, {tagOut});
      DidTrans(s0, {}, {tagCatch}, s1, a, {tagOut}, s5, a, both);
      ExtendsTrans(s2, s3, s5);
      CatchBlockMade(c, name, handler, brk, cont, tagCatch, tagOut, s1, s2, s3, s4, s5);
    }

    // ----- the tags become addresses -----

    /** replace_tags: from the end to the front; the first sight of a tag is its place,
        every other one is a use. */
    method ReplaceTags()
      requires Listed(Now()) && |rops| < CODE_LIMIT
      modifies this`rops
      ensures Resolves(old(rops), rops)
    {
      hide Last, MarkersLast, AllMarkedIn, Closed, Seen, DoneFrom, IsUse, IsMarker;
      ghost var o, bound := rops, ifTag;
      var tags := [TagNode(0, -1)];
      var i := |rops| - 1;
      NothingDone(o, tags);
      while i >= 0
        invariant -1 <= i < |rops| == |o| && Seen(o, tags, i + 1) && DoneFrom(o, rops, i + 1)
      {
        SameBefore(o, rops, i);
        var op := rops[i];
        assert InList(o, i, bound);
        if op >= FIRST_TAG {
          var line := GetLine(tags, op);
          SeenLine(o, tags, i, op);
          if line < 0 {
            SeenMarker(o, tags, i);
            tags := tags + [TagNode(op, i)];
            DoneMarker(o, rops, i);
            rops := rops[i := IGNORE];
          } else {
            SeenAgain(o, tags, i);
            UseHasRoom(o, i, bound);
            var buf := LittleEndian(line);
            DoneUse(o, rops, i, line);
            rops := rops[i := buf[0]][i + 1 := buf[1]][i + 2 := buf[2]][i + 3 := buf[3]];
          }
        } else {
          SeenAgain(o, tags, i);
          DoneAlready(o, rops, i, bound);
        }
        i := i - 1;
      }
      AllDone(o, rops);
    }

    /** finalize_ops, for a list without tags. */
    method FinalizeOps() returns (ops: seq<int>)
      requires NoTags(rops)
      ensures ops == Narrow(rops)
    {
      ops := [];
      var i := 0;
      while i < |rops|
        invariant 0 <= i <= |rops| && |ops| == i
        invariant forall j :: 0 <= j < i ==> ops[j] == rops[j] % 256
      {
        ops := ops + [rops[i] % 256];
        i := i + 1;
      }
    }

    /** compile_ast_ext, for a parsed program, which has a statement. From 1000 arguments of
        one call on, their count would be taken for a tag. */
    method CompileAst(b: Block) returns (code: Code)
      requires Valid() && Now() == Snap([], [], [], FIRST_TAG, {}, {}, AsWritten(lim)) && seen == []
      requires loopStartStack == loopEndStack == []
      requires b.Then? && WellFormedBlock(b, false, lim) && SizeB(b) + 2 < CODE_LIMIT
      modifies this
      ensures ProgramCode(Tables(true, code.constants, code.names, AsWritten(lim)), code.ops, b)
      ensures code.constants == InternAll(ConstantsB([], b))
      ensures AllBytes(code.ops) && |code.constants| + |code.names| <= |code.ops|
    {
      hide Sound, AsWritten, InternAll, Did, Listed, CodeB, SizeB, WellFormedBlock, Resolves, At, ProgramCode,
           EndsInReturn, ConstantsB;
      ghost var s0 := Now();
      CompileCompound(b);
      ghost var s1 := Now();
      NothingOpen(s0, s1, lim);
      SoundSizes(s1, [], [], lim);
      ReplaceTags();
      ghost var out := rops;
      ResolvedBytes(s1, out);
      if |rops| == 0 || rops[|rops| - 1] != RETURN {
        AppendOp(PUSH_NIL);
        AppendOp(RETURN);
      }
      ProgramClosed(s1, out, rops, b);
      var ops := FinalizeOps();
      code := Code(ops, rcon, rnames);
    }
  }

  method GetLine(tags: seq<TagNode>, t: int) returns (line: int)
    ensures line == Line(tags, t)
  {
    var i := 0;
    while i < |tags|
      invariant 0 <= i <= |tags| && Line(tags, t) == Line(tags[i..], t)
    {
      if tags[i].tag == t {
        return tags[i].line;
      }
      assert tags[i..][1..] == tags[i + 1..];
      i := i + 1;
    }
    line := -1;
  }
}

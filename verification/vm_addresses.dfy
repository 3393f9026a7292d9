/** Replacing tags by addresses: what is done after each step of the walk, and what a
    whole program has become at the end (src/compiler/ast_compiler.c:1538-1586). */
module LankyAddresses {
  import opened Sequences
  import opened LankySyntax
  import opened LankyMachine
  import opened LankyLayout
  import opened LankyCarry
  import opened LankyTags
  import opened LankyAssembly

  // ----- the list of tags that replace_tags keeps -----

  datatype TagNode = TagNode(tag: int, line: int)

  /** get_line. */
  function Line(tags: seq<TagNode>, t: int): int {
    if tags == [] then -1 else if tags[0].tag == t then tags[0].line else Line(tags[1..], t)
  }

  /** Every real node has a line. */
  predicate Lines(tags: seq<TagNode>) {
    forall n <- tags :: n.tag >= FIRST_TAG ==> n.line >= 0
  }

  lemma {:induction false} AppendedLine(tags: seq<TagNode>, n: TagNode, t: int)
    requires Lines(tags) && t >= FIRST_TAG
    ensures Line(tags + [n], t) == if Line(tags, t) >= 0 then Line(tags, t) else if n.tag == t then n.line else -1
    ensures Line(tags, t) >= -1
  {
    if tags != [] {
      assert (tags + [n])[1..] == tags[1..] + [n];
      assert tags[0] in tags;
      if tags[0].tag != t {
        AppendedLine(tags[1..], n, t);
      }
    } else {
      assert tags + [n] == [n];
    }
  }

  // ----- what is left when a program is compiled -----

  /** A tag that is seen again is the operand of a jump. */
  lemma UseHasRoom(ops: Ops, i: nat, bound: int)
    requires MarkersLast(ops) && i < |ops| && InList(ops, i, bound) && ops[i] >= FIRST_TAG && Last(ops, ops[i]) > i
    ensures IsUse(ops, i)
  {
    hide Last;
  }

  /** The list of tags knows the places of the tags seen from position i on. */
  ghost predicate Seen(ops: Ops, tags: seq<TagNode>, i: nat) {
    Lines(tags) && forall t :: t >= FIRST_TAG ==> Line(tags, t) == if Last(ops, t) >= i then Last(ops, t) else -1
  }

  /** From position i on everything is replaced. */
  ghost predicate DoneFrom(ops: Ops, out: Ops, i: nat) {
    |ops| == |out| && i <= |ops| && (forall j: nat :: j < i ==> out[j] == ops[j])
    && forall j: nat :: i <= j < |ops| ==> ResolvedAt(ops, out, j)
  }

  lemma NothingDone(ops: Ops, tags: seq<TagNode>)
    requires tags == [TagNode(0, -1)]
    ensures Seen(ops, tags, |ops|) && DoneFrom(ops, ops, |ops|)
  {
    hide Last;
    forall t | t >= FIRST_TAG ensures Line(tags, t) == -1 {
      assert tags[1..] == [];
    }
  }

  lemma SameBefore(ops: Ops, out: Ops, i: nat)
    requires DoneFrom(ops, out, i + 1)
    ensures out[i] == ops[i]
  {
    hide ResolvedAt;
  }

  lemma SeenLine(ops: Ops, tags: seq<TagNode>, i: nat, t: int)
    requires Seen(ops, tags, i + 1) && i < |ops| && ops[i] == t && t >= FIRST_TAG
    ensures Line(tags, t) < 0 <==> Last(ops, t) == i
    ensures Line(tags, t) >= 0 ==> Line(tags, t) == Last(ops, t) > i
  {
    hide Last, Lines;
  }

  lemma SeenMarker(ops: Ops, tags: seq<TagNode>, i: nat)
    requires Seen(ops, tags, i + 1) && i < |ops| && ops[i] >= FIRST_TAG && Last(ops, ops[i]) == i
    ensures Seen(ops, tags + [TagNode(ops[i], i)], i)
  {
    hide Last;
    var n := TagNode(ops[i], i);
    forall t | t >= FIRST_TAG ensures Line(tags + [n], t) == if Last(ops, t) >= i then Last(ops, t) else -1 {
      AppendedLine(tags, n, t);
    }
  }

  lemma SeenAgain(ops: Ops, tags: seq<TagNode>, i: nat)
    requires Seen(ops, tags, i + 1) && i < |ops| && (ops[i] >= FIRST_TAG ==> Last(ops, ops[i]) > i)
    ensures Seen(ops, tags, i)
  {
    hide Last, Lines;
  }

  /** Writing n places from i, all but the first of them placeholders. */
  lemma StillResolved(ops: Ops, was: Ops, out: Ops, i: nat, n: nat)
    requires |ops| == |was| == |out| && n >= 1
    requires forall j: nat :: i < j < |ops| ==> ResolvedAt(ops, was, j)
    requires forall j: nat :: j < |ops| && (j < i || j >= i + n) ==> out[j] == was[j]
    requires forall j: nat :: i < j < i + n && j < |ops| ==> ops[j] == -1
    ensures forall j: nat :: i < j < |ops| ==> ResolvedAt(ops, out, j)
  {
    hide Last;
    forall j: nat | i < j < |ops| ensures ResolvedAt(ops, out, j) {
      assert ResolvedAt(ops, was, j);
    }
  }

  lemma DoneMarker(ops: Ops, was: Ops, i: nat)
    requires DoneFrom(ops, was, i + 1) && ops[i] >= FIRST_TAG && Last(ops, ops[i]) == i
    ensures DoneFrom(ops, was[i := IGNORE], i)
  {
    hide Last;
    StillResolved(ops, was, was[i := IGNORE], i, 1);
    assert ResolvedAt(ops, was[i := IGNORE], i);
  }

  lemma FourStored(was: Ops, i: nat, b: seq<int>)
    requires i + 3 < |was| && |b| == 4
    ensures var out := was[i := b[0]][i + 1 := b[1]][i + 2 := b[2]][i + 3 := b[3]];
            |out| == |was| && out[i..i + 4] == b
            && forall j: nat :: j < |was| && (j < i || j >= i + 4) ==> out[j] == was[j]
  {}

  lemma DoneUse(ops: Ops, was: Ops, i: nat, line: int)
    requires DoneFrom(ops, was, i + 1) && IsUse(ops, i) && Last(ops, ops[i]) == line > i && |ops| < CODE_LIMIT
    ensures var b := LittleEndian(line);
            i + 3 < |was| && DoneFrom(ops, was[i := b[0]][i + 1 := b[1]][i + 2 := b[2]][i + 3 := b[3]], i)
  {
    hide Last, LittleEndian, Operand;
    var b := LittleEndian(line);
    var out := was[i := b[0]][i + 1 := b[1]][i + 2 := b[2]][i + 3 := b[3]];
    FourStored(was, i, b);
    LittleEndianDecodes(out, i, line);
    StillResolved(ops, was, out, i, 4);
    assert ResolvedAt(ops, out, i);
  }

  lemma DoneAlready(ops: Ops, was: Ops, i: nat, bound: int)
    requires DoneFrom(ops, was, i + 1) && InList(ops, i, bound) && ops[i] < FIRST_TAG
    ensures DoneFrom(ops, was, i)
  {
    hide Last;
    forall j: nat | i <= j < |ops| ensures ResolvedAt(ops, was, j) {}
  }

  lemma AllDone(ops: Ops, out: Ops)
    requires DoneFrom(ops, out, 0)
    ensures Resolves(ops, out)
  {
    hide ResolvedAt;
  }

  lemma NothingOpen(s0: Snap, s1: Snap, lim: Limits)
    requires Sound(s1, [], [], lim) && Did(s0, s1, Tags([], []), {}) && s0.open == {}
    ensures Listed(s1) && s1.open == {}
  {
    hide Listed, Extends;
  }

  lemma ProgramResolved(s: Snap, out: Ops, b: Block)
    requires CodeB(K(s), s.ops, 0, b, -1, -1) && Listed(s) && s.open == {} && Resolves(s.ops, out)
    ensures CodeB(Tables(true, s.consts, s.names, s.exact), Narrow(out), 0, b, -1, -1)
  {
    var k2 := Tables(true, s.consts, s.names, s.exact);
    ResolvedCarries(s, out);
    assert KeepsRefs(K(s), s.ops, k2, Narrow(out), -1, -1);
    hide CodeB, Carries, Listed, KeepsRefs;
    CarryB(K(s), s.ops, k2, Narrow(out), 0, b, -1, -1, -1, -1);
  }

  lemma ResolvedGrows(k: Tables, ops: Ops, ops2: Ops)
    requires k.resolved && ops <= ops2
    ensures Carries(k, ops, k, ops2) && KeepsRefs(k, ops, k, ops2, -1, -1)
  {}

  lemma LoopEnd(k: Tables, ops: Ops, start: nat, test: Expr, step: Option<Expr>, body: Block)
    requires CodeRounds(k, ops, start, test, step, body)
    ensures Mark(k, ops, start + SizeRounds(test, step, body) - 1)
  {
    hide CodeE, CodeB, CodeMaybe, SizeE, SizeB, SizeMaybe, JumpTo, Wide;
  }

  lemma ItemsEnd(k: Tables, ops: Ops, n: nat, name: string, index: Option<string>, body: Block)
    requires CodeItems(k, ops, n, name, index, body)
    ensures At(ops, n + 5 + SizeItem(index) + SizeB(body) + 7, POP)
  {
    hide CodeB, CodeItem, SizeB, SizeItem, JumpTo, Wide;
  }

  /** What stands last is no count of arguments. */
  lemma LastOfStmt(k: Tables, ops: Ops, p: nat, s: Stmt, brk: int, cont: int)
    requires CodeS(k, ops, p, s, brk, cont)
    ensures SizeS(s) > 0 && p + SizeS(s) <= |ops|
    ensures ops[p + SizeS(s) - 1] == RETURN <==> s.Return?
    ensures 0 <= ops[p + SizeS(s) - 1] < 256 || Mark(k, ops, p + SizeS(s) - 1)
  {
    hide CodeE, CodeB, CodeElse, SizeE, SizeB, SizeElse, JumpTo, Wide, JumpRef;
    match s
    case If(test, body, rest) => assert Mark(k, ops, p + SizeS(s) - 1);
    case Loop(init, test, step, body) => LoopEnd(k, ops, p + SizeMaybe(init), test, step, body);
    case ForIn(name, index, e, body) => ItemsEnd(k, ops, p + SizeE(e) + 1, name, index, body);
    case Try(body, name, handler) => assert Mark(k, ops, p + SizeS(s) - 1);
    case Return(e) => assert At(ops, p + SizeS(s) - 1, RETURN);
    case Do(e) => assert At(ops, p + SizeS(s) - 1, POP);
    case Print(e) => assert At(ops, p + SizeS(s) - 1, PRINT);
    case Raise(e) => assert At(ops, p + SizeS(s) - 1, RAISE);
    case Break => assert At(ops, p + SizeS(s) - 1, POP);
    case Continue => assert At(ops, p + SizeS(s) - 1, POP);
  }

  lemma {:induction false} LastOfBlock(k: Tables, ops: Ops, p: nat, b: Block, brk: int, cont: int)
    requires CodeB(k, ops, p, b, brk, cont) && b.Then?
    ensures SizeB(b) > 0 && p + SizeB(b) <= |ops|
    ensures ops[p + SizeB(b) - 1] == RETURN <==> EndsInReturn(b)
    ensures 0 <= ops[p + SizeB(b) - 1] < 256 || Mark(k, ops, p + SizeB(b) - 1)
    decreases b
  {
    hide CodeS, SizeS, Mark;
    LastOfStmt(k, ops, p, b.first, brk, cont);
    if b.rest.Then? {
      LastOfBlock(k, ops, p + SizeS(b.first), b.rest, brk, cont);
    }
  }

  /** The last element of the list with the tags replaced. */
  lemma LastResolved(s: Snap, out: Ops, b: Block)
    requires CodeB(K(s), s.ops, 0, b, -1, -1) && b.Then? && |s.ops| == SizeB(b)
    requires MarkersLast(s.ops) && Resolves(s.ops, out)
    ensures out != [] && (out[|out| - 1] == RETURN <==> EndsInReturn(b))
  {
    hide CodeB, SizeB, EndsInReturn, Last, MarkersLast;
    LastOfBlock(K(s), s.ops, 0, b, -1, -1);
    var q := |out| - 1;
    if IsMarker(s.ops, q) {
      MarkResolved(s.ops, out, q);
    } else {
      assert ResolvedAt(s.ops, out, q);
    }
  }

  lemma NarrowMore(out: Ops, ops: Ops)
    requires out != [] && ops == if out[|out| - 1] != RETURN then out + [PUSH_NIL] + [RETURN] else out
    ensures Narrow(out) <= Narrow(ops)
    ensures out[|out| - 1] != RETURN ==> At(Narrow(ops), |out|, PUSH_NIL) && At(Narrow(ops), |out| + 1, RETURN)
  {}

  /** The end of a program: nil is returned unless a return stands there already. */
  lemma ProgramClosed(s: Snap, out: Ops, ops: Ops, b: Block)
    requires CodeB(K(s), s.ops, 0, b, -1, -1) && b.Then? && |s.ops| == SizeB(b)
    requires Listed(s) && s.open == {} && Resolves(s.ops, out)
    requires out != [] ==> ops == if out[|out| - 1] != RETURN then out + [PUSH_NIL] + [RETURN] else out
    ensures ProgramCode(Tables(true, s.consts, s.names, s.exact), Narrow(ops), b) && |ops| >= |s.ops|
  {
    var k := Tables(true, s.consts, s.names, s.exact);
    assert MarkersLast(s.ops) && |out| == |s.ops|;
    hide CodeB, SizeB, EndsInReturn, Carries, KeepsRefs, Listed, Resolves, MarkersLast, Narrow;
    ProgramResolved(s, out, b);
    LastResolved(s, out, b);
    NarrowMore(out, ops);
    ResolvedGrows(k, Narrow(out), Narrow(ops));
    CarryB(k, Narrow(out), k, Narrow(ops), 0, b, -1, -1, -1, -1);
  }
}

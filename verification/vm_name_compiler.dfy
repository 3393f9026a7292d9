/** append_var_info, switch_to_close and compile_function, in place
    (src/compiler/ast_compiler.c:159-279, 1309-1360, 1635-1708). */
module LankyNameCompiler {
  import opened LankyMachine
  import opened LankyAssembly
  import opened BytecodeAnalyzer
  import opened LankyNames
  import opened LankyNameLists

  class NameCompiler {
    var stack: seq<Scope>
    ghost var past: seq<Past>

    ghost predicate Valid()
      reads this
    {
      InOrder(stack, past)
    }

    /** At the prompt, or for a program that is not. */
    constructor (repl: bool)
      ensures Valid() && past == [Past([], Context(repl, {}))]
      ensures stack == [Scope([], [], [], map[], 0, [], repl)]
    {
      stack, past := [Scope([], [], [], map[], 0, [], repl)], [Past([], Context(repl, {}))];
    }

    method FindPrevName(owner: nat, name: string) returns (i: int)
      requires owner < |stack|
      ensures i < |stack[owner].rnames|
      ensures if i < 0 then name !in stack[owner].rnames
              else stack[owner].rnames[i] == name && name !in stack[owner].rnames[..i]
    {
      i := 0;
      while i < |stack[owner].rnames|
        invariant 0 <= i <= |stack[owner].rnames| && name !in stack[owner].rnames[..i]
      {
        if stack[owner].rnames[i] == name {
          return;
        }
        i := i + 1;
      }
      i := -1;
    }

    /** find_prev_name, and a new name if there is none. */
    method NameIndex(owner: nat, name: string) returns (i: nat)
      requires owner < |stack|
      modifies this`stack
      ensures |stack| == |old(stack)| && forall a: nat :: a < |stack| && a != owner ==> stack[a] == old(stack)[a]
      ensures stack[owner] == old(stack)[owner].(rnames := stack[owner].rnames)
      ensures old(stack)[owner].rnames <= stack[owner].rnames && i < |stack[owner].rnames|
      ensures stack[owner].rnames[i] == name
    {
      var k := FindPrevName(owner, name);
      if k < 0 {
        i := |stack[owner].rnames|;
        stack := stack[owner := stack[owner].(rnames := stack[owner].rnames + [name])];
      } else {
        i := k;
      }
    }

    /** switch_to_close. */
    method SwitchToClose(owner: nat, sid: string, idx: nat) returns (switched: bool)
      requires owner < |stack| && idx + 5 <= |stack[owner].rops|
      modifies this`stack
      ensures |stack| == |old(stack)| && forall a: nat :: a < |stack| && a != owner ==> stack[a] == old(stack)[a]
      ensures Rewritten(old(stack)[owner], stack[owner], sid, idx)
    {
      var istr := stack[owner].rops[idx];
      if istr == LOAD_CLOSE || istr == SAVE_CLOSE {
        return false;
      }
      var load := istr == LOAD_LOCAL;
      istr := if load then LOAD_CLOSE else SAVE_CLOSE;
      var i := NameIndex(owner, sid);
      var was := stack[owner].rops;
      var buf := LittleEndian(i);
      stack := stack[owner := stack[owner].(rops := was[..idx] + ([istr] + buf) + was[idx + 5..])];
      assert stack[owner].rops[idx..idx + 5] == [istr] + buf;
      assert Stands(stack[owner].rops, idx, CloseOp(load), i);
      switched := true;
    }

    /** The walk through the list of uses: those of x around the innermost function become
        closure accesses; the last own one tells what kind the next is to be. */
    method Look(ch: string) returns (needsClose: bool, alreadyDefined: bool)
      requires Valid()
      modifies this`stack
      ensures |stack| == |past| && stack[|past| - 1] == old(stack)[|past| - 1]
      ensures forall a: nat :: a < |past| - 1 ==>
                Waits(past[a]) && SameRest(old(stack)[a], stack[a])
                && FitsAs(stack[a], Grown(past[a].ev, {ch}), Locals(Grown(past[a].ev, {ch}), past[a].c))
      ensures var p := past[|past| - 1];
              if alreadyDefined then !p.c.Takes(ch) && Stored(p.ev, ch, |p.ev|) && needsClose == Shared(p.ev, ch)
              else needsClose == p.c.Takes(ch) && (p.c.Takes(ch) || !Stored(p.ev, ch, |p.ev|))
    {
      hide FitsAs, ListOk, Stored, Shared, Rewritten, SameRest;
      ghost var d, start := |past| - 1, stack;
      var list := stack[|stack| - 1].usedNames;
      needsClose, alreadyDefined := stack[|stack| - 1].repl, false;
      var i := 0;
      assert ScopeOk(stack[d], past, d);
      LookStart(start, past, ch, list);
      while i < |list|
        invariant 0 <= i <= |list| && |stack| == |start| && stack[d] == start[d]
        invariant Looked(start, stack, past, ch, list[..i])
        invariant alreadyDefined ==> !past[d].c.Takes(ch) && Stored(past[d].ev, ch, |past[d].ev|)
                                     && needsClose == Shared(past[d].ev, ch)
        invariant !alreadyDefined ==> (forall w <- list[..i] :: w.name == ch ==> w.owner != d)
                                      && needsClose == (past[d].c.repl || OfOthers(list[..i], d, ch))
      {
        var w := list[i];
        assert list[..i + 1] == list[..i] + [w];
        LookEntry(start, stack, past, ch, list[..i], w);
        OthersMore(list[..i], w, d, ch, past, list);
        if w.name == ch {
          if w.owner != |stack| - 1 {
            ghost var before := stack;
            var _ := SwitchToClose(w.owner, ch, w.idx);
            LookSwitched(start, before, stack, past, ch, list[..i], w);
            needsClose := true;
          } else {
            OwnEntry(stack[d], past, d, w);
            needsClose := IsClose(stack[|stack| - 1].rops, w.idx);
            alreadyDefined := true;
          }
        }
        i := i + 1;
      }
      assert list[..i] == list;
      LookEnd(start, stack, past, ch, list, alreadyDefined);
    }

    /** The length of the code so far, and how many functions were compiled for it. */
    function Here(): nat
      requires stack != []
      reads this
    {
      |stack[|stack| - 1].rops|
    }

    function Compiled(): nat
      requires stack != []
      reads this
    {
      |stack[|stack| - 1].rcon|
    }

    method AppendClose(ch: string, load: bool)
      requires stack != []
      modifies this`stack
      ensures |stack| == |old(stack)| && forall a: nat :: a < |stack| - 1 ==> stack[a] == old(stack)[a]
      ensures var d := |stack| - 1;
              stack[d] == old(stack)[d].(rops := stack[d].rops, rnames := stack[d].rnames)
              && Longer(old(stack)[d], stack[d]) && |stack[d].rops| == old(|stack[|stack| - 1].rops|) + 5
              && Emitted(stack[d], Access(old(Here()), ch, load), false)
    {
      var i := NameIndex(|stack| - 1, ch);
      var d, was := |stack| - 1, stack[|stack| - 1].rops;
      stack := stack[d := stack[d].(rops := was + ([CloseOp(load)] + LittleEndian(i)))];
      assert stack[d].rops[|was|..|was| + 5] == [CloseOp(load)] + LittleEndian(i);
      assert Stands(stack[d].rops, |was|, CloseOp(load), i);
    }

    /** The slot of ch, or a new one; the use is recorded. */
    method AppendLocal(ch: string, load: bool)
      requires stack != [] && SlotsOk(stack[|stack| - 1])
      modifies this`stack
      ensures |stack| == |old(stack)| && forall a: nat :: a < |stack| - 1 ==> stack[a] == old(stack)[a]
      ensures var d := |stack| - 1;
              Longer(old(stack)[d], stack[d]) && SlotsOk(stack[d]) && stack[d].repl == old(stack)[d].repl
              && stack[d].rcon == old(stack)[d].rcon && |stack[d].rops| == old(|stack[|stack| - 1].rops|) + 5
              && stack[d].usedNames == old(stack)[d].usedNames + [NameWrapper(d, ch, old(Here()))]
              && Emitted(stack[d], Access(old(Here()), ch, load), true)
    {
      var d, s := |stack| - 1, stack[|stack| - 1];
      if ch !in s.savedLocals {
        s := s.(savedLocals := s.savedLocals[ch := s.localIdx], localIdx := s.localIdx + 1);
      }
      var idx := s.savedLocals[ch];
      ghost var was := s.rops;
      s := s.(rops := s.rops + ([LocalOp(load)] + LittleEndian(idx)));
      s := s.(usedNames := s.usedNames + [NameWrapper(d, ch, |s.rops| - 5)]);
      stack := stack[d := s];
      assert stack[d].rops[|was|..|was| + 5] == [LocalOp(load)] + LittleEndian(idx);
    }

    /** append_var_info: the accesses around are switched, and the new one has a slot exactly
        if NewLocal says so. */
    method AppendVarInfo(ch: string, load: bool)
      requires Valid()
      modifies this
      ensures Valid() && |stack| == |old(stack)| && past == Used(old(past), ch, load, old(Here()))
      ensures Here() == old(Here()) + 5 && SameBelow(old(stack), stack)
      ensures stack[|stack| - 1].rcon == old(stack)[|old(stack)| - 1].rcon
    {
      hide FitsAs, ListOk, Stored, Shared, Longer, SlotsOk, Emitted;
      ghost var start, d, p := stack, |stack| - 1, Here();
      assert ScopeOk(stack[d], past, d);
      InnermostSlots(stack, past);
      var needsClose, alreadyDefined := Look(ch);
      if !needsClose && !alreadyDefined && load {
        needsClose := true;
      }
      if !Stored(past[d].ev, ch, |past[d].ev|) {
        NotStored(past[d].ev, ch);
      }
      assert needsClose == !NewLocal(past[d].ev, past[d].c, ch, load);
      if needsClose {
        AppendClose(ch, load);
        SlotsKept(start[d], stack[d]);
        assert start[d].usedNames + [] == start[d].usedNames;
      } else {
        AppendLocal(ch, load);
      }
      UsedInOrder(start, stack, past, ch, load, p);
      past := Used(past, ch, load, p);
    }

    /** Instructions that are no access. */
    method AppendOps(ops: seq<int>)
      requires Valid()
      modifies this
      ensures Valid() && |stack| == |old(stack)| && past == Added(old(past), Raw(old(Here()), ops))
      ensures Here() == old(Here()) + |ops| && SameBelow(old(stack), stack)
      ensures stack[|stack| - 1].rcon == old(stack)[|old(stack)| - 1].rcon
    {
      hide FitsAs, ListOk, SlotsOk;
      ghost var start := stack;
      var d, was := |stack| - 1, stack[|stack| - 1].rops;
      InnermostSlots(stack, past);
      stack := stack[d := stack[d].(rops := was + ops)];
      assert stack[d].rops[|was|..|was| + |ops|] == ops;
      SlotsKept(start[d], stack[d]);
      AddedInOrder(start, stack, past, Raw(|was|, ops));
      past := Added(past, Raw(|was|, ops));
    }

    /** A new compiler wrapper, with a copy of the list. */
    method BeginFunction(params: seq<string>)
      requires Valid()
      modifies this
      ensures Valid() && Here() == Compiled() == 0
      ensures var p := old(past)[|old(past)| - 1];
              past == Added(old(past), Inner({})) + [Past([], Within(p.ev, p.c))]
      ensures |stack| == |old(stack)| + 1 && stack[..|stack| - 1] == old(stack)
    {
      hide FitsAs, ListOk, SlotsOk, Within;
      ghost var start, p := stack, past[|past| - 1];
      InnermostSlots(stack, past);
      AddedInOrder(stack, stack, past, Inner({}));
      past := Added(past, Inner({}));
      BegunInOrder(stack, past, params);
      WithinSame(p.ev, p.c);
      stack := stack + [Scope([], params, [], map[], 0, stack[|stack| - 1].usedNames, false)];
      past := past + [Past([], Within(p.ev, p.c))];
      assert stack[..|stack| - 1] == start;
    }

    /** The end of compile_ast_ext: a function that does not end with a return returns nil. */
    method CodeOf() returns (code: CodeObject)
      requires Valid()
      ensures var p := past[|past| - 1]; CodeFits(code, p.ev, p.c)
      ensures code.constants == stack[|stack| - 1].rcon
    {
      hide FitsAs, ListOk, SlotsOk;
      ghost var p := past[|past| - 1];
      assert ScopeOk(stack[|stack| - 1], past, |past| - 1);
      InnermostSlots(stack, past);
      var s := stack[|stack| - 1];
      ghost var before := s;
      if s.rops == [] || s.rops[|s.rops| - 1] != RETURN {
        s := s.(rops := s.rops + [PUSH_NIL, RETURN]);
      }
      SlotsKept(before, s);
      LongerKeeps(before, s, p.ev, Locals(p.ev, p.c));
      code := CodeObject(s.rops, s.rnames, s.localIdx, s.rcon);
    }

    method FinishFunction() returns (code: CodeObject)
      requires Valid() && |stack| > 1
      modifies this
      ensures Valid() && stack == old(stack)[..|old(stack)| - 1] && past == old(past)[..|old(past)| - 1]
      ensures var p := old(past)[|old(past)| - 1]; CodeFits(code, p.ev, p.c)
      ensures code.constants == old(stack)[|old(stack)| - 1].rcon
    {
      hide InOrder, CodeFits;
      OrderWaits(stack, past);
      code := CodeOf();
      EndedInOrder(stack, past);
      stack := stack[..|stack| - 1];
      past := past[..|past| - 1];
    }

    /** The code object becomes a constant, of which a function is made. */
    method DeclareFunction(code: CodeObject, argc: nat)
      requires Valid()
      modifies this
      ensures Valid() && |stack| == |old(stack)|
      ensures past == Added(old(past), Raw(old(Here()), MakeFunction(old(Compiled()), argc)))
      ensures Here() == old(Here()) + 7
      ensures SameBelow(old(stack), stack)
      ensures stack[|stack| - 1].rcon == old(stack[|stack| - 1].rcon) + [code]
    {
      hide FitsAs, ListOk, SlotsOk;
      ghost var start := stack;
      var d, s := |stack| - 1, stack[|stack| - 1];
      InnermostSlots(stack, past);
      var idx := |s.rcon|;
      var ops := MakeFunction(idx, argc);
      stack := stack[d := s.(rcon := s.rcon + [code], rops := s.rops + ops)];
      assert stack[d].rops[|s.rops|..|s.rops| + |ops|] == ops;
      SlotsKept(start[d], stack[d]);
      AddedInOrder(start, stack, past, Raw(|s.rops|, ops));
      past := Added(past, Raw(|s.rops|, ops));
    }

    /** A function in the innermost one, compiled in a wrapper of its own. */
    method CompileInner(params: seq<string>, body: Items) returns (code: CodeObject)
      requires Valid()
      modifies this
      ensures Valid() && |stack| == |old(stack)|
      ensures var d := |old(past)| - 1;
              var ctx := Within(old(past)[d].ev, old(past)[d].c);
              var begun := Added(old(past), Inner({})) + [Past([], ctx)];
              (forall a: nat :: a <= d ==> Waits(begun[a])) && past == Through(begun, body, 0, 0)[..d + 1]
              && Settled(code, body, ctx)
      ensures Here() == old(Here()) && SameBelow(old(stack), stack)
      ensures stack[|stack| - 1].rcon == old(stack)[|old(stack)| - 1].rcon
      decreases body, 1
    {
      hide InOrder, Through, Within, Inside, CodeFits;
      OrderWaits(stack, past);
      ghost var start, was, d := stack, past, |stack| - 1;
      ghost var ctx := Within(past[d].ev, past[d].c);
      DeclaredIs(past, params, body, Here(), Compiled(), ctx);
      BeginFunction(params);
      ghost var begun := stack;
      assert forall a: nat :: a <= d ==> begun[a] == begun[..|begun| - 1][a] == start[a];
      CompileItems(body);
      InnerDone(was, body, ctx);
      ghost var compiled := stack;
      code := FinishFunction();
      forall a: nat | a < |stack| ensures SameSize(start[a], stack[a]) {
        assert stack[a] == compiled[a] && SameSize(begun[a], compiled[a]);
      }
    }

    /** compile_function. */
    method CompileFunction(params: seq<string>, body: Items)
      requires Valid()
      modifies this
      ensures Valid() && |stack| == |old(stack)|
      ensures past == Declared(old(past), params, body, old(Here()), old(Compiled()))
      ensures Here() == old(Here()) + 7
      ensures SameBelow(old(stack), stack)
      ensures var p := old(past)[|old(past)| - 1];
              Compiled() == old(Compiled()) + 1 && old(stack[|stack| - 1].rcon) <= stack[|stack| - 1].rcon
              && Settled(stack[|stack| - 1].rcon[old(Compiled())], body, Within(p.ev, p.c))
      decreases body, 2
    {
      hide InOrder, Through, Declared, Added, Within, MakeFunction, Settled;
      OrderWaits(stack, past);
      ghost var d := |stack| - 1;
      DeclaredIs(past, params, body, Here(), Compiled(), Within(past[d].ev, past[d].c));
      var code := CompileInner(params, body);
      DeclareFunction(code, |params|);
    }

    /** A whole body, with the functions in it. */
    method CompileItems(items: Items)
      requires Valid()
      modifies this
      ensures Valid() && |stack| == |old(stack)|
      ensures past == Through(old(past), items, old(Here()), old(Compiled()))
      ensures SameBelow(old(stack), stack)
      ensures var p := old(past)[|old(past)| - 1];
              old(stack[|stack| - 1].rcon) <= stack[|stack| - 1].rcon
              && Inside(stack[|stack| - 1].rcon, old(Compiled()), items, old(Here()), p.ev, p.c)
      decreases items, 0
    {
      hide InOrder, Through, Within, MakeFunction, Settled;
      OrderWaits(stack, past);
      ghost var was, d, p, c := past, |stack| - 1, Here(), Compiled();
      match items
      case Done => ThroughNothing(past, p, c);
      case Next(Use(x, load), rest) =>
        AppendVarInfo(x, load);
        CompileItems(rest);
        ThroughUse(was, x, load, rest, p, c);
      case Next(Plain(ops), rest) =>
        AppendOps(ops);
        CompileItems(rest);
        ThroughPlain(was, ops, rest, p, c);
      case Next(Function(params, body), rest) =>
        CompileFunction(params, body);
        CompileItems(rest);
        ThroughFunction(was, params, body, rest, p, c);
    }
  }

  /** compile_ast and compile_ast_repl. In the code of every function, the main one or one
      inside, exactly the accesses that are Local have a slot; all else stands where it stood
      when it was emitted. */
  method CompileAst(items: Items, repl: bool) returns (code: CodeObject)
    ensures Settled(code, items, Context(repl, {}))
  {
    hide InOrder, Inside, CodeFits, Events;
    var nc := new NameCompiler(repl);
    nc.CompileItems(items);
    OrderWaits(nc.stack, nc.past);
    assert [] + Events(items, 0, 0) == Events(items, 0, 0);
    code := nc.CodeOf();
  }
}

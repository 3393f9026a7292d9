/** Local slots and closure variables (append_var_info and switch_to_close,
    src/compiler/ast_compiler.c:159-279). Code for a variable is emitted before it is known
    whether an inner function will share the variable, and rewritten in place if one does. */
module LankyNames {
  import opened LankyMachine
  import opened LankyAssembly
  import opened BytecodeAnalyzer

  const MAKE_FUNCTION := 90

  // ----- a function body, as far as its variables go -----

  /** A variable that is loaded or saved, other instructions, a function declaration. */
  datatype Item = Use(name: string, load: bool) | Plain(ops: seq<int>) | Function(params: seq<string>, body: Items)

  datatype Items = Done | Next(first: Item, rest: Items)

  /** The variables that a body uses, in functions inside of it too. */
  function Mentions(items: Items): set<string> {
    match items
    case Done => {}
    case Next(Use(x, _), rest) => {x} + Mentions(rest)
    case Next(Plain(_), rest) => Mentions(rest)
    case Next(Function(_, body), rest) => Mentions(body) + Mentions(rest)
  }

  /** The code of a function, with that of the functions in it. Other constants are not looked
      at, so that the operand of LOAD_CONST counts functions only. */
  datatype CodeObject = CodeObject(ops: seq<int>, names: seq<string>, numLocals: nat, constants: seq<CodeObject>)

  // ----- what happens in one body, and what it makes of its variables -----

  datatype Event = Access(pos: nat, name: string, load: bool) | Raw(pos: nat, ops: seq<int>) | Inner(names: set<string>)

  /** What a body cannot have in a slot of its own: anything at the prompt, and what an
      enclosing function has in one. */
  datatype Context = Context(repl: bool, outer: set<string>) {
    predicate Takes(x: string) {
      repl || x in outer
    }
  }

  function MakeFunction(c: nat, argc: nat): (r: seq<int>)
    ensures |r| == 7
  {
    [LOAD_CONST] + LittleEndian(c) + [MAKE_FUNCTION, argc]
  }

  /** The events of a body whose code begins at p, when c functions are compiled already. */
  function Events(items: Items, p: nat, c: nat): seq<Event> {
    match items
    case Done => []
    case Next(Use(x, load), rest) => [Access(p, x, load)] + Events(rest, p + 5, c)
    case Next(Plain(ops), rest) => [Raw(p, ops)] + Events(rest, p + |ops|, c)
    case Next(Function(params, body), rest) =>
      [Inner(Mentions(body)), Raw(p, MakeFunction(c, |params|))] + Events(rest, p + 7, c + 1)
  }

  predicate Saves(e: Event, x: string) {
    e.Access? && e.name == x && !e.load
  }

  /** x is saved before the n-th event. */
  predicate Stored(ev: seq<Event>, x: string, n: nat) {
    exists j: nat :: j < n && j < |ev| && Saves(ev[j], x)
  }

  /** An inner function uses x after it was saved. */
  predicate Shared(ev: seq<Event>, x: string) {
    exists m: nat :: m < |ev| && ev[m].Inner? && x in ev[m].names && Stored(ev, x, m)
  }

  /** The k-th event is an access that stays with a slot: the variable may have one, it was
      saved by then, and no inner function uses it after that. */
  predicate Local(ev: seq<Event>, c: Context, k: nat) {
    k < |ev| && ev[k].Access? && !c.Takes(ev[k].name) && Stored(ev, ev[k].name, k + 1) && !Shared(ev, ev[k].name)
  }

  /** ... that is emitted with a slot. */
  predicate Recorded(ev: seq<Event>, c: Context, k: nat) {
    k < |ev| && ev[k].Access? && !c.Takes(ev[k].name) && Stored(ev, ev[k].name, k + 1) && !Shared(ev[..k], ev[k].name)
  }

  function Locals(ev: seq<Event>, c: Context): set<nat> {
    set k | 0 <= k < |ev| && Local(ev, c, k)
  }

  /** The context of a function that is declared after the events. */
  function Within(ev: seq<Event>, c: Context): Context {
    Context(false, c.outer + set k | 0 <= k < |ev| && Recorded(ev, c, k) :: ev[k].name)
  }

  // ----- code that fits the events -----

  /** The compiler wrapper of one function. */
  datatype Scope = Scope(rops: seq<int>, rnames: seq<string>, rcon: seq<CodeObject>, savedLocals: map<string, nat>,
                         localIdx: nat, usedNames: seq<NameWrapper>, repl: bool)

  /** owner is the number of a function on the stack of those being compiled. */
  datatype NameWrapper = NameWrapper(owner: nat, name: string, idx: nat)

  predicate Stands(ops: seq<int>, p: nat, o: int, n: int) {
    p + 5 <= |ops| && ops[p..p + 5] == [o] + LittleEndian(n)
  }

  function LocalOp(load: bool): int {
    if load then LOAD_LOCAL else SAVE_LOCAL
  }

  function CloseOp(load: bool): int {
    if load then LOAD_CLOSE else SAVE_CLOSE
  }

  /** A closure access: the operand says where the name is. */
  predicate CloseAt(s: Scope, p: nat, x: string, load: bool) {
    exists i: nat :: i < |s.rnames| && s.rnames[i] == x && Stands(s.rops, p, CloseOp(load), i)
  }

  predicate LocalAt(s: Scope, p: nat, x: string, load: bool) {
    x in s.savedLocals && Stands(s.rops, p, LocalOp(load), s.savedLocals[x])
  }

  predicate Emitted(s: Scope, e: Event, local: bool) {
    match e
    case Access(p, x, load) => if local then LocalAt(s, p, x, load) else CloseAt(s, p, x, load)
    case Raw(p, ops) => p + |ops| <= |s.rops| && s.rops[p..p + |ops|] == ops
    case Inner(_) => true
  }

  predicate Before(e: Event, f: Event) {
    match e
    case Access(p, _, _) => !f.Inner? ==> p + 5 <= f.pos
    case Raw(p, ops) => !f.Inner? ==> p + |ops| <= f.pos
    case Inner(_) => true
  }

  /** Different variables have different slots. */
  predicate SlotsOk(s: Scope) {
    (forall x <- s.savedLocals :: s.savedLocals[x] < s.localIdx)
    && (forall x <- s.savedLocals, y <- s.savedLocals :: s.savedLocals[x] == s.savedLocals[y] ==> x == y)
  }

  /** The code has every event at its place, those numbered in L with a slot. */
  predicate FitsAs(s: Scope, ev: seq<Event>, L: set<nat>) {
    SlotsOk(s) && (forall k: nat :: k < |ev| ==> Emitted(s, ev[k], k in L))
    && (forall j: nat, k: nat :: j < k < |ev| ==> Before(ev[j], ev[k]))
  }

  /** The code of a finished function: exactly the accesses that stay with a slot have one,
      and the same for the functions in it. */
  ghost predicate Settled(code: CodeObject, items: Items, c: Context)
    decreases items, 1
  {
    Inside(code.constants, 0, items, 0, [], c) && CodeFits(code, Events(items, 0, 0), c)
  }

  /** With some choice of slots. */
  ghost predicate CodeFits(code: CodeObject, ev: seq<Event>, c: Context) {
    exists s: Scope :: s.rops == code.ops && s.rnames == code.names && s.localIdx == code.numLocals
                       && FitsAs(s, ev, Locals(ev, c))
  }

  /** The functions in the items, of which those before are behind us. */
  ghost predicate Inside(consts: seq<CodeObject>, n: nat, items: Items, p: nat, before: seq<Event>, c: Context)
    decreases items, 0
  {
    match items
    case Done => true
    case Next(Use(x, load), rest) => Inside(consts, n, rest, p + 5, before + [Access(p, x, load)], c)
    case Next(Plain(ops), rest) => Inside(consts, n, rest, p + |ops|, before + [Raw(p, ops)], c)
    case Next(Function(params, body), rest) =>
      n < |consts| && Settled(consts[n], body, Within(before, c))
      && Inside(consts, n + 1, rest, p + 7, before + [Inner(Mentions(body)), Raw(p, MakeFunction(n, |params|))], c)
  }

  // ----- one more event -----

  lemma StoredMore(ev: seq<Event>, e: Event, x: string, n: nat)
    requires n <= |ev|
    ensures Stored(ev + [e], x, n) == Stored(ev, x, n)
    ensures Stored(ev + [e], x, |ev| + 1) == (Stored(ev, x, |ev|) || Saves(e, x))
  {
    var ev' := ev + [e];
    if j: nat :| j < n && j < |ev| && Saves(ev[j], x) {
      assert Saves(ev'[j], x);
    }
    if j: nat :| j < |ev| && Saves(ev[j], x) {
      assert Saves(ev'[j], x);
    }
    assert ev'[|ev|] == e;
  }

  lemma SharedMore(ev: seq<Event>, e: Event, x: string)
    ensures Shared(ev + [e], x) == (Shared(ev, x) || (e.Inner? && x in e.names && Stored(ev, x, |ev|)))
  {
    var ev' := ev + [e];
    if m: nat :| m < |ev'| && ev'[m].Inner? && x in ev'[m].names && Stored(ev', x, m) {
      StoredMore(ev, e, x, m);
    }
    if m: nat :| m < |ev| && ev[m].Inner? && x in ev[m].names && Stored(ev, x, m) {
      StoredMore(ev, e, x, m);
      assert ev'[m].Inner?;
    }
    StoredMore(ev, e, x, |ev|);
    assert ev'[|ev|] == e;
  }

  /** A new access has a slot if the variable may have one, is or was saved, and not shared. */
  predicate NewLocal(ev: seq<Event>, c: Context, x: string, load: bool) {
    !c.Takes(x) && (Stored(ev, x, |ev|) || !load) && !Shared(ev, x)
  }

  lemma LocalMore(ev: seq<Event>, c: Context, e: Event, k: nat)
    requires k < |ev| && (e.Inner? ==> e.names == {})
    ensures Local(ev + [e], c, k) == Local(ev, c, k)
  {
    var ev' := ev + [e];
    assert ev'[k] == ev[k];
    if ev[k].Access? {
      StoredMore(ev, e, ev[k].name, k + 1);
      SharedMore(ev, e, ev[k].name);
    }
  }

  lemma RecordedMore(ev: seq<Event>, c: Context, e: Event, k: nat)
    requires k < |ev|
    ensures Recorded(ev + [e], c, k) == Recorded(ev, c, k)
  {
    var ev' := ev + [e];
    assert ev'[k] == ev[k] && ev'[..k] == ev[..k];
    if ev[k].Access? {
      StoredMore(ev, e, ev[k].name, k + 1);
    }
  }

  lemma NewAccess(ev: seq<Event>, c: Context, p: nat, x: string, load: bool)
    ensures var ev' := ev + [Access(p, x, load)];
            Local(ev', c, |ev|) == Recorded(ev', c, |ev|) == NewLocal(ev, c, x, load)
    ensures var ev' := ev + [Access(p, x, load)];
            Locals(ev', c) == Locals(ev, c) + if NewLocal(ev, c, x, load) then {|ev|} else {}
  {
    hide Stored, Shared;
    var e := Access(p, x, load);
    var ev' := ev + [e];
    assert ev'[|ev|] == e && ev'[..|ev|] == ev;
    StoredMore(ev, e, x, |ev|);
    SharedMore(ev, e, x);
    forall k | 0 <= k < |ev| ensures Local(ev', c, k) == Local(ev, c, k) {
      LocalMore(ev, c, e, k);
    }
  }

  lemma NewOther(ev: seq<Event>, c: Context, e: Event)
    requires e.Raw? || e == Inner({})
    ensures Locals(ev + [e], c) == Locals(ev, c)
  {
    hide Stored, Shared;
    var ev' := ev + [e];
    assert ev'[|ev|] == e;
    forall k | 0 <= k < |ev| ensures Local(ev', c, k) == Local(ev, c, k) {
      LocalMore(ev, c, e, k);
    }
  }

  /** Whatever stays with a slot was emitted with one. */
  lemma LocalRecorded(ev: seq<Event>, c: Context, k: nat)
    requires k < |ev| && ev[k].Access?
    ensures Local(ev, c, k) ==> Recorded(ev, c, k)
    ensures Recorded(ev, c, k) ==> (Local(ev, c, k) <==> !Shared(ev, ev[k].name))
  {
    var x := ev[k].name;
    if m: nat :| m < |ev[..k]| && ev[..k][m].Inner? && x in ev[..k][m].names && Stored(ev[..k], x, m) {
      var j: nat :| j < m && j < |ev[..k]| && Saves(ev[..k][j], x);
      assert Saves(ev[j], x) && ev[m].Inner?;
    }
  }

  lemma SharedStored(ev: seq<Event>, x: string, n: nat)
    requires n <= |ev|
    ensures Shared(ev[..n], x) ==> Stored(ev, x, n)
  {
    if m: nat :| m < |ev[..n]| && ev[..n][m].Inner? && x in ev[..n][m].names && Stored(ev[..n], x, m) {
      var i: nat :| i < m && i < |ev[..n]| && Saves(ev[..n][i], x);
      assert Saves(ev[i], x);
    }
  }

  /** A variable that may have a slot gets one when it is first saved. */
  lemma {:induction false} FirstSaved(ev: seq<Event>, c: Context, x: string, n: nat)
    requires Stored(ev, x, n) && !c.Takes(x) && n <= |ev|
    ensures exists k: nat :: k < n && Recorded(ev, c, k) && ev[k].name == x
  {
    var j: nat :| j < n && j < |ev| && Saves(ev[j], x);
    if Stored(ev, x, j) {
      FirstSaved(ev, c, x, j);
    } else {
      SharedStored(ev, x, j);
      assert Recorded(ev, c, j);
    }
  }

  // ----- an inner function uses more variables -----

  /** The function at the end uses the variables X, too. */
  function Grown(ev: seq<Event>, X: set<string>): seq<Event>
    requires ev != [] && ev[|ev| - 1].Inner?
  {
    ev[..|ev| - 1] + [Inner(ev[|ev| - 1].names + X)]
  }

  lemma GrownLocals(ev: seq<Event>, c: Context, X: set<string>)
    requires ev != [] && ev[|ev| - 1].Inner?
    ensures Locals(Grown(ev, X), c) == set k | k in Locals(ev, c) && ev[k].name !in X
  {
    hide Stored, Shared;
    var n := |ev| - 1;
    var front, ev' := ev[..n], Grown(ev, X);
    assert ev == front + [ev[n]] && ev' == front + [ev'[n]];
    forall k | 0 <= k < n && ev[k].Access?
      ensures Local(ev', c, k) <==> Local(ev, c, k) && ev[k].name !in X
    {
      var x := ev[k].name;
      assert front[k] == ev[k] == ev'[k];
      StoredMore(front, ev[n], x, k + 1);
      StoredMore(front, ev'[n], x, k + 1);
      SharedMore(front, ev[n], x);
      SharedMore(front, ev'[n], x);
      if Stored(front, x, k + 1) {
        StoredLater(front, x, k + 1, n);
      }
    }
  }

  lemma StoredLater(ev: seq<Event>, x: string, m: nat, n: nat)
    requires Stored(ev, x, m) && m <= n
    ensures Stored(ev, x, n)
  {}

  lemma GrownRecorded(ev: seq<Event>, c: Context, X: set<string>, k: nat)
    requires ev != [] && ev[|ev| - 1].Inner?
    ensures Recorded(Grown(ev, X), c, k) == Recorded(ev, c, k)
  {
    var n := |ev| - 1;
    var front, ev' := ev[..n], Grown(ev, X);
    assert ev == front + [ev[n]] && ev' == front + [ev'[n]];
    if k < n {
      assert ev'[..k] == ev[..k] && ev'[k] == ev[k];
      RecordedMore(front, c, ev[n], k);
      RecordedMore(front, c, ev'[n], k);
    }
  }

  // ----- what it comes to -----

  /** The accesses that were emitted with a slot are all of one kind afterwards. */
  lemma OneKind(ev: seq<Event>, c: Context, j: nat, k: nat)
    requires Recorded(ev, c, j) && Recorded(ev, c, k) && ev[j].name == ev[k].name
    ensures Local(ev, c, j) == Local(ev, c, k)
  {
    LocalRecorded(ev, c, j);
    LocalRecorded(ev, c, k);
  }

  /** A variable keeps its slot exactly if the function may have one for it, saves it, and
      declares no function after the first save that uses it. */
  lemma HasSlot(ev: seq<Event>, c: Context, x: string)
    ensures (exists k: nat :: Local(ev, c, k) && ev[k].name == x)
            <==> !c.Takes(x) && Stored(ev, x, |ev|) && !Shared(ev, x)
  {
    if k: nat :| Local(ev, c, k) && ev[k].name == x {
      StoredLater(ev, x, k + 1, |ev|);
    }
    if !c.Takes(x) && Stored(ev, x, |ev|) && !Shared(ev, x) {
      FirstSaved(ev, c, x, |ev|);
      var k: nat :| k < |ev| && Recorded(ev, c, k) && ev[k].name == x;
      LocalRecorded(ev, c, k);
    }
  }

  /** What a function has in a slot when it declares one that uses it, it has in no slot in
      the end, and neither has the other. */
  lemma NoSlotLeft(ev: seq<Event>, c: Context, m: nat, x: string, inner: seq<Event>)
    requires m < |ev| && ev[m].Inner? && x in ev[m].names && x in Within(ev[..m], c).outer && x !in c.outer
    ensures forall k: nat :: Local(ev, c, k) ==> ev[k].name != x
    ensures forall k: nat :: Local(inner, Within(ev[..m], c), k) ==> inner[k].name != x
  {
    var k :| 0 <= k < m && Recorded(ev[..m], c, k) && ev[..m][k].name == x;
    var j: nat :| j < k + 1 && j < m && Saves(ev[..m][j], x);
    assert Saves(ev[j], x);
    assert Stored(ev, x, m) && Shared(ev, x);
  }

  /** A function that is declared before the variable is saved: it looks for x in the
      variables around it, and the function around it has x in a slot. */
  lemma SavedLater(x: string)
    ensures var inner := Next(Use(x, true), Done);
            var ev := Events(Next(Function([], inner), Next(Use(x, false), Done)), 0, 0);
            |ev| == 3 && x in ev[0].names && Local(ev, Context(false, {}), 2)
            && !Local(Events(inner, 0, 0), Within(ev[..0], Context(false, {})), 0)
  {
    var inner := Next(Use(x, true), Done);
    var save := Next(Use(x, false), Done);
    assert Mentions(inner) == {x};
    assert Events(save, 7, 1) == [Access(7, x, false)];
    var ev := Events(Next(Function([], inner), save), 0, 0);
    assert ev == [Inner({x}), Raw(0, MakeFunction(0, 0)), Access(7, x, false)];
    assert Saves(ev[2], x) && !Saves(ev[0], x) && !Saves(ev[1], x);
    assert Events(inner, 0, 0) == [Access(0, x, true)];
  }
}

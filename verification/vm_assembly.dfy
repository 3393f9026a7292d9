/** How the pieces the compiler appends make the code of a construct, and what every
    step of it keeps. */
module LankyAssembly {
  import opened Sequences
  import opened LankySyntax
  import opened LankyMachine
  import opened LankyLayout
  import opened LankyCarry
  import opened LankyTags
  import opened Doubles

  // ----- constants -----

  /** No two of the integers are the same double. */
  ghost predicate ToldApart(ints: set<int>) {
    forall i, j :: i in ints && j in ints && ToDouble(i) == ToDouble(j) ==> i == j
  }

  /** Constants are loaded as written, and all arguments are passed. */
  ghost predicate AsWritten(lim: Limits) {
    ToldApart(lim.ints) && lim.args <= MAX_ARGS
  }

  predicate Known(cs: seq<Constant>, ints: set<int>) {
    forall c <- cs :: c.IntConst? ==> c.i in ints
  }

  lemma SameMeansEqual(a: Constant, b: Constant, ints: set<int>)
    requires ToldApart(ints) && SameConstant(a, b) && Known([a, b], ints)
    ensures a == b
  {
    assert a in [a, b] && b in [a, b];
  }

  /** int_to_byte_array. */
  function LittleEndian(n: int): (r: seq<int>)
    ensures |r| == 4 && AllBytes(r)
  {
    [n % 256, n / 256 % 256, n / 65536 % 256, n / 16777216 % 256]
  }

  const CODE_LIMIT := 0x8000_0000

  lemma LittleEndianDecodes(ops: Ops, p: nat, n: int)
    requires 0 <= n < CODE_LIMIT && p + 4 <= |ops| && ops[p..p + 4] == LittleEndian(n)
    ensures Bytes(ops, p) && Operand(ops, p) == n
  {
    var bs := ops[p..p + 4];
    assert bs[0] == ops[p] && bs[1] == ops[p + 1] && bs[2] == ops[p + 2] && bs[3] == ops[p + 3];
    Digits(n);
  }

  lemma Digits(n: int)
    requires 0 <= n < CODE_LIMIT
    ensures n == n % 256 + 256 * (n / 256 % 256) + 65536 * (n / 65536 % 256) + 16777216 * (n / 16777216 % 256)
  {
    assert n / 65536 == n / 256 / 256 && n / 16777216 == n / 65536 / 256;
  }

  // ----- the state of a compilation -----

  function Tags(starts: seq<int>, ends: seq<int>): set<int> {
    set t | t in starts + ends
  }

  ghost predicate Sound(s: Snap, starts: seq<int>, ends: seq<int>, lim: Limits) {
    Listed(s) && |s.consts| + |s.names| <= |s.ops| && Known(s.consts, lim.ints)
    && |starts| == |ends| && forall t <- Tags(starts, ends) :: FIRST_TAG <= t < s.tag && t !in s.marked
  }

  /** A step of the compiler; see Orderly. */
  ghost predicate Did(s0: Snap, s1: Snap, waiting: set<int>, closing: set<int>) {
    Extends(s0, s1) && Orderly(s0, s1, waiting, closing)
  }

  lemma DidThen(s0: Snap, s1: Snap, s2: Snap)
    requires Did(s0, s1, {}, {}) && Did(s1, s2, {}, {})
    ensures Did(s0, s2, {}, {}) && Extends(s0, s2) && Extends(s1, s2)
  {
    hide Extends;
    ExtendsTrans(s0, s1, s2);
  }

  /** Tags closed on the way wait no longer; tags handed out on the way are nobody
      else's. */
  lemma DidTrans(s0: Snap, waiting0: set<int>, closing0: set<int>, s1: Snap, waiting1: set<int>, closing1: set<int>,
                 s2: Snap, waiting: set<int>, closing: set<int>)
    requires Did(s0, s1, waiting0, closing0) && Did(s1, s2, waiting1, closing1)
    requires waiting0 - closing0 - closing1 <= waiting && waiting1 - closing1 <= waiting
    requires closing <= closing0 + closing1 && closing !! waiting1 - closing1
    requires forall t :: t in closing0 + closing1 && t < s0.tag ==> t in closing
    ensures Did(s0, s2, waiting, closing) && Extends(s0, s2) && Extends(s1, s2)
  {
    hide Extends;
    ExtendsTrans(s0, s1, s2);
  }

  lemma DidWider(s0: Snap, s1: Snap, waiting0: set<int>, waiting: set<int>, closing: set<int>)
    requires Did(s0, s1, waiting0, closing) && waiting0 <= waiting
    ensures Did(s0, s1, waiting, closing)
  {
    hide Extends;
  }

  lemma DidExtends(s0: Snap, s1: Snap, waiting: set<int>, closing: set<int>)
    requires Did(s0, s1, waiting, closing)
    ensures Extends(s0, s1)
  {}

  lemma StillPending(s0: Snap, s1: Snap, waiting: set<int>, closing: set<int>, t: int)
    requires Did(s0, s1, waiting, closing) && t < s0.tag && t !in s0.marked && t !in closing
    ensures t < s1.tag && t !in s1.marked
  {
    hide Extends;
  }

  lemma KeepE(s1: Snap, s2: Snap, p: nat, e: Expr)
    requires Extends(s1, s2) && CodeE(K(s1), s1.ops, p, e)
    ensures CodeE(K(s2), s2.ops, p, e)
  {
    hide Extends, CodeE, Carries, KeepsRefs;
    ExtendsCarries(s1, s2);
    CarryE(K(s1), s1.ops, K(s2), s2.ops, p, e);
  }

  lemma KeepB(s1: Snap, s2: Snap, p: nat, b: Block, brk: int, cont: int)
    requires Extends(s1, s2) && CodeB(K(s1), s1.ops, p, b, brk, cont)
    ensures CodeB(K(s2), s2.ops, p, b, brk, cont)
  {
    hide Extends, CodeB, Carries, KeepsRefs;
    ExtendsCarries(s1, s2);
    CarryB(K(s1), s1.ops, K(s2), s2.ops, p, b, brk, cont, brk, cont);
  }

  lemma KeepAt(s1: Snap, s2: Snap, p: nat, v: int)
    requires Extends(s1, s2) && At(s1.ops, p, v)
    ensures At(s2.ops, p, v)
  {}

  lemma KeepMark(s1: Snap, s2: Snap, p: nat)
    requires Extends(s1, s2) && IsMarker(s1.ops, p)
    ensures Mark(K(s2), s2.ops, p) && IsMarker(s2.ops, p) && s2.ops[p] == s1.ops[p]
  {}

  // ----- statements: how the pieces make the whole -----

  function Innermost(stack: seq<int>): int {
    if stack == [] then -1 else stack[|stack| - 1]
  }

  /** Statements that leave no value to pop (`save_val`). */
  predicate Saves(s: Stmt) {
    !s.Do? && !s.Break? && !s.Continue?
  }

  /** The code of a statement before compile_compound adds the POP. */
  predicate CodeBare(k: Tables, ops: Ops, p: nat, s: Stmt, brk: int, cont: int) {
    match s
    case Do(e) => CodeE(k, ops, p, e)
    case Break => JumpRef(k, ops, p, brk)
    case Continue => JumpRef(k, ops, p, cont)
    case _ => CodeS(k, ops, p, s, brk, cont)
  }

  lemma DidNothing(s: Snap)
    ensures Did(s, s, {}, {})
  {}

  lemma AroundThen(s0: Snap, s1: Snap, s2: Snap, a: set<int>)
    requires Did(s0, s1, a, {}) && Did(s1, s2, a, {})
    ensures Did(s0, s2, a, {}) && Extends(s0, s2) && Extends(s1, s2)
  {
    hide Did, Extends;
    DidTrans(s0, a, {}, s1, a, {}, s2, a, {});
  }

  lemma SoundStacks(s: Snap, starts: seq<int>, ends: seq<int>, lim: Limits)
    requires Sound(s, starts, ends, lim)
    ensures |starts| == |ends| && forall t <- Tags(starts, ends) :: FIRST_TAG <= t < s.tag && t !in s.marked
  {}

  lemma SoundSizes(s: Snap, starts: seq<int>, ends: seq<int>, lim: Limits)
    requires Sound(s, starts, ends, lim)
    ensures |s.consts| + |s.names| <= |s.ops|
  {}

  lemma SoundPush(s: Snap, starts: seq<int>, ends: seq<int>, lim: Limits, start: int, end: int)
    requires Sound(s, starts, ends, lim)
    requires FIRST_TAG <= start < s.tag && start !in s.marked && FIRST_TAG <= end < s.tag && end !in s.marked
    ensures Sound(s, starts + [start], ends + [end], lim)
    ensures Tags(starts + [start], ends + [end]) == Tags(starts, ends) + {end, start}
  {
    hide Listed;
    assert Tags(starts + [start], ends + [end]) == Tags(starts, ends) + {end, start};
  }

  lemma SoundPop(s: Snap, starts: seq<int>, ends: seq<int>, lim: Limits)
    requires Sound(s, starts, ends, lim) && starts != []
    ensures Sound(s, starts[..|starts| - 1], ends[..|ends| - 1], lim)
  {
    hide Listed;
    assert Tags(starts[..|starts| - 1], ends[..|ends| - 1]) <= Tags(starts, ends);
  }

  lemma KeepMaybe(s1: Snap, s2: Snap, p: nat, e: Option<Expr>)
    requires Extends(s1, s2) && CodeMaybe(K(s1), s1.ops, p, e)
    ensures CodeMaybe(K(s2), s2.ops, p, e)
  {
    hide Extends, CodeMaybe, Carries, KeepsRefs;
    ExtendsCarries(s1, s2);
    CarryMaybe(K(s1), s1.ops, K(s2), s2.ops, p, e);
  }

  lemma KeepName(s1: Snap, s2: Snap, p: nat, o: int, name: string)
    requires Extends(s1, s2) && NameAt(K(s1), s1.ops, p, o, name) && 0 <= o < 256
    ensures NameAt(K(s2), s2.ops, p, o, name)
  {
    hide Extends, NameAt, Carries, KeepsRefs;
    ExtendsCarries(s1, s2);
    CarryName(K(s1), s1.ops, K(s2), s2.ops, p, o, name);
  }

  lemma KeepItem(s1: Snap, s2: Snap, p: nat, name: string, index: Option<string>)
    requires Extends(s1, s2) && CodeItem(K(s1), s1.ops, p, name, index)
    ensures CodeItem(K(s2), s2.ops, p, name, index)
  {
    hide Extends, CodeItem, Carries, KeepsRefs;
    ExtendsCarries(s1, s2);
    CarryItem(K(s1), s1.ops, K(s2), s2.ops, p, name, index);
  }

  lemma KeepWide(s1: Snap, s2: Snap, p: nat, o: int, n: int)
    requires Extends(s1, s2) && Wide(s1.ops, p, o, n) && 0 <= o < 256
    ensures Wide(s2.ops, p, o, n)
  {
    hide Extends, Wide, Carries, KeepsRefs;
    ExtendsCarries(s1, s2);
    CarryWide(K(s1), s1.ops, K(s2), s2.ops, p, o, n);
  }

  lemma KeepJumps(s1: Snap, s2: Snap, p: nat, o: int, t: int)
    requires Extends(s1, s2) && Jumps(s1.ops, p, o, t)
    ensures Jumps(s2.ops, p, o, t)
  {}

  lemma KeepS(s1: Snap, s2: Snap, p: nat, s: Stmt, brk: int, cont: int)
    requires Extends(s1, s2) && CodeS(K(s1), s1.ops, p, s, brk, cont)
    ensures CodeS(K(s2), s2.ops, p, s, brk, cont)
  {
    hide Extends, CodeS, Carries, KeepsRefs;
    ExtendsCarries(s1, s2);
    CarryS(K(s1), s1.ops, K(s2), s2.ops, p, s, brk, cont, brk, cont);
  }

  lemma KeepRef(s1: Snap, s2: Snap, p: nat, ref: int)
    requires Extends(s1, s2) && JumpRef(K(s1), s1.ops, p, ref)
    ensures JumpRef(K(s2), s2.ops, p, ref)
  {}

  lemma BareDone(s2: Snap, s3: Snap, q: nat, s: Stmt, brk: int, cont: int)
    requires CodeBare(K(s2), s2.ops, q, s, brk, cont) && Extends(s2, s3)
             && |s2.ops| + (if Saves(s) then 0 else 1) == q + SizeS(s)
    requires !Saves(s) ==> At(s3.ops, |s2.ops|, POP)
    ensures CodeS(K(s3), s3.ops, q, s, brk, cont)
  {
    hide Extends, SizeE, CodeE, At, JumpRef;
    match s
    case Do(e) => KeepE(s2, s3, q, e);
    case Break => KeepRef(s2, s3, q, brk);
    case Continue => KeepRef(s2, s3, q, cont);
    case _ => hide CodeS; KeepS(s2, s3, q, s, brk, cont);
  }

  /** The statements of b before `rest` have their code from p up to q. */
  predicate BlockUpTo(k: Tables, ops: Ops, p: nat, b: Block, rest: Block, q: nat, brk: int, cont: int)
    decreases b
  {
    if b == rest then q == p
    else b.Then? && CodeS(k, ops, p, b.first, brk, cont)
         && BlockUpTo(k, ops, p + SizeS(b.first), b.rest, rest, q, brk, cont)
  }

  lemma BlockBegins(s: Snap, b: Block, a: set<int>, brk: int, cont: int)
    ensures BlockUpTo(K(s), s.ops, |s.ops|, b, b, |s.ops|, brk, cont) && Did(s, s, a, {})
  {}

  lemma {:induction false} OneStmtMore(k: Tables, ops: Ops, p: nat, b: Block, rest: Block, q: nat, brk: int, cont: int)
    requires BlockUpTo(k, ops, p, b, rest, q, brk, cont) && rest.Then? && CodeS(k, ops, q, rest.first, brk, cont)
    ensures BlockUpTo(k, ops, p, b, rest.rest, q + SizeS(rest.first), brk, cont)
    ensures rest.rest < b
    decreases b
  {
    hide CodeS, SizeS;
    if b != rest {
      OneStmtMore(k, ops, p + SizeS(b.first), b.rest, rest, q, brk, cont);
    }
  }

  lemma {:induction false} AllStmtsCoded(k: Tables, ops: Ops, p: nat, b: Block, q: nat, brk: int, cont: int)
    requires BlockUpTo(k, ops, p, b, End, q, brk, cont)
    ensures CodeB(k, ops, p, b, brk, cont)
    decreases b
  {
    hide CodeS, SizeS;
    if b.Then? {
      AllStmtsCoded(k, ops, p + SizeS(b.first), b.rest, q, brk, cont);
    }
  }

  lemma {:induction false} KeepBlockUpTo(s1: Snap, s2: Snap, p: nat, b: Block, rest: Block, q: nat, brk: int, cont: int)
    requires Extends(s1, s2) && BlockUpTo(K(s1), s1.ops, p, b, rest, q, brk, cont)
    ensures BlockUpTo(K(s2), s2.ops, p, b, rest, q, brk, cont)
    decreases b
  {
    hide Extends, CodeS, SizeS;
    if b != rest {
      KeepS(s1, s2, p, b.first, brk, cont);
      KeepBlockUpTo(s1, s2, p + SizeS(b.first), b.rest, rest, q, brk, cont);
    }
  }

  function SizeSingle(test: Option<Expr>, body: Block, jumps: bool): nat {
    (if test.Some? then SizeE(test.value) + 5 else 0) + SizeB(body) + if jumps && test.Some? then 5 else 0
  }

  /** What compile_single_if leaves, before the markers of its tags. */
  predicate SingleIf(s: Snap, p: nat, test: Option<Expr>, body: Block, brk: int, cont: int, tagOut: int, tagNext: int) {
    var q := if test.Some? then p + SizeE(test.value) + 5 else p;
    CodeB(K(s), s.ops, q, body, brk, cont)
    && (test.Some? ==> CodeE(K(s), s.ops, p, test.value) && Jumps(s.ops, q - 5, JUMP_FALSE, tagNext))
    && (test.Some? && tagOut != tagNext ==> Jumps(s.ops, q + SizeB(body), JUMP, tagOut))
  }

  lemma OneIfMade(p: nat, test: Expr, body: Block, brk: int, cont: int, tag: int, s1: Snap, s2: Snap)
    requires SingleIf(s1, p, Some(test), body, brk, cont, tag, tag) && Extends(s1, s2)
    requires var r := p + SizeE(test) + 5 + SizeB(body); IsMarker(s2.ops, r) && s2.ops[r] == tag
    ensures CodeIf(K(s2), s2.ops, p, test, body, NoElse, brk, cont)
  {
    hide Extends, SizeE, SizeB, CodeE, CodeB, Jumps, IsMarker, JumpTo;
    var q := p + SizeE(test);
    var r := q + 5 + SizeB(body);
    KeepE(s1, s2, p, test);
    KeepB(s1, s2, q + 5, body, brk, cont);
    JumpMade(s1, s2, q, JUMP_FALSE, tag, r);
    MarkHere(s2, r);
  }

  lemma IfMade(p: nat, test: Expr, body: Block, rest: Else, brk: int, cont: int, tagNext: int, tagOut: int, s1: Snap,
               s2: Snap)
    requires SingleIf(s1, p, Some(test), body, brk, cont, tagOut, tagNext) && tagOut != tagNext && Extends(s1, s2)
    requires var r := p + SizeE(test) + 5 + SizeB(body) + 5;
             !rest.NoElse? && IsMarker(s2.ops, r) && s2.ops[r] == tagNext
             && IsMarker(s2.ops, r + SizeElse(rest)) && s2.ops[r + SizeElse(rest)] == tagOut
             && CodeElse(K(s2), s2.ops, r, rest, r + SizeElse(rest), brk, cont)
    ensures CodeIf(K(s2), s2.ops, p, test, body, rest, brk, cont)
  {
    hide Extends, SizeE, SizeB, SizeElse, CodeE, CodeB, CodeElse, Jumps, IsMarker, JumpTo;
    var q := p + SizeE(test);
    var r := q + 5 + SizeB(body);
    var out := r + 5 + SizeElse(rest);
    KeepE(s1, s2, p, test);
    KeepB(s1, s2, q + 5, body, brk, cont);
    JumpMade(s1, s2, q, JUMP_FALSE, tagNext, r + 5);
    JumpMade(s1, s2, r, JUMP, tagOut, out);
    MarkHere(s2, out);
  }

  lemma ElseMade(m: nat, body: Block, brk: int, cont: int, tagOut: int, s1: Snap, s2: Snap, s3: Snap)
    requires SingleIf(s2, m + 1, None, body, brk, cont, tagOut, tagOut) && Extends(s1, s3) && Extends(s2, s3)
    requires IsMarker(s1.ops, m) && |s3.ops| == m + 1 + SizeB(body) + 1
    ensures CodeElse(K(s3), s3.ops, m, ElseBlock(body), |s3.ops| - 1, brk, cont)
    ensures IsMarker(s3.ops, m) && s3.ops[m] == s1.ops[m]
  {
    hide Extends, SizeB, CodeB, IsMarker;
    KeepMark(s1, s3, m);
    KeepB(s2, s3, m + 1, body, brk, cont);
  }

  lemma ElifMade(m: nat, test: Expr, body: Block, rest: Else, brk: int, cont: int, tagOut: int, next: int, s1: Snap,
                 s3: Snap, s4: Snap)
    requires SingleIf(s3, m + 1, Some(test), body, brk, cont, tagOut, next) && Extends(s1, s4) && Extends(s3, s4)
    requires IsMarker(s1.ops, m)
    requires |s4.ops| == m + SizeElse(Elif(test, body, rest)) + 1
    requires IsMarker(s4.ops, |s4.ops| - 1) && s4.ops[|s4.ops| - 1] == tagOut && (next == tagOut <==> rest.NoElse?)
    requires var r := m + 1 + SizeE(test) + 5 + SizeB(body) + 5;
             !rest.NoElse? ==> IsMarker(s4.ops, r) && s4.ops[r] == next
                               && CodeElse(K(s4), s4.ops, r, rest, |s4.ops| - 1, brk, cont)
    ensures CodeElse(K(s4), s4.ops, m, Elif(test, body, rest), |s4.ops| - 1, brk, cont)
    ensures IsMarker(s4.ops, m) && s4.ops[m] == s1.ops[m]
  {
    hide Extends, SizeE, SizeB, CodeE, CodeB, Jumps, IsMarker, JumpTo;
    var q, out := m + 1 + SizeE(test), |s4.ops| - 1;
    var r := q + 5 + SizeB(body);
    KeepMark(s1, s4, m);
    KeepE(s3, s4, m + 1, test);
    KeepB(s3, s4, q + 5, body, brk, cont);
    if rest.NoElse? {
      JumpMade(s3, s4, q, JUMP_FALSE, next, out);
    } else {
      JumpMade(s3, s4, q, JUMP_FALSE, next, r + 5);
      JumpMade(s3, s4, r, JUMP, tagOut, out);
    }
  }

  lemma ElifDid(s0: Snap, s1: Snap, s2: Snap, s3: Snap, s4: Snap, a: set<int>, tagNext: int, tagOut: int, next: int)
    requires Did(s0, s1, {}, {tagNext}) && Did(s1, s2, {}, {}) && Did(s2, s3, a + {next, tagOut}, {})
    requires tagNext !in a && tagOut !in a
    requires if next == tagOut then Did(s3, s4, {}, {tagOut}) else Did(s3, s4, a, {next, tagOut}) && next >= s1.tag
    ensures Did(s0, s4, a, {tagNext, tagOut}) && Extends(s1, s4) && Extends(s3, s4)
  {
    hide Did, Extends;
    if next == tagOut {
      DidTrans(s2, a + {next, tagOut}, {}, s3, {}, {tagOut}, s4, a, {tagOut});
      DidTrans(s1, {}, {}, s2, a, {tagOut}, s4, a, {tagOut});
    } else {
      DidTrans(s2, a + {next, tagOut}, {}, s3, a, {next, tagOut}, s4, a, {next, tagOut});
      DidTrans(s1, {}, {}, s2, a, {next, tagOut}, s4, a, {tagOut});
    }
    DidTrans(s0, {}, {tagNext}, s1, a, {tagOut}, s4, a, {tagNext, tagOut});
  }

  /** The end of a loop: the continue marker at m, the jump back at j. */
  predicate BackAt(s: Snap, m: nat, j: nat, step: Option<Expr>, start: nat, tagOut: int, tagLoop: int) {
    IsMarker(s.ops, m) && s.ops[m] == tagLoop && CodeMaybe(K(s), s.ops, m + 1, step) && Wide(s.ops, j, JUMP, start)
    && IsMarker(s.ops, j + 5) && s.ops[j + 5] == tagOut
  }

  lemma RoundsMade(start: nat, test: Expr, step: Option<Expr>, body: Block, tagOut: int, tagLoop: int, s1: Snap,
                   s2: Snap, s3: Snap, s4: Snap)
    requires Extends(s1, s4) && Extends(s2, s4) && Extends(s3, s4)
    requires var q := start + SizeE(test);
             var m := q + 5 + SizeB(body);
             CodeE(K(s1), s1.ops, start, test) && Jumps(s2.ops, q, JUMP_FALSE, tagOut)
             && CodeB(K(s3), s3.ops, q + 5, body, tagOut, tagLoop)
             && BackAt(s4, m, m + 1 + SizeMaybe(step), step, start, tagOut, tagLoop)
    ensures CodeRounds(K(s4), s4.ops, start, test, step, body)
  {
    hide Extends, SizeE, SizeB, SizeMaybe, CodeE, CodeB, Jumps, BackAt, CodeRoundsAt;
    var q := start + SizeE(test);
    var m := q + 5 + SizeB(body);
    KeepE(s1, s4, start, test);
    RoundsAtMade(start, q, m, m + 1 + SizeMaybe(step), step, body, tagOut, tagLoop, s2, s3, s4);
  }

  lemma RoundsAtMade(start: nat, q: nat, m: nat, j: nat, step: Option<Expr>, body: Block, tagOut: int, tagLoop: int,
                     s2: Snap, s3: Snap, s4: Snap)
    requires Extends(s2, s4) && Extends(s3, s4) && q < j
    requires Jumps(s2.ops, q, JUMP_FALSE, tagOut) && CodeB(K(s3), s3.ops, q + 5, body, tagOut, tagLoop)
    requires BackAt(s4, m, j, step, start, tagOut, tagLoop)
    ensures CodeRoundsAt(K(s4), s4.ops, start, q, m, j, step, body)
  {
    hide Extends, CodeB, CodeMaybe, Jumps, Wide, IsMarker, JumpTo;
    JumpMade(s2, s4, q, JUMP_FALSE, tagOut, j + 5);
    KeepB(s3, s4, q + 5, body, tagOut, tagLoop);
    LabelHere(s4, m);
    LabelHere(s4, j + 5);
  }

  lemma LabelHere(s: Snap, q: nat)
    requires IsMarker(s.ops, q)
    ensures Label(K(s), s.ops, q) == s.ops[q] && Mark(K(s), s.ops, q)
  {}

  lemma ItemsMade(n: nat, name: string, index: Option<string>, body: Block, tagOut: int, tagLoop: int, s1: Snap,
                  s2: Snap, s3: Snap, s4: Snap, s5: Snap, s6: Snap, s7: Snap)
    requires Extends(s1, s7) && Extends(s2, s7) && Extends(s3, s7) && Extends(s4, s7) && Extends(s5, s7)
             && Extends(s6, s7)
    requires var b := n + 5 + SizeItem(index);
             var m := b + SizeB(body);
             Jumps(s1.ops, n, NEXT_ITER_OR_JUMP, tagOut) && CodeItem(K(s2), s2.ops, n + 5, name, index)
             && CodeB(K(s3), s3.ops, b, body, tagOut, tagLoop) && IsMarker(s4.ops, m) && s4.ops[m] == tagLoop
             && Wide(s5.ops, m + 1, JUMP, n) && IsMarker(s6.ops, m + 6) && s6.ops[m + 6] == tagOut
             && At(s7.ops, m + 7, POP)
    ensures CodeItems(K(s7), s7.ops, n, name, index, body)
  {
    hide Extends, SizeB, SizeItem, CodeB, CodeItem, Jumps, Wide, At, IsMarker, JumpTo;
    var b := n + 5 + SizeItem(index);
    var m := b + SizeB(body);
    KeepMark(s6, s7, m + 6);
    KeepMark(s4, s7, m);
    JumpMade(s1, s7, n, NEXT_ITER_OR_JUMP, tagOut, m + 6);
    KeepItem(s2, s7, n + 5, name, index);
    KeepB(s3, s7, b, body, tagOut, tagLoop);
    KeepWide(s5, s7, m + 1, JUMP, n);
    LabelHere(s7, m);
    LabelHere(s7, m + 6);
  }

  // ----- try -----

  /** The guarded block, and the jump over its handler. */
  predicate TryBlock(s: Snap, p: nat, body: Block, brk: int, cont: int, tagCatch: int, tagOut: int) {
    var r := p + 5 + SizeB(body);
    Jumps(s.ops, p, PUSH_CATCH, tagCatch) && CodeB(K(s), s.ops, p + 5, body, brk, cont)
    && At(s.ops, r, POP_CATCH) && Jumps(s.ops, r + 1, JUMP, tagOut)
  }

  predicate CatchBlock(s: Snap, c: nat, name: string, handler: Block, brk: int, cont: int, tagCatch: int, tagOut: int) {
    var out := c + 7 + SizeB(handler);
    IsMarker(s.ops, c) && s.ops[c] == tagCatch && NameAt(K(s), s.ops, c + 1, SAVE_CLOSE, name) && At(s.ops, c + 6, POP)
    && CodeB(K(s), s.ops, c + 7, handler, brk, cont) && IsMarker(s.ops, out) && s.ops[out] == tagOut
  }

  lemma TryBlockMade(p: nat, body: Block, brk: int, cont: int, tagCatch: int, tagOut: int, s1: Snap, s2: Snap,
                     s3: Snap, s4: Snap)
    requires Extends(s1, s4) && Extends(s2, s4) && Extends(s3, s4)
    requires var r := p + 5 + SizeB(body);
             Jumps(s1.ops, p, PUSH_CATCH, tagCatch) && CodeB(K(s2), s2.ops, p + 5, body, brk, cont)
             && At(s3.ops, r, POP_CATCH) && Jumps(s4.ops, r + 1, JUMP, tagOut)
    ensures TryBlock(s4, p, body, brk, cont, tagCatch, tagOut)
  {
    hide Extends, CodeB, SizeB, Jumps, At;
    KeepJumps(s1, s4, p, PUSH_CATCH, tagCatch);
    KeepB(s2, s4, p + 5, body, brk, cont);
    KeepAt(s3, s4, p + 5 + SizeB(body), POP_CATCH);
  }

  lemma CatchBlockMade(c: nat, name: string, handler: Block, brk: int, cont: int, tagCatch: int, tagOut: int,
                       s1: Snap, s2: Snap, s3: Snap, s4: Snap, s5: Snap)
    requires Extends(s1, s5) && Extends(s2, s5) && Extends(s3, s5) && Extends(s4, s5)
    requires var out := c + 7 + SizeB(handler);
             IsMarker(s1.ops, c) && s1.ops[c] == tagCatch && NameAt(K(s2), s2.ops, c + 1, SAVE_CLOSE, name)
             && At(s3.ops, c + 6, POP) && CodeB(K(s4), s4.ops, c + 7, handler, brk, cont)
             && IsMarker(s5.ops, out) && s5.ops[out] == tagOut
    ensures CatchBlock(s5, c, name, handler, brk, cont, tagCatch, tagOut)
  {
    hide Extends, CodeB, SizeB, NameAt, At, IsMarker;
    KeepMark(s1, s5, c);
    KeepName(s2, s5, c + 1, SAVE_CLOSE, name);
    KeepAt(s3, s5, c + 6, POP);
    KeepB(s4, s5, c + 7, handler, brk, cont);
  }

  lemma TryMade(p: nat, body: Block, name: string, handler: Block, brk: int, cont: int, tagCatch: int, tagOut: int,
                s1: Snap, s2: Snap)
    requires Extends(s1, s2) && TryBlock(s1, p, body, brk, cont, tagCatch, tagOut)
    requires CatchBlock(s2, p + 5 + SizeB(body) + 6, name, handler, brk, cont, tagCatch, tagOut)
    ensures CodeTry(K(s2), s2.ops, p, body, name, handler, brk, cont)
  {
    hide Extends, CodeB, SizeB, Jumps, JumpTo, NameAt, At, IsMarker;
    var r := p + 5 + SizeB(body);
    var c := r + 6;
    var out := c + 7 + SizeB(handler);
    KeepB(s1, s2, p + 5, body, brk, cont);
    KeepAt(s1, s2, r, POP_CATCH);
    JumpMade(s1, s2, p, PUSH_CATCH, tagCatch, c);
    JumpMade(s1, s2, r + 1, JUMP, tagOut, out);
    MarkHere(s2, c);
    MarkHere(s2, out);
  }

  lemma CondSize(op: CondOp, a: Expr, b: Expr)
    ensures SizeE(Cond(op, a, b)) == SizeE(a) + 5 + SizeE(b) + if b.Cond? then 0 else 1
  {}

  lemma MarkHere(s: Snap, p: nat)
    requires IsMarker(s.ops, p)
    ensures Mark(K(s), s.ops, p)
  {}

  lemma CondMade(k: Tables, ops: Ops, p: nat, op: CondOp, a: Expr, b: Expr, end: nat)
    requires CodeE(k, ops, p, a) && JumpTo(k, ops, p + SizeE(a), CondOpcode(op), end)
    requires if b.Cond? then CodeCond(k, ops, p + SizeE(a) + 5, b.cop, b.left, b.right, end)
             else CodeE(k, ops, p + SizeE(a) + 5, b) && end == p + SizeE(a) + 5 + SizeE(b) && Mark(k, ops, end)
    ensures CodeCond(k, ops, p, op, a, b, end)
  {
    hide CodeE, SizeE, JumpTo, Mark;
  }

  lemma TernarySize(a: Expr, b: Expr, c: Expr)
    ensures SizeE(Ternary(a, b, c)) == SizeE(a) + 5 + SizeE(b) + 6 + SizeE(c) + 1
  {}

  lemma TernaryMade(p: nat, a: Expr, b: Expr, c: Expr, tagNext: int, tagOut: int, s1: Snap, s2: Snap, s3: Snap,
                    s4: Snap, s5: Snap, s6: Snap, s7: Snap)
    requires Extends(s1, s7) && Extends(s2, s7) && Extends(s3, s7) && Extends(s4, s7) && Extends(s5, s7)
             && Extends(s6, s7)
    requires CodeE(K(s1), s1.ops, p, a) && Jumps(s2.ops, p + SizeE(a), JUMP_FALSE, tagNext)
    requires var q := p + SizeE(a) + 5;
             CodeE(K(s3), s3.ops, q, b) && Jumps(s4.ops, q + SizeE(b), JUMP, tagOut)
             && IsMarker(s5.ops, q + SizeE(b) + 5) && s5.ops[q + SizeE(b) + 5] == tagNext
    requires var r := p + SizeE(a) + 5 + SizeE(b) + 6;
             CodeE(K(s6), s6.ops, r, c) && IsMarker(s7.ops, r + SizeE(c)) && s7.ops[r + SizeE(c)] == tagOut
    ensures CodeTernary(K(s7), s7.ops, p, a, b, c)
  {
    hide Extends, SizeE, CodeE, Jumps, IsMarker, JumpTo;
    var q := p + SizeE(a);
    var r := q + 5 + SizeE(b);
    var end := r + 6 + SizeE(c);
    KeepE(s1, s7, p, a);
    KeepE(s3, s7, q + 5, b);
    KeepE(s6, s7, r + 6, c);
    KeepMark(s5, s7, r + 5);
    MarkHere(s7, end);
    JumpMade(s2, s7, q, JUMP_FALSE, tagNext, r + 5);
    JumpMade(s4, s7, r, JUMP, tagOut, end);
  }

  lemma UpdateMade(p: nat, op: BinOp, t: Expr, i: Expr, v: Expr, s1: Snap, s2: Snap, s3: Snap, s4: Snap, s5: Snap,
                   s6: Snap, s7: Snap, s8: Snap)
    requires Extends(s1, s8) && Extends(s2, s8) && Extends(s3, s8) && Extends(s4, s8)
    requires Extends(s5, s8) && Extends(s6, s8) && Extends(s7, s8)
    requires CodeE(K(s1), s1.ops, p, t) && CodeE(K(s2), s2.ops, p + SizeE(t), i)
    requires var q := p + SizeE(t) + SizeE(i);
             At(s3.ops, q, DDUPLICATE) && At(s4.ops, q + 1, LOAD_INDEX) && CodeE(K(s5), s5.ops, q + 2, v)
             && At(s6.ops, q + 2 + SizeE(v), BinaryOpcode(op)) && At(s7.ops, q + 2 + SizeE(v) + 1, SINK_FIRST)
             && At(s8.ops, q + 2 + SizeE(v) + 2, SAVE_INDEX)
    ensures CodeUpdate(K(s8), s8.ops, p, op, t, i, v)
  {
    hide Extends, At, CodeE, SizeE, BinaryOpcode;
    var q := p + SizeE(t) + SizeE(i);
    KeepE(s1, s8, p, t);
    KeepE(s2, s8, p + SizeE(t), i);
    KeepAt(s3, s8, q, DDUPLICATE);
    KeepAt(s4, s8, q + 1, LOAD_INDEX);
    KeepE(s5, s8, q + 2, v);
    KeepAt(s6, s8, q + 2 + SizeE(v), BinaryOpcode(op));
    KeepAt(s7, s8, q + 2 + SizeE(v) + 1, SINK_FIRST);
  }

  /** The expressions of es before `list` have their code from p up to q. */
  predicate CodedUpTo(k: Tables, ops: Ops, p: nat, es: Exprs, list: Exprs, q: nat)
    decreases es
  {
    if es == list then q == p
    else es.More? && CodeE(k, ops, p, es.head) && CodedUpTo(k, ops, p + SizeE(es.head), es.tail, list, q)
  }

  lemma ListBegins(s: Snap, es: Exprs)
    ensures CodedUpTo(K(s), s.ops, |s.ops|, es, es, |s.ops|) && Did(s, s, {}, {})
  {}

  lemma {:induction false} OneMore(k: Tables, ops: Ops, p: nat, es: Exprs, list: Exprs, q: nat)
    requires CodedUpTo(k, ops, p, es, list, q) && list.More? && CodeE(k, ops, q, list.head)
    ensures CodedUpTo(k, ops, p, es, list.tail, q + SizeE(list.head))
    ensures list.tail < es
    decreases es
  {
    hide CodeE, SizeE;
    if es != list {
      OneMore(k, ops, p + SizeE(es.head), es.tail, list, q);
    }
  }

  lemma {:induction false} AllCoded(k: Tables, ops: Ops, p: nat, es: Exprs, q: nat)
    requires CodedUpTo(k, ops, p, es, Nothing, q)
    ensures CodeAll(k, ops, p, es)
    decreases es
  {
    hide CodeE, SizeE;
    if es.More? {
      AllCoded(k, ops, p + SizeE(es.head), es.tail, q);
    }
  }

  lemma {:induction false} KeepUpTo(s1: Snap, s2: Snap, p: nat, es: Exprs, list: Exprs, q: nat)
    requires Extends(s1, s2) && CodedUpTo(K(s1), s1.ops, p, es, list, q)
    ensures CodedUpTo(K(s2), s2.ops, p, es, list, q)
    decreases es
  {
    hide Extends, CodeE, SizeE;
    if es != list {
      KeepE(s1, s2, p, es.head);
      KeepUpTo(s1, s2, p + SizeE(es.head), es.tail, list, q);
    }
  }

  lemma KeepAll(s1: Snap, s2: Snap, p: nat, es: Exprs)
    requires Extends(s1, s2) && CodeAll(K(s1), s1.ops, p, es)
    ensures CodeAll(K(s2), s2.ops, p, es)
  {
    hide Extends, CodeAll, Carries, KeepsRefs;
    ExtendsCarries(s1, s2);
    CarryAll(K(s1), s1.ops, K(s2), s2.ops, p, es);
  }

  lemma FiveAppended(ops: Ops, o: int, n: int, ops2: Ops)
    requires ops2 == ops + ([o] + LittleEndian(n)) && 0 <= o < 256 && 0 <= n < CODE_LIMIT
    ensures Wide(ops2, |ops|, o, n) && NoTags([o] + LittleEndian(n)) && |ops2| == |ops| + 5
  {
    hide Operand;
    var p := |ops|;
    assert ops2[p] == o;
    assert ops2[p + 1..p + 5] == LittleEndian(n);
    LittleEndianDecodes(ops2, p + 1, n);
  }
}

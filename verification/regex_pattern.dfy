/** Well-formed patterns as people write them, and the proof that the parser
    reads each of them back (src/stdlib/regex.c:211-462). */
module RegexPattern {
  import opened RegexSyntax
  import opened RegexParser

  type Text = seq<Ascii>

  datatype ClassItem = Single(c: Ascii, escaped: bool) | Span(c: Ascii, escaped: bool, to: Ascii)

  datatype Pattern = One(term: Term) | Alternative(term: Term, rest: Pattern)
  datatype Term = Empty | Then(init: Term, factor: Factor)
  datatype Factor = Plain(atom: Atom) | Star(body: Factor) | Plus(body: Factor) | Optional(body: Factor)
  datatype Atom =
    | Letter(c: Ascii)
    | Dot
    | Escaped(c: Ascii)
    | Group(pattern: Pattern)
    | Bracket(negate: bool, first: ClassItem, more: seq<ClassItem>)

  // ----- how a pattern is written -----

  function PrintItem(item: ClassItem): (t: Text)
    ensures t != []
  {
    (if item.escaped then ['\\'] else []) + [item.c] + PrintTo(item)
  }

  function PrintTo(item: ClassItem): Text {
    if item.Span? then ['-', item.to] else []
  }

  function PrintItems(items: seq<ClassItem>): Text {
    if items == [] then [] else PrintItem(items[0]) + PrintItems(items[1..])
  }

  function PrintAtom(a: Atom): (t: Text)
    ensures t != []
  {
    match a
    case Letter(c) => [c]
    case Dot => ['.']
    case Escaped(c) => ['\\', c]
    case Group(p) => ['('] + Print(p) + [')']
    case Bracket(negate, first, more) =>
      ['['] + (if negate then ['^'] else []) + PrintItem(first) + PrintItems(more) + [']']
  }

  function PrintFactor(f: Factor): (t: Text)
    ensures t != []
  {
    match f
    case Plain(a) => PrintAtom(a)
    case Star(g) => PrintFactor(g) + ['*']
    case Plus(g) => PrintFactor(g) + ['+']
    case Optional(g) => PrintFactor(g) + ['?']
  }

  function PrintTerm(t: Term): Text {
    match t
    case Empty => []
    case Then(init, f) => PrintTerm(init) + PrintFactor(f)
  }

  function Print(p: Pattern): Text {
    match p
    case One(t) => PrintTerm(t)
    case Alternative(t, rest) => PrintTerm(t) + ['|'] + Print(rest)
  }

  // ----- which patterns are well formed -----

  /** Characters with a meaning of their own where an atom may begin. */
  predicate Special(c: char) {
    c in {'|', ')', '(', '\\', '[', '.', '*', '+', '?'}
  }

  /** Whether `item` may follow `before` inside a bracket without being read otherwise. */
  predicate MayFollow(before: ClassItem, item: ClassItem) {
    item.escaped || (item.c != ']' && item.c != '\\' && (before.Single? ==> item.c != '-'))
  }

  predicate WellFollowed(before: ClassItem, items: seq<ClassItem>)
    decreases items
  {
    items == [] || (MayFollow(before, items[0]) && WellFollowed(items[0], items[1..]))
  }

  predicate WellAtom(a: Atom) {
    match a
    case Letter(c) => !Special(c)
    case Dot => true
    case Escaped(c) => true
    case Group(p) => WellFormed(p)
    case Bracket(negate, first, more) =>
      !first.escaped && (negate || first.c != '^') && WellFollowed(first, more)
  }

  predicate WellFactor(f: Factor) {
    match f
    case Plain(a) => WellAtom(a)
    case Star(g) => WellFactor(g)
    case Plus(g) => WellFactor(g)
    case Optional(g) => WellFactor(g)
  }

  predicate WellTerm(t: Term) {
    t.Then? ==> WellTerm(t.init) && WellFactor(t.factor)
  }

  predicate WellFormed(p: Pattern) {
    WellTerm(p.term) && (p.Alternative? ==> WellFormed(p.rest))
  }

  // ----- the tree each pattern stands for -----

  function ItemRange(item: ClassItem): Range {
    Range(item.c as int, if item.Span? then item.to as int else -1)
  }

  function ItemRanges(items: seq<ClassItem>): seq<Range> {
    if items == [] then [] else [ItemRange(items[0])] + ItemRanges(items[1..])
  }

  function AtomTree(a: Atom): Ast {
    match a
    case Letter(c) => Base(c as int)
    case Dot => Base(ANY)
    case Escaped(c) => if IsPredefined(c) then Class(Predefined(c)) else Base(c as int)
    case Group(p) => Tree(p)
    case Bracket(negate, first, more) => Class(CharClass(negate, [ItemRange(first)] + ItemRanges(more)))
  }

  function FactorTree(f: Factor): Ast {
    match f
    case Plain(a) => AtomTree(a)
    case Star(g) => Repetition(FactorTree(g))
    case Plus(g) => AtLeastOne(FactorTree(g))
    case Optional(g) => OneOrNone(FactorTree(g))
  }

  function TermTree(t: Term): Ast {
    match t
    case Empty => Blank
    case Then(init, f) => Sequence(TermTree(init), FactorTree(f))
  }

  function Tree(p: Pattern): Ast {
    match p
    case One(t) => TermTree(t)
    case Alternative(t, rest) => Or(TermTree(t), Tree(rest))
  }

  // ----- the parser reads every well-formed pattern back -----

  function At(t: Text): Scan {
    Scan(t, false, false)
  }

  /** What stands behind the first character of an item. */
  function Behind(item: ClassItem, more: seq<ClassItem>, r: Text): Text {
    PrintTo(item) + (PrintItems(more) + ([']'] + r))
  }

  /** Reading the first character of the next item. */
  lemma NextItem(before: ClassItem, more: seq<ClassItem>, r: Text)
    requires more != [] && MayFollow(before, more[0])
    ensures var rest := PrintItems(more) + ([']'] + r);
            rest != [] && rest[0] != ']'
            && ClassNext(At(rest)) == (more[0].c, more[0].escaped, At(Behind(more[0], more[1..], r)))
  {
    var next, end := more[0], [']'] + r;
    var after := PrintItems(more[1..]) + end;
    var tail := PrintTo(next) + after;
    var mark: Text := if next.escaped then ['\\'] else [];
    Regrouped(PrintItem(next), PrintItems(more[1..]), end);
    Regrouped(mark + [next.c], PrintTo(next), after);
    Regrouped(mark, [next.c], tail);
    var rest := PrintItems(more) + end;
    assert rest == mark + ([next.c] + tail);
    hide PrintItems, PrintItem, PrintTo;
    FirstOf(next.c, tail);
    if next.escaped {
      FirstOf('\\', [next.c] + tail);
    } else {
      assert rest == [next.c] + tail;
    }
  }

  lemma Regrouped(a: Text, b: Text, c: Text)
    ensures (a + b) + c == a + (b + c)
  {}

  lemma FirstOf(c: Ascii, t: Text)
    ensures [c] + t != [] && ([c] + t)[0] == c && ([c] + t)[1..] == t
  {}

  lemma {:induction false} ItemsParse(item: ClassItem, more: seq<ClassItem>, acc: seq<Range>, r: Text)
    requires WellFollowed(item, more)
    ensures ParseItems(item.c, acc, At(Behind(item, more, r)))
         == (acc + ([ItemRange(item)] + ItemRanges(more)), At([']'] + r))
    decreases more
  {
    var rest := PrintItems(more) + ([']'] + r);
    var acc' := acc + [ItemRange(item)];
    ItemFiled(item, acc, rest);
    if more == [] {
      assert rest == [']'] + r;
      assert acc + ([ItemRange(item)] + []) == acc';
    } else {
      NextItem(item, more, r);
      ItemsParse(more[0], more[1..], acc', r);
      assert acc' + ([ItemRange(more[0])] + ItemRanges(more[1..])) == acc + ([ItemRange(item)] + ItemRanges(more));
    }
  }

  /** One turn of the loop files the item whose first character is pending. */
  lemma ItemFiled(item: ClassItem, acc: seq<Range>, rest: Text)
    requires rest != []
    requires rest[0] != ']' && item.Single? ==> ClassNext(At(rest)).0 != '-' || ClassNext(At(rest)).1
    ensures ParseItems(item.c, acc, At(PrintTo(item) + rest))
         == if rest[0] == ']' then (acc + [ItemRange(item)], At(rest))
            else ParseItems(ClassNext(At(rest)).0, acc + [ItemRange(item)], ClassNext(At(rest)).2)
  {
    var input := PrintTo(item) + rest;
    if item.Span? {
      assert input[1..] == [item.to] + rest && input[1..][1..] == rest;
      assert ClassNext(At(input)) == ('-', false, At([item.to] + rest));
    } else {
      assert input == rest;
    }
  }

  lemma Regroup(caret: Text, c: Text, to: Text, items: Text, r: Text)
    ensures ['['] + caret + (c + to) + items + [']'] + r == ['['] + (caret + (c + (to + (items + ([']'] + r)))))
  {}

  lemma BracketParse(a: Atom, r: Text)
    requires a.Bracket? && WellAtom(a)
    ensures ParseBase(At(PrintAtom(a) + r)) == (AtomTree(a), At(r))
  {
    var tail := Behind(a.first, a.more, r);
    var caret: Text := if a.negate then ['^'] else [];
    var s1 := caret + ([a.first.c] + tail);
    assert PrintItem(a.first) == [a.first.c] + PrintTo(a.first);
    Regroup(caret, [a.first.c], PrintTo(a.first), PrintItems(a.more), r);
    assert PrintAtom(a) + r == ['['] + s1;
    hide PrintItems, PrintAtom, PrintItem;
    assert ParseClass(At(s1)) == (AtomTree(a), At([']'] + r)) by {
      ClassParse(a, s1, tail, r);
    }
    assert (['['] + s1)[1..] == s1 && ([']'] + r)[1..] == r;
  }

  lemma ClassParse(a: Atom, s1: Text, tail: Text, r: Text)
    requires a.Bracket? && WellAtom(a) && tail == Behind(a.first, a.more, r)
    requires s1 == (if a.negate then ['^'] else []) + ([a.first.c] + tail)
    ensures ParseClass(At(s1)) == (AtomTree(a), At([']'] + r))
  {
    hide ParseItems, ItemRanges, WellFollowed, PrintItems;
    ItemsParse(a.first, a.more, [], r);
    var rs := [ItemRange(a.first)] + ItemRanges(a.more);
    assert [] + rs == rs;
    assert ParseItems(a.first.c, [], At(tail)) == (rs, At([']'] + r));
    var s2 := [a.first.c] + tail;
    assert s2[1..] == tail;
    if a.negate {
      assert s1[1..] == s2;
    } else {
      assert s1 == s2;
    }
  }

  lemma {:induction false} AtomParse(a: Atom, r: Text)
    requires WellAtom(a)
    ensures ParseBase(At(PrintAtom(a) + r)) == (AtomTree(a), At(r))
    decreases a, 0
  {
    var input := PrintAtom(a) + r;
    match a
    case Letter(c) =>
      assert input[1..] == r;
    case Dot =>
      assert input[1..] == r;
    case Escaped(c) =>
      assert input[1..] == [c] + r && ([c] + r)[1..] == r;
    case Group(p) =>
      PatternParse(p, [')'] + r);
      assert input[1..] == Print(p) + ([')'] + r);
      assert ([')'] + r)[1..] == r;
    case Bracket(_, _, _) =>
      BracketParse(a, r);
  }

  /** A factor is read up to, not including, whatever suffixes follow it. */
  lemma {:induction false} FactorParse(f: Factor, r: Text)
    requires WellFactor(f)
    ensures ParseFactor(At(PrintFactor(f) + r)) == ParseSuffixes(FactorTree(f), At(r))
    decreases f, 0
  {
    match f
    case Plain(a) =>
      AtomParse(a, r);
    case Star(g) =>
      SuffixParse(g, '*', r);
    case Plus(g) =>
      SuffixParse(g, '+', r);
    case Optional(g) =>
      SuffixParse(g, '?', r);
  }

  lemma {:induction false} SuffixParse(g: Factor, suffix: Ascii, r: Text)
    requires WellFactor(g) && (suffix == '*' || suffix == '+' || suffix == '?')
    ensures ParseFactor(At(PrintFactor(g) + [suffix] + r))
         == ParseSuffixes(Suffixed(suffix, FactorTree(g)), At(r))
    decreases g, 1
  {
    FactorParse(g, [suffix] + r);
    assert PrintFactor(g) + [suffix] + r == PrintFactor(g) + ([suffix] + r);
    assert ([suffix] + r)[1..] == r;
  }

  lemma {:induction false} FactorStart(f: Factor)
    requires WellFactor(f)
    ensures PrintFactor(f)[0] !in {'|', ')', '*', '+', '?'}
  {
    match f
    case Plain(a) =>
    case Star(g) => FactorStart(g);
    case Plus(g) => FactorStart(g);
    case Optional(g) => FactorStart(g);
  }

  /** What may follow a term: the end, a bar or a closing parenthesis. */
  predicate EndsTerm(r: Text) {
    r == [] || r[0] == '|' || r[0] == ')'
  }

  lemma {:induction false} TermParse(t: Term, r: Text)
    requires WellTerm(t) && (r != [] ==> r[0] !in {'*', '+', '?'})
    ensures ParseTerm(Blank, At(PrintTerm(t) + r)) == ParseTerm(TermTree(t), At(r))
    decreases t, 0
  {
    match t
    case Empty =>
      assert PrintTerm(t) + r == r;
    case Then(init, f) =>
      var q := PrintFactor(f) + r;
      FactorStart(f);
      TermParse(init, q);
      assert PrintTerm(t) + r == PrintTerm(init) + q;
      FactorParse(f, r);
      assert ParseSuffixes(FactorTree(f), At(r)) == (FactorTree(f), At(r));
  }

  lemma TermStops(factor: Ast, r: Text)
    requires EndsTerm(r)
    ensures ParseTerm(factor, At(r)) == (factor, At(r))
  {}

  lemma {:induction false} PatternParse(p: Pattern, r: Text)
    requires WellFormed(p) && (r == [] || r[0] == ')')
    ensures ParseRegex(At(Print(p) + r)) == (Tree(p), At(r))
    decreases p, 0
  {
    hide PrintTerm, TermTree, WellTerm, ParseTerm;
    match p
    case One(t) =>
      TermParse(t, r);
      TermStops(TermTree(t), r);
    case Alternative(t, rest) =>
      var q := ['|'] + Print(rest) + r;
      TermParse(t, q);
      TermStops(TermTree(t), q);
      assert Print(p) + r == PrintTerm(t) + q;
      assert q[1..] == Print(rest) + r;
      PatternParse(rest, r);
  }

  /** The whole of a well-formed pattern parses to its tree, without an error and
      without reading past its end. */
  lemma ParserInvertsPrint(p: Pattern)
    requires WellFormed(p)
    ensures ParseRegex(Scan(Print(p), false, false)) == (Tree(p), Scan([], false, false))
  {
    PatternParse(p, []);
    assert Print(p) + [] == Print(p);
  }
}

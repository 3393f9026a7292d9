/** The recursive-descent parser (src/stdlib/regex.c:146-462): what it computes,
    and the compiler object that computes it by moving its input pointer. */
module RegexParser {
  import opened RegexSyntax

  /** The parser's position. `overrun` records that a read went past the
      terminating NUL, where the C program's behaviour is undefined. */
  datatype Scan = Scan(input: seq<Ascii>, error: bool, overrun: bool) {
    function Peek(): char {
      if input == [] then '\0' else input[0]
    }

    predicate HasMore() { input != [] }

    function Next(): (char, Scan) {
      if input == [] then ('\0', this.(overrun := true)) else (input[0], this.(input := input[1..]))
    }

    function Eat(wanted: char): Scan {
      if Peek() == wanted then Next().1 else this.(error := true)
    }

    predicate AtSuffix() { Peek() == '*' || Peek() == '+' || Peek() == '?' }
  }

  function Suffixed(suffix: char, base: Ast): Ast {
    if suffix == '*' then Repetition(base) else if suffix == '+' then AtLeastOne(base) else OneOrNone(base)
  }

  const DIGITS := [Range('0' as int, '9' as int)]
  const SPACES := [Range(' ' as int, -1), Range('\t' as int, -1), Range('\n' as int, -1),
                   Range(11, -1), Range(12, -1), Range('\r' as int, -1)]
  const WORDS := [Range('a' as int, 'z' as int), Range('A' as int, 'Z' as int), Range('0' as int, '9' as int),
                  Range('_' as int, -1)]

  predicate IsPredefined(c: char) {
    c == 'd' || c == 'D' || c == 's' || c == 'S' || c == 'w' || c == 'W'
  }

  function Predefined(c: char): CharClass
    requires IsPredefined(c)
  {
    CharClass(c == 'D' || c == 'S' || c == 'W',
              if c == 'd' || c == 'D' then DIGITS else if c == 's' || c == 'S' then SPACES else WORDS)
  }

  /** A character of a bracket, and whether a backslash stood before it. */
  function ClassNext(s: Scan): (char, bool, Scan) {
    var (c, s1) := s.Next();
    if c != '\\' then (c, false, s1) else
      var (d, s2) := s1.Next();
      (d, true, s2)
  }

  /** The loop of rgxc_class: `c` is read but not yet filed. */
  function ParseItems(c: char, items: seq<Range>, s: Scan): (r: (seq<Range>, Scan))
    ensures |r.1.input| <= |s.input|
    decreases |s.input|
  {
    if s.HasMore() && s.Peek() != ']' then
      var (n, escape, s1) := ClassNext(s);
      if n == '-' && !escape then
        var (to, s2) := s1.Next();
        var items' := items + [Range(c as int, to as int)];
        if s2.Peek() == ']' then (items', s2) else
          var (c', _, s3) := ClassNext(s2);
          ParseItems(c', items', s3)
      else ParseItems(n, items + [Range(c as int, -1)], s1)
    else (if c != '\0' then items + [Range(c as int, -1)] else items, s)
  }

  function ParseClass(s: Scan): (r: (Ast, Scan))
    ensures |r.1.input| <= |s.input|
  {
    var (c, s1) := s.Next();
    var negate := c == '^';
    var (c', s2) := if negate then s1.Next() else (c, s1);
    var (items, s3) := ParseItems(c', [], s2);
    (Class(CharClass(negate, items)), s3)
  }

  function ParseBase(s: Scan): (r: (Ast, Scan))
    requires s.HasMore()
    ensures |r.1.input| < |s.input|
    decreases |s.input|, 0
  {
    if s.Peek() == '(' then
      var (r, s1) := ParseRegex(s.Eat('('));
      (r, s1.Eat(')'))
    else if s.Peek() == '\\' then
      var (c, s1) := s.Eat('\\').Next();
      (if IsPredefined(c) then Class(Predefined(c)) else Base(Code(c)), s1)
    else if s.Peek() == '[' then
      var (cls, s1) := ParseClass(s.Eat('['));
      (cls, s1.Eat(']'))
    else
      var (c, s1) := s.Next();
      (Base(if c == '.' then ANY else Code(c)), s1)
  }

  /** The code of a character that was read: NUL or 7-bit. */
  function Code(c: char): LiteralCode {
    if c as int < 128 then c as int else 0
  }

  function ParseSuffixes(base: Ast, s: Scan): (r: (Ast, Scan))
    ensures |r.1.input| <= |s.input|
    decreases |s.input|
  {
    if s.HasMore() && s.AtSuffix() then ParseSuffixes(Suffixed(s.Peek(), base), s.Next().1) else (base, s)
  }

  function ParseFactor(s: Scan): (r: (Ast, Scan))
    requires s.HasMore()
    ensures |r.1.input| < |s.input|
    decreases |s.input|, 1
  {
    var (base, s1) := ParseBase(s);
    ParseSuffixes(base, s1)
  }

  /** The loop of rgxc_term, from the factors collected so far. */
  function ParseTerm(factor: Ast, s: Scan): (r: (Ast, Scan))
    ensures |r.1.input| <= |s.input|
    decreases |s.input|, 2
  {
    if s.HasMore() && s.Peek() != '|' && s.Peek() != ')' then
      var (next, s1) := ParseFactor(s);
      ParseTerm(Sequence(factor, next), s1)
    else (factor, s)
  }

  function ParseRegex(s: Scan): (r: (Ast, Scan))
    ensures |r.1.input| <= |s.input|
    decreases |s.input|, 3
  {
    var (term, s1) := ParseTerm(Blank, s);
    if s1.HasMore() && s1.Peek() == '|' then
      var (rest, s2) := ParseRegex(s1.Eat('|'));
      (Or(term, rest), s2)
    else (term, s1)
  }

  /** rgx_compiler. */
  class Compiler {
    var input: seq<Ascii>
    var error: bool
    var overrun: bool

    constructor (text: seq<Ascii>)
      ensures Position() == Scan(text, false, false)
    {
      input, error, overrun := text, false, false;
    }

    function Position(): Scan
      reads this
    {
      Scan(input, error, overrun)
    }

    method Peek() returns (c: char)
      ensures c == Position().Peek()
    {
      if input == [] { return '\0'; }
      c := input[0];
    }

    method Next() returns (c: char)
      modifies this
      ensures (c, Position()) == old(Position()).Next()
    {
      c := Peek();
      Eat(c);
    }

    method Eat(wanted: char)
      modifies this
      ensures Position() == old(Position()).Eat(wanted)
    {
      var c := Peek();
      if c == wanted {
        if input == [] {
          overrun := true;
        } else {
          input := input[1..];
        }
      } else {
        error := true;
      }
    }

    method NextInClass() returns (c: char, escape: bool)
      modifies this
      ensures (c, escape, Position()) == ClassNext(old(Position()))
    {
      escape := false;
      c := Next();
      if c != '\\' { return; }
      escape := true;
      c := Next();
    }

    method Class() returns (cls: Ast)
      modifies this
      ensures (cls, Position()) == ParseClass(old(Position()))
    {
      var negate := false;
      var c := Next();
      if c == '^' {
        negate := true;
        c := Next();
      }
      ghost var goal := ParseItems(c, [], Position());
      var items: seq<Range> := [];
      while input != [] && input[0] != ']'
        invariant goal == ParseItems(c, items, Position())
        decreases |input|
      {
        var n, escape := NextInClass();
        if n == '-' && !escape {
          n := Next();
          items := items + [Range(c as int, n as int)];
          var p := Peek();
          if p == ']' {
            c := '\0';
            break;
          }
          c, escape := NextInClass();
          continue;
        }
        items := items + [Range(c as int, -1)];
        c := n;
      }
      if c != '\0' {
        items := items + [Range(c as int, -1)];
      }
      cls := Ast.Class(CharClass(negate, items));
    }

    method Base() returns (r: Ast)
      requires input != []
      modifies this
      ensures (r, Position()) == ParseBase(old(Position()))
      decreases |input|, 0
    {
      var p := Peek();
      if p == '(' {
        Eat('(');
        r := Regex();
        Eat(')');
      } else if p == '\\' {
        Eat('\\');
        var c := Next();
        if IsPredefined(c) {
          return Ast.Class(Predefined(c));
        }
        r := Ast.Base(Code(c));
      } else if p == '[' {
        Eat('[');
        r := Class();
        Eat(']');
      } else {
        var c := Next();
        r := Ast.Base(if c == '.' then ANY else Code(c));
      }
    }

    method Factor() returns (base: Ast)
      requires input != []
      modifies this
      ensures (base, Position()) == ParseFactor(old(Position()))
      decreases |input|, 1
    {
      base := Base();
      ghost var goal := ParseSuffixes(base, Position());
      while input != [] && Position().AtSuffix()
        invariant goal == ParseSuffixes(base, Position())
        decreases |input|
      {
        var next := Peek();
        Eat(next);
        base := Suffixed(next, base);
      }
    }

    method Term() returns (factor: Ast)
      modifies this
      ensures (factor, Position()) == ParseTerm(Blank, old(Position()))
      decreases |input|, 2
    {
      factor := Blank;
      while input != [] && input[0] != '|' && input[0] != ')'
        invariant ParseTerm(factor, Position()) == ParseTerm(Blank, old(Position()))
        invariant |input| <= |old(input)|
        decreases |input|
      {
        var next := Factor();
        factor := Sequence(factor, next);
      }
    }

    method Regex() returns (r: Ast)
      modifies this
      ensures (r, Position()) == ParseRegex(old(Position()))
      decreases |input|, 3
    {
      r := Term();
      if input != [] && input[0] == '|' {
        Eat('|');
        var rest := Regex();
        r := Or(r, rest);
      }
    }
  }
}

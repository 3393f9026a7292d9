/** Characters, character classes, the syntax tree of a regular expression and
    the language each tree denotes (src/stdlib/regex.c). */
module RegexSyntax {

  /** A non-NUL 7-bit character: what a C string of ASCII text is made of. */
  type Ascii = c: char | 0 < c as int < 128 witness 'a'

  /** Codes a state carries instead of a character. */
  const SPLIT := 256
  const MATCH := 257
  const NONE := -1
  const CHRCLS := -2
  const ANY := -3

  /** One node of a class list: a single character when `b` is negative. */
  datatype Range = Range(a: int, b: int) {
    predicate Hit(c: Ascii) {
      if b < 0 then c as int == a else a <= c as int <= b
    }
  }

  datatype CharClass = CharClass(negate: bool, items: seq<Range>) {
    /** The set of characters a class stands for. */
    predicate Contains(c: Ascii) {
      (exists i | 0 <= i < |items| :: items[i].Hit(c)) != negate
    }
  }

  /** What a literal node carries: a character, or the code of the dot. */
  type LiteralCode = c: int | c == ANY || 0 <= c < 128 witness ANY

  datatype Ast =
    | Or(first: Ast, second: Ast)
    | Sequence(first: Ast, second: Ast)
    | Base(c: LiteralCode)
    | Repetition(loop: Ast)
    | AtLeastOne(loop: Ast)
    | OneOrNone(loop: Ast)
    | Class(cls: CharClass)
    | Blank

  predicate IsLetter(c: int) {
    'a' as int <= c <= 'z' as int || 'A' as int <= c <= 'Z' as int
  }

  /** The same letter, whatever its case. */
  predicate SameLetter(a: int, b: int) {
    IsLetter(a) && IsLetter(b) && (a == b || a == b + 32 || b == a + 32)
  }

  /** Which characters a literal of the pattern stands for. */
  predicate Literal(c: int, x: Ascii, ignoreCase: bool) {
    c == ANY || c == x as int || (ignoreCase && SameLetter(c, x as int))
  }

  /** The language of a tree, by structure and by the length of the word. */
  ghost predicate Matches(ast: Ast, w: seq<Ascii>, ignoreCase: bool)
    decreases ast, |w|, 0
  {
    match ast
    case Blank => w == []
    case Base(c) => |w| == 1 && Literal(c, w[0], ignoreCase)
    case Class(cls) => |w| == 1 && cls.Contains(w[0])
    case Or(a, b) => Matches(a, w, ignoreCase) || Matches(b, w, ignoreCase)
    case Sequence(a, b) =>
      exists i | 0 <= i <= |w| :: Matches(a, w[..i], ignoreCase) && Matches(b, w[i..], ignoreCase)
    case Repetition(a) => Iterated(a, w, ignoreCase)
    case AtLeastOne(a) =>
      exists i | 0 <= i <= |w| :: Matches(a, w[..i], ignoreCase) && Iterated(a, w[i..], ignoreCase)
    case OneOrNone(a) => w == [] || Matches(a, w, ignoreCase)
  }

  /** Zero or more words of `a`, one after the other. */
  ghost predicate Iterated(a: Ast, w: seq<Ascii>, ignoreCase: bool)
    decreases a, |w|, 1
  {
    w == []
    || exists i | 0 < i <= |w| :: Matches(a, w[..i], ignoreCase) && Iterated(a, w[i..], ignoreCase)
  }

  lemma IteratedPrepend(a: Ast, w: seq<Ascii>, i: nat, ignoreCase: bool)
    requires i <= |w|
    requires Matches(a, w[..i], ignoreCase) && Iterated(a, w[i..], ignoreCase)
    ensures Iterated(a, w, ignoreCase)
  {
    if i == 0 {
      assert w[i..] == w;
    }
  }
}

/** Splitting, joining and repeating strings (src/stdlib/stl_string.c:116-153, 384-440,
    484-527; src/stdlib/stl_array.c:789-850). Strings are C strings without their NUL. */
module Strings {
  import opened Buffers

  // ----- escapes: every new string object passes through stlstr_copy_and_escape -----

  /** stlstr_escape_for; what it does not know stays as it is. */
  function EscapeFor(c: char): (char, bool) {
    if c == 'n' then ('\n', true)
    else if c == 't' then ('\t', true)
    else (c, c == '\'' || c == '\"' || c == '\\')
  }

  predicate EscapeAt(s: string, i: nat) {
    i + 1 < |s| && s[i] == '\\' && EscapeFor(s[i + 1]).1
  }

  ghost predicate HasEscape(s: string) {
    exists i: nat :: EscapeAt(s, i)
  }

  function Unescape(s: string): string {
    if s == "" then ""
    else if EscapeAt(s, 0) then [EscapeFor(s[1]).0] + Unescape(s[2..])
    else [s[0]] + Unescape(s[1..])
  }

  lemma {:induction false} UnescapeLength(s: string)
    ensures |Unescape(s)| <= |s|
    ensures HasEscape(s) ==> |Unescape(s)| < |s|
    ensures !HasEscape(s) ==> Unescape(s) == s
    decreases |s|
  {
    if s != "" {
      if EscapeAt(s, 0) {
        UnescapeLength(s[2..]);
      } else {
        UnescapeLength(s[1..]);
        if HasEscape(s) {
          var i: nat :| EscapeAt(s, i);
          assert EscapeAt(s[1..], i - 1);
        }
        if HasEscape(s[1..]) {
          var i: nat :| EscapeAt(s[1..], i);
          assert EscapeAt(s, i + 1);
        }
      }
    }
  }

  /** A string object is the string it is made from exactly when that has no escape. */
  lemma UnescapeExactly(s: string)
    ensures Unescape(s) == s <==> !HasEscape(s)
  {
    UnescapeLength(s);
  }

  /** stlstr_copy_and_escape. */
  method CopyAndEscape(str: string) returns (cop: string)
    ensures cop == Unescape(str)
  {
    cop := "";
    var i := 0;
    while i < |str|
      invariant 0 <= i <= |str| && cop + Unescape(str[i..]) == Unescape(str)
    {
      var rest := str[i..];
      if str[i] == '\\' && i + 1 < |str| && EscapeFor(str[i + 1]).1 {
        assert EscapeAt(rest, 0) && rest[2..] == str[i + 2..];
        cop := cop + [EscapeFor(str[i + 1]).0];
        i := i + 2;
      } else {
        assert !EscapeAt(rest, 0) && rest[1..] == str[i + 1..];
        cop := cop + [str[i]];
        i := i + 1;
      }
    }
    assert str[i..] == "";
  }

  // ----- split -----

  predicate OccursAt(s: string, d: string, i: nat) {
    i + |d| <= |s| && s[i..i + |d|] == d
  }

  ghost predicate Contains(s: string, d: string) {
    exists i: nat :: OccursAt(s, d, i)
  }

  /** strstr: the first place of d in s from loc on, or -1. */
  function Strstr(s: string, d: string, loc: nat): (r: int)
    requires loc <= |s|
    ensures r == -1 || (loc <= r && OccursAt(s, d, r))
    ensures forall i: nat :: loc <= i && OccursAt(s, d, i) ==> 0 <= r <= i
    decreases |s| - loc
  {
    if OccursAt(s, d, loc) then loc
    else if loc == |s| then -1
    else Strstr(s, d, loc + 1)
  }

  function Pieces(s: string, d: string, loc: nat): seq<string>
    requires loc <= |s| && d != ""
    decreases |s| - loc
  {
    var next := Strstr(s, d, loc);
    if next < 0 then [s[loc..]] else [s[loc..next]] + Pieces(s, d, next + |d|)
  }

  function Letters(s: string): seq<string> {
    seq(|s|, i requires 0 <= i < |s| => [s[i]])
  }

  /** What the method gives before its pieces become string objects. */
  function Split(s: string, d: string): seq<string> {
    if d == "" then Letters(s) else Pieces(s, d, 0)
  }

  function UnescapeAll(ps: seq<string>): seq<string> {
    seq(|ps|, i requires 0 <= i < |ps| => Unescape(ps[i]))
  }

  lemma UnescapeSnoc(ps: seq<string>, p: string)
    ensures UnescapeAll(ps + [p]) == UnescapeAll(ps) + [Unescape(p)]
  {}

  lemma PiecesStep(s: string, d: string, loc: nat)
    requires loc <= |s| && d != ""
    ensures var next := Strstr(s, d, loc);
            next < 0 || next + |d| <= |s|
    ensures var next := Strstr(s, d, loc);
            Pieces(s, d, loc) == if next < 0 then [s[loc..]] else [s[loc..next]] + Pieces(s, d, next + |d|)
  {}

  /** stlstr_split. */
  method SplitString(me: string, delim: string) returns (list: seq<string>)
    ensures list == UnescapeAll(Split(me, delim))
  {
    if |delim| == 0 {
      list := SplitLetters(me);
    } else {
      list := SplitPieces(me, delim);
    }
  }

  method SplitLetters(me: string) returns (list: seq<string>)
    ensures list == UnescapeAll(Letters(me))
  {
    hide Unescape;
    list := [];
    var loc := 0;
    while loc < |me|
      invariant 0 <= loc <= |me| && list == UnescapeAll(Letters(me)[..loc])
    {
      var piece := CopyAndEscape([me[loc]]);
      UnescapeSnoc(Letters(me)[..loc], [me[loc]]);
      assert Letters(me)[..loc + 1] == Letters(me)[..loc] + [[me[loc]]];
      list := list + [piece];
      loc := loc + 1;
    }
    assert Letters(me)[..loc] == Letters(me);
  }

  method SplitPieces(me: string, delim: string) returns (list: seq<string>)
    requires delim != ""
    ensures list == UnescapeAll(Pieces(me, delim, 0))
  {
    hide Unescape, Pieces, UnescapeAll, OccursAt, Strstr;
    ghost var done: seq<string> := [];
    list := [];
    NoneUnescaped();
    var loc := 0;
    while loc >= 0
      invariant loc <= |me| && list == UnescapeAll(done)
      invariant Pieces(me, delim, 0) == if loc >= 0 then done + Pieces(me, delim, loc) else done
      decreases if loc >= 0 then |me| - loc + 1 else 0
    {
      PiecesStep(me, delim, loc);
      var next := Strstr(me, delim, loc);
      var piece := if next >= 0 then me[loc..next] else me[loc..];
      var copied := CopyAndEscape(piece);
      UnescapeSnoc(done, piece);
      Regroup(done, piece, if next >= 0 then Pieces(me, delim, next + |delim|) else []);
      list := list + [copied];
      done := done + [piece];
      loc := if next >= 0 then next + |delim| else -1;
    }
  }

  lemma Regroup(a: seq<string>, p: string, b: seq<string>)
    ensures a + ([p] + b) == a + [p] + b && [p] + [] == [p] && a + [p] + [] == a + [p]
  {}

  lemma NoneUnescaped()
    ensures UnescapeAll([]) == []
  {
    assert |UnescapeAll([])| == 0;
  }

  // ----- join -----

  function Join(ps: seq<string>, d: string): string {
    if ps == [] then "" else if |ps| == 1 then ps[0] else ps[0] + d + Join(ps[1..], d)
  }

  /** Joining undoes splitting, before escapes. */
  lemma {:induction false} JoinPieces(s: string, d: string, loc: nat)
    requires loc <= |s| && d != ""
    ensures Pieces(s, d, loc) != [] && Join(Pieces(s, d, loc), d) == s[loc..]
    decreases |s| - loc
  {
    var next := Strstr(s, d, loc);
    if next >= 0 {
      JoinPieces(s, d, next + |d|);
      assert Pieces(s, d, loc)[1..] == Pieces(s, d, next + |d|);
      assert s[loc..] == s[loc..next] + s[next..next + |d|] + s[next + |d|..];
    }
  }

  lemma SliceOfSlice(s: string, lo: nat, hi: nat, i: nat, j: nat)
    requires lo <= hi <= |s| && i <= j <= hi - lo
    ensures s[lo..hi][i..j] == s[lo + i..lo + j]
  {
    assert |s[lo..hi][i..j]| == j - i;
    forall k | 0 <= k < j - i ensures s[lo..hi][i..j][k] == s[lo + i..lo + j][k] {}
  }

  /** No piece contains the delimiter. */
  lemma {:induction false} PiecesAreClean(s: string, d: string, loc: nat, k: nat)
    requires loc <= |s| && d != "" && k < |Pieces(s, d, loc)|
    ensures !Contains(Pieces(s, d, loc)[k], d)
    decreases |s| - loc
  {
    var next := Strstr(s, d, loc);
    if next >= 0 && k > 0 {
      PiecesAreClean(s, d, next + |d|, k - 1);
    } else {
      var piece := Pieces(s, d, loc)[k];
      assert piece == s[loc..loc + |piece|];
      forall i: nat ensures !OccursAt(piece, d, i) {
        if OccursAt(piece, d, i) {
          SliceOfSlice(s, loc, loc + |piece|, i, i + |d|);
          assert OccursAt(s, d, loc + i);
        }
      }
    }
  }

  /** What comes back from the program's own split and join. */
  function Rejoined(s: string, d: string): string {
    Unescape(Join(UnescapeAll(Split(s, d)), d))
  }

  ghost predicate SomeEscape(ps: seq<string>) {
    exists k :: 0 <= k < |ps| && HasEscape(ps[k])
  }

  lemma {:induction false} JoinUnescaped(ps: seq<string>, d: string)
    ensures |Join(UnescapeAll(ps), d)| <= |Join(ps, d)|
    ensures SomeEscape(ps) ==> |Join(UnescapeAll(ps), d)| < |Join(ps, d)|
    ensures !SomeEscape(ps) ==> UnescapeAll(ps) == ps
    decreases |ps|
  {
    if ps != [] {
      UnescapeLength(ps[0]);
      JoinUnescaped(ps[1..], d);
      assert UnescapeAll(ps)[1..] == UnescapeAll(ps[1..]);
      if SomeEscape(ps) && !HasEscape(ps[0]) {
        var k :| 0 <= k < |ps| && HasEscape(ps[k]);
        assert HasEscape(ps[1..][k - 1]);
      }
      if !SomeEscape(ps) {
        forall k | 0 <= k < |ps| ensures Unescape(ps[k]) == ps[k] {
          UnescapeLength(ps[k]);
        }
      }
    }
  }

  lemma {:induction false} JoinLetters(s: string)
    ensures Join(Letters(s), "") == s
  {
    if |s| > 1 {
      JoinLetters(s[1..]);
      assert Letters(s)[1..] == Letters(s[1..]);
    }
  }

  /** Splitting and joining gives the string back exactly when it holds no escape. */
  lemma SplitThenJoin(s: string, d: string)
    ensures Rejoined(s, d) == s <==> !HasEscape(s)
  {
    var ps := Split(s, d);
    if d == "" {
      JoinLetters(s);
    } else {
      JoinPieces(s, d, 0);
    }
    assert Join(ps, d) == s;
    JoinUnescaped(ps, d);
    UnescapeLength(Join(UnescapeAll(ps), d));
    if !HasEscape(s) {
      PiecesKeep(s, d);
    }
  }

  /** A string without escapes splits into strings without escapes. */
  lemma PiecesKeep(s: string, d: string)
    requires !HasEscape(s)
    ensures !SomeEscape(Split(s, d))
  {
    forall k | 0 <= k < |Split(s, d)| ensures !HasEscape(Split(s, d)[k]) {
      if d != "" {
        PieceKeeps(s, d, 0, k);
      }
    }
  }

  lemma {:induction false} PieceKeeps(s: string, d: string, loc: nat, k: nat)
    requires !HasEscape(s) && loc <= |s| && d != "" && k < |Pieces(s, d, loc)|
    ensures !HasEscape(Pieces(s, d, loc)[k])
    decreases |s| - loc
  {
    var next := Strstr(s, d, loc);
    if next >= 0 && k > 0 {
      PieceKeeps(s, d, next + |d|, k - 1);
    } else {
      var piece := Pieces(s, d, loc)[k];
      forall i: nat ensures !EscapeAt(piece, i) {
        if EscapeAt(piece, i) {
          assert EscapeAt(s, loc + i);
        }
      }
    }
  }

  /** An element to join: a string object, or another one by its text. */
  datatype Item = Text(text: string) | Other(text: string)

  function Rendered(it: Item, quoted: bool): string {
    if quoted && it.Text? then "'" + it.text + "'" else it.text
  }

  function RenderedAll(its: seq<Item>, quoted: bool): seq<string> {
    seq(|its|, i requires 0 <= i < |its| => Rendered(its[i], quoted))
  }

  /** The pieces, each followed by the joiner, but for the last. */
  function Joints(ps: seq<string>, d: string, n: nat): string
    requires n <= |ps|
  {
    if n == 0 then "" else Joints(ps, d, n - 1) + ps[n - 1] + d
  }

  function Lengths(ps: seq<string>): nat {
    if ps == [] then 0 else Lengths(ps[..|ps| - 1]) + |ps[|ps| - 1]|
  }

  lemma {:induction false} JointsLength(ps: seq<string>, d: string, n: nat)
    requires n <= |ps|
    ensures |Joints(ps, d, n)| == Lengths(ps[..n]) + n * |d|
    decreases n
  {
    if n > 0 {
      JointsLength(ps, d, n - 1);
      assert ps[..n][..n - 1] == ps[..n - 1];
      assert n * |d| == (n - 1) * |d| + |d|;
    }
  }

  lemma {:induction false} JoinFromTheEnd(ps: seq<string>, d: string)
    requires ps != []
    ensures Join(ps, d) == Joints(ps, d, |ps| - 1) + ps[|ps| - 1]
    decreases |ps|
  {
    if |ps| > 1 {
      JoinFromTheEnd(ps[1..], d);
      JointsFirst(ps, d, |ps| - 1);
    }
  }

  lemma {:induction false} JointsFirst(ps: seq<string>, d: string, n: nat)
    requires 0 < n <= |ps|
    ensures Joints(ps, d, n) == ps[0] + d + Joints(ps[1..], d, n - 1)
    decreases n
  {
    if n > 1 {
      JointsFirst(ps, d, n - 1);
      assert ps[1..][n - 2] == ps[n - 1];
    }
  }

  /** stlarr_joined: the length is computed first, and the buffer filled exactly. */
  method Joined(its: seq<Item>, joiner: string, quoted: bool) returns (r: string)
    ensures r == Unescape(Join(RenderedAll(its, quoted), joiner))
  {
    hide Unescape, Join, Joints, Lengths, RenderedAll;
    if |its| == 0 {
      r := CopyAndEscape("");
      NothingJoined(its, joiner, quoted);
      return;
    }
    var innards, tlen := Measure(its, quoted);
    ghost var ps := RenderedAll(its, quoted);
    JoinFromTheEnd(ps, joiner);
    JointsLength(ps, joiner, |ps| - 1);
    LengthsLast(ps);
    tlen := tlen + |joiner| * (|its| - 1) + 1;
    var str := Fill(innards, joiner, tlen);
    r := CopyAndEscape(str);
  }

  lemma NothingJoined(its: seq<Item>, joiner: string, quoted: bool)
    requires its == []
    ensures Join(RenderedAll(its, quoted), joiner) == ""
  {
    assert |RenderedAll(its, quoted)| == 0;
  }

  method Measure(its: seq<Item>, quoted: bool) returns (innards: seq<string>, tlen: nat)
    ensures |innards| == |its| && innards == RenderedAll(its, quoted) && tlen == Lengths(innards)
  {
    innards, tlen := [], 0;
    var i := 0;
    while i < |its|
      invariant 0 <= i <= |its| && tlen == Lengths(innards)
      invariant |innards| == i && forall k :: 0 <= k < i ==> innards[k] == Rendered(its[k], quoted)
    {
      var text := Rendered(its[i], quoted);
      assert (innards + [text])[..i] == innards;
      innards := innards + [text];
      tlen := tlen + |text|;
      i := i + 1;
    }
  }

  /** The pieces and the joiners between them, into a buffer of tlen places with the
      NUL. */
  method Fill(innards: seq<string>, joiner: string, tlen: nat) returns (r: string)
    requires innards != [] && tlen == |Joints(innards, joiner, |innards| - 1)| + |innards[|innards| - 1]| + 1
    ensures r == Joints(innards, joiner, |innards| - 1) + innards[|innards| - 1]
  {
    var str := new char[tlen];
    var cur, i := 0, 0;
    while i < |innards| - 1
      invariant 0 <= i <= |innards| - 1 && cur == |Joints(innards, joiner, i)| && str.Length == tlen
      invariant cur <= tlen && str[..cur] == Joints(innards, joiner, i)
    {
      JointsRoom(innards, joiner, i);
      CopyTo(str, innards[i], cur);
      cur := cur + |innards[i]|;
      CopyTo(str, joiner, cur);
      cur := cur + |joiner|;
      i := i + 1;
    }
    CopyTo(str, innards[i], cur);
    str[tlen - 1] := '\0';
    r := str[..tlen - 1];
  }

  lemma LengthsLast(ps: seq<string>)
    requires ps != []
    ensures Lengths(ps) == Lengths(ps[..|ps| - 1]) + |ps[|ps| - 1]|
  {}

  lemma {:induction false} JointsRoom(ps: seq<string>, d: string, i: nat)
    requires i < |ps| - 1
    ensures |Joints(ps, d, i)| + |ps[i]| + |d| <= |Joints(ps, d, |ps| - 1)|
  {
    var n := i + 1;
    while n < |ps| - 1
      invariant i + 1 <= n <= |ps| - 1 && |Joints(ps, d, i)| + |ps[i]| + |d| <= |Joints(ps, d, n)|
    {
      n := n + 1;
    }
  }

  // ----- repeating -----

  function Repeat(s: string, n: nat): string {
    if n == 0 then "" else s + Repeat(s, n - 1)
  }

  lemma {:induction false} RepeatAt(s: string, n: nat, k: nat)
    requires k < |s| * n
    ensures |s| > 0 && |Repeat(s, n)| == |s| * n && Repeat(s, n)[k] == s[k % |s|]
    decreases n
  {
    RepeatLength(s, n);
    if k >= |s| {
      assert |s| * n == |s| + |s| * (n - 1);
      RepeatAt(s, n - 1, k - |s|);
      Modulo(k, |s|);
    }
  }

  lemma {:induction false} RepeatLength(s: string, n: nat)
    ensures |Repeat(s, n)| == |s| * n
  {
    if n > 0 {
      RepeatLength(s, n - 1);
      assert |s| * n == |s| + |s| * (n - 1);
    }
  }

  lemma Modulo(k: nat, len: nat)
    requires len > 0 && k >= len
    ensures (k - len) % len == k % len
  {
    SameRemainder(k, len, len, 1);
  }

  lemma MulMono(len: nat, a: int, b: int)
    requires a <= b
    ensures len * a <= len * b
  {}

  lemma MulCancel(len: nat, a: int, b: int)
    requires len * a < len * b
    ensures a < b
  {
    if b <= a {
      MulMono(len, b, a);
    }
  }

  lemma UniqueRemainder(x: int, len: nat, q: int, r: nat)
    requires len > 0 && r < len && x == len * q + r
    ensures x % len == r
  {
    var q2, r2 := x / len, x % len;
    assert x == len * q2 + r2;
    assert len * (q + 1) == len * q + len;
    assert len * (q2 + 1) == len * q2 + len;
    MulCancel(len, q, q2 + 1);
    MulCancel(len, q2, q + 1);
  }

  function Pow2(n: nat): nat {
    if n == 0 then 1 else 2 * Pow2(n - 1)
  }

  /** stlstr_multiply, for a count that is not negative and a length that is an int. The
      copied part doubles, so that as few copies are made as doubling allows. */
  method Multiply(str: string, ct: nat) returns (r: string, rounds: nat)
    requires |str| * ct < 0x8000_0000
    ensures r == Unescape(Repeat(str, ct))
    ensures str != "" && ct > 0 ==> ct <= Pow2(rounds) && (rounds > 0 ==> Pow2(rounds - 1) < ct)
  {
    hide Unescape, Repeat, Pow2;
    rounds := 0;
    if ct == 0 {
      r := CopyAndEscape("");
      RepeatLength(str, ct);
      assert Repeat(str, ct) == "";
      return;
    }
    LessMuch(|str|, ct);
    var t;
    t, rounds := DoubleUp(str, ct, |str| * ct);
    SpreadIs(t, str, ct);
    DoubledEnd(|str|, ct, |str| * ct, rounds);
    r := CopyAndEscape(t);
  }

  /** The copying loop, up to targ bytes. */
  method DoubleUp(str: string, ghost ct: nat, targ: nat) returns (r: string, rounds: nat)
    requires Target(|str|, ct, targ) && ct > 0 && |str| <= targ
    ensures |r| == targ && Spread(r, str) && Doubled(|str|, ct, targ, targ, rounds)
  {
    hide Target, Spread, Doubled;
    var len := |str|;
    var nstr := new char[targ + 1];
    nstr[targ] := '\0';
    CopyTo(nstr, str, 0);
    var done := len;
    rounds := 0;
    DoubledStart(len, ct, targ);
    SpreadStart(str);
    assert nstr[..len] == str;
    while done < targ
      invariant len <= done <= targ && nstr.Length == targ + 1 && Spread(nstr[..done], str)
      invariant Doubled(len, ct, targ, done, rounds)
      decreases targ - done
    {
      var n := if done <= targ - done then done else targ - done;
      ghost var before := nstr[..done];
      SpreadMore(before, str, n, ct, targ, rounds);
      DoubledMore(len, ct, targ, done, n, rounds);
      var src := nstr[..n];
      assert src == before[..n];
      CopyTo(nstr, src, done);
      done := done + n;
      rounds := rounds + 1;
    }
    r := nstr[..targ];
  }

  lemma LessMuch(len: nat, ct: nat)
    requires ct > 0
    ensures len <= len * ct && Target(len, ct, len * ct)
  {
    MulMono(len, 1, ct);
  }

  predicate Target(len: nat, ct: nat, targ: nat) {
    targ == len * ct
  }

  /** Byte k is byte k modulo the length. */
  predicate Spread(t: string, s: string) {
    forall k :: 0 <= k < |t| ==> |s| > 0 && t[k] == s[k % |s|]
  }

  lemma SpreadStart(s: string)
    ensures Spread(s, s)
  {}

  /** So many rounds copy so much. */
  ghost predicate Doubled(len: nat, ct: nat, targ: nat, done: nat, rounds: nat) {
    Target(len, ct, targ)
    && ((done == len * Pow2(rounds) && Pow2(rounds) <= ct)
        || (done == targ && ct <= Pow2(rounds) && rounds > 0 && Pow2(rounds - 1) < ct))
  }

  lemma DoubledStart(len: nat, ct: nat, targ: nat)
    requires ct > 0 && Target(len, ct, targ)
    ensures Doubled(len, ct, targ, len, 0)
  {}

  lemma DoubledMore(len: nat, ct: nat, targ: nat, done: nat, n: nat, rounds: nat)
    requires Doubled(len, ct, targ, done, rounds) && done < targ && len <= done
    requires n == if done <= targ - done then done else targ - done
    ensures Doubled(len, ct, targ, done + n, rounds + 1) && n > 0
  {
    var p := Pow2(rounds);
    assert Pow2(rounds + 1) == 2 * p;
    assert len * (2 * p) == 2 * (len * p);
    assert done == len * p;
    MulCancel(len, p, ct);
    if 2 * p <= ct {
      MulMono(len, 2 * p, ct);
    } else {
      MulMono(len, ct, 2 * p);
    }
    SomeLength(len, ct, targ);
  }

  lemma SomeLength(len: nat, ct: nat, targ: nat)
    requires Target(len, ct, targ) && targ > 0
    ensures len > 0
  {}

  lemma DoubledEnd(len: nat, ct: nat, targ: nat, rounds: nat)
    requires Doubled(len, ct, targ, targ, rounds) && ct > 0
    ensures len > 0 ==> ct <= Pow2(rounds) && (rounds > 0 ==> Pow2(rounds - 1) < ct)
  {
    var p := Pow2(rounds);
    if len > 0 && p < ct {
      assert len * (p + 1) == len * p + len;
      MulMono(len, p + 1, ct);
    }
    if rounds > 0 {
      assert p == 2 * Pow2(rounds - 1);
      PowPositive(rounds - 1);
    }
  }

  lemma {:induction false} PowPositive(n: nat)
    ensures Pow2(n) > 0
  {
    if n > 0 {
      PowPositive(n - 1);
    }
  }

  lemma SpreadMore(t: string, s: string, n: nat, ct: nat, targ: nat, rounds: nat)
    requires Spread(t, s) && n <= |t| && Doubled(|s|, ct, targ, |t|, rounds) && |t| < targ
    ensures Spread(t + t[..n], s)
  {
    var len := |s|;
    hide Doubled, Pow2;
    DoubledMultiple(len, ct, targ, |t|, rounds);
    forall k | 0 <= k < |t| + n ensures len > 0 && (t + t[..n])[k] == s[k % len] {
      if k >= |t| {
        SameRemainder(k, |t|, len, Pow2(rounds));
        assert t[k - |t|] == s[(k - |t|) % len];
      }
    }
  }

  lemma DoubledMultiple(len: nat, ct: nat, targ: nat, done: nat, rounds: nat)
    requires Doubled(len, ct, targ, done, rounds) && done < targ
    ensures len > 0 && done == len * Pow2(rounds)
  {
    SomeLength(len, ct, targ);
  }

  lemma SameRemainder(k: nat, done: nat, len: nat, p: nat)
    requires len > 0 && done == len * p && done <= k
    ensures (k - done) % len == k % len
  {
    var q, r := (k - done) / len, (k - done) % len;
    assert k - done == len * q + r;
    assert len * (p + q) == len * p + len * q;
    UniqueRemainder(k, len, p + q, r);
  }

  lemma SpreadIs(t: string, s: string, n: nat)
    requires Spread(t, s) && |t| == |s| * n
    ensures t == Repeat(s, n)
  {
    RepeatLength(s, n);
    forall k | 0 <= k < |t| ensures t[k] == Repeat(s, n)[k] {
      RepeatAt(s, n, k);
    }
  }
}

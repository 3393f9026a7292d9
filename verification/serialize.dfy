/** The binary form of code objects (src/interpreter/serialize.c): what is written, what
    reading makes of it, and when the two agree. */
module Serialize {
  import opened Sequences
  import opened Buffers
  import opened Doubles
  import Strings

  datatype Obj =
    | Float(bits: seq<int>)
    | Integer(i: int)
    | Text(s: string)
    | Code(constants: Objs, names: seq<string>, refname: Option<string>, ops: seq<int>, numLocals: int, stackSize: int)

  datatype Objs = Nil | Cons(head: Obj, tail: Objs)

  const LBI_FLOAT := 0
  const LBI_INTEGER := 1
  const LBI_STRING := 2
  const LBI_CODE := 7

  function Count(os: Objs): nat {
    if os.Nil? then 0 else 1 + Count(os.tail)
  }

  function Size(o: Obj): nat
    decreases o
  {
    if o.Code? then 1 + SizeAll(o.constants) else 1
  }

  function SizeAll(os: Objs): nat
    decreases os
  {
    if os.Nil? then 0 else 1 + Size(os.head) + SizeAll(os.tail)
  }

  // ----- numbers, most significant byte first -----

  const TWO31 := 0x8000_0000
  const TWO63 := 0x8000_0000_0000_0000

  function Int32Bytes(i: int): (r: seq<int>)
    ensures |r| == 4
  {
    [i / 0x100_0000 % 256, i / 0x1_0000 % 256, i / 256 % 256, i % 256]
  }

  function Int64Bytes(i: int): (r: seq<int>)
    ensures |r| == 8
  {
    Int32Bytes(i / 0x1_0000_0000) + Int32Bytes(i)
  }

  function Unsigned32(b: seq<int>, at: nat): int
    requires at + 4 <= |b|
  {
    b[at] * 0x100_0000 + b[at + 1] * 0x1_0000 + b[at + 2] * 256 + b[at + 3]
  }

  /** The sign bit counts as it does in C. */
  function ReadInt32(b: seq<int>, at: nat): int
    requires at + 4 <= |b|
  {
    var u := Unsigned32(b, at);
    if u >= TWO31 then u - 2 * TWO31 else u
  }

  function ReadInt64(b: seq<int>, at: nat): int
    requires at + 8 <= |b|
  {
    var u := Unsigned32(b, at) * 0x1_0000_0000 + Unsigned32(b, at + 4);
    if u >= TWO63 then u - 2 * TWO63 else u
  }

  lemma Split32(i: int)
    ensures (i / 0x100_0000 % 256) * 0x100_0000 + (i / 0x1_0000 % 256) * 0x1_0000 + (i / 256 % 256) * 256 + i % 256
            == i % 0x1_0000_0000
  {
    var a := i / 256;
    var c := a / 256;
    assert i / 0x1_0000 == c && i / 0x100_0000 == c / 256;
    assert i == 256 * a + i % 256 && a == 256 * c + a % 256 && c == 256 * (c / 256) + c % 256;
    var d := c / 256;
    assert d == 256 * (d / 256) + d % 256;
    var low := (d % 256) * 0x100_0000 + (c % 256) * 0x1_0000 + (a % 256) * 256 + i % 256;
    assert i == (d / 256) * 0x1_0000_0000 + low && 0 <= low < 0x1_0000_0000;
  }

  lemma Read32(b: seq<int>, at: nat, i: int)
    requires Has(b, at, Int32Bytes(i))
    ensures at + 4 <= |b| && Unsigned32(b, at) == i % 0x1_0000_0000
    ensures -TWO31 <= i < TWO31 ==> ReadInt32(b, at) == i
  {
    var x := b[at..at + 4];
    assert x[0] == b[at] && x[1] == b[at + 1] && x[2] == b[at + 2] && x[3] == b[at + 3];
    Split32(i);
  }

  lemma Read64(b: seq<int>, at: nat, i: int)
    requires Has(b, at, Int64Bytes(i)) && -TWO63 <= i < TWO63
    ensures at + 8 <= |b| && ReadInt64(b, at) == i
  {
    var hi := i / 0x1_0000_0000;
    HasBoth(b, at, Int32Bytes(hi), Int32Bytes(i));
    Read32(b, at, hi);
    Read32(b, at + 4, i);
    assert i == hi * 0x1_0000_0000 + i % 0x1_0000_0000;
  }

  // ----- strings -----

  function Chars(s: string): seq<int> {
    seq(|s|, k requires 0 <= k < |s| => s[k] as int)
  }

  /** A C string: it ends at its first NUL. */
  function CString(b: seq<int>): string {
    if b == [] || b[0] <= 0 || b[0] >= 256 then "" else [b[0] as char] + CString(b[1..])
  }

  predicate IsText(s: string) {
    forall k :: 0 <= k < |s| ==> 0 < s[k] as int < 256
  }

  lemma {:induction false} CharsBack(s: string)
    requires IsText(s)
    ensures CString(Chars(s)) == s
  {
    if s != "" {
      assert Chars(s)[1..] == Chars(s[1..]);
      assert s == [s[0]] + s[1..];
      CharsBack(s[1..]);
    }
  }

  // ----- writing -----

  /** The type, the length of it all, and the contents. */
  function Framed(t: int, contents: seq<int>): seq<int> {
    [t] + Int32Bytes(5 + |contents|) + contents
  }

  function Encode(o: Obj): seq<int>
    decreases o
  {
    match o
    case Float(bits) => Framed(LBI_FLOAT, bits)
    case Integer(i) => Framed(LBI_INTEGER, Int64Bytes(ToDouble(i)))
    case Text(s) => Framed(LBI_STRING, Chars(s))
    case Code(cs, names, refname, ops, nl, ss) =>
      Framed(LBI_CODE, CodeHeader(Count(cs), nl, |names|, |ops|, ss) + EncodeAll(cs) + EncodeNames(names)
                       + EncodeName(if refname.Some? then refname.value else "") + ops)
  }

  function CodeHeader(ncs: int, nlc: int, nnm: int, nop: int, sss: int): (r: seq<int>)
    ensures |r| == 20
  {
    Int32Bytes(ncs) + Int32Bytes(nlc) + Int32Bytes(nnm) + Int32Bytes(nop) + Int32Bytes(sss)
  }

  function EncodeAll(os: Objs): seq<int>
    decreases os
  {
    if os.Nil? then [] else Encode(os.head) + EncodeAll(os.tail)
  }

  function EncodeName(name: string): seq<int> {
    Int32Bytes(|name|) + Chars(name)
  }

  function EncodeNames(names: seq<string>): seq<int> {
    if names == [] then [] else EncodeName(names[0]) + EncodeNames(names[1..])
  }

  /** Lengths and counts are ints, bytes are bytes, strings are C strings, floats have
      eight bytes, and no integer is beyond the range of long as a double. */
  predicate Fits(o: Obj)
    decreases o
  {
    |Encode(o)| < TWO31 &&
    match o
    case Float(bits) => |bits| == 8
    case Integer(i) => -TWO63 <= ToDouble(i) < TWO63
    case Text(s) => IsText(s)
    case Code(cs, names, refname, ops, nl, ss) =>
      FitsAll(cs) && Count(cs) < TWO31 && (forall n <- names :: IsText(n) && |n| < TWO31) && |names| < TWO31
      && (refname.Some? ==> IsText(refname.value) && |refname.value| < TWO31) && |ops| < TWO31
      && -TWO31 <= nl < TWO31 && -TWO31 <= ss < TWO31
  }

  predicate FitsAll(os: Objs)
    decreases os
  {
    os.Cons? ==> Fits(os.head) && FitsAll(os.tail)
  }

  // ----- reading -----

  /** srl_deserialize_object; None where the bytes are not those of an object, which the
      program does not notice. */
  function Decode(b: seq<int>, at: nat): Option<Obj>
    decreases |b| - at, 0
  {
    if at + 5 > |b| then None
    else if b[at] == LBI_FLOAT then
      if at + 13 <= |b| then Some(Float(b[at + 5..at + 13])) else None
    else if b[at] == LBI_INTEGER then
      if at + 13 <= |b| then Some(Integer(ReadInt64(b, at + 5))) else None
    else if b[at] == LBI_STRING then
      var len := ReadInt32(b, at + 1) - 5;
      if 0 <= len && at + 5 + len <= |b| then Some(Text(Strings.Unescape(CString(b[at + 5..at + 5 + len])))) else None
    else if b[at] == LBI_CODE then DecodeCode(b, at)
    else None
  }

  function DecodeCode(b: seq<int>, at: nat): Option<Obj>
    requires at + 5 <= |b|
    decreases |b| - at - 1, 2
  {
    if at + 25 > |b| then None else
      var ncs, nlc, nnm, nop, sss :=
        ReadInt32(b, at + 5), ReadInt32(b, at + 9), ReadInt32(b, at + 13), ReadInt32(b, at + 17), ReadInt32(b, at + 21);
      if ncs < 0 || nnm < 0 || nop < 0 then None else
        match DecodeAll(b, at + 25, ncs)
        case None => None
        case Some((cons, p)) =>
          match DecodeNames(b, p, nnm)
          case None => None
          case Some((names, q)) =>
            match DecodeName(b, q)
            case None => None
            case Some((name, r)) =>
              if r + nop <= |b| then
                Some(Code(cons, names, if name == "" then None else Some(name), b[r..r + nop], nlc, sss))
              else None
  }

  /** Constants one after the other, each as long as it says. */
  function DecodeAll(b: seq<int>, at: nat, n: nat): Option<(Objs, nat)>
    decreases |b| - at, 1, n
  {
    if n == 0 then Some((Nil, at))
    else if at + 5 > |b| then None
    else
      var len := ReadInt32(b, at + 1);
      match Decode(b, at)
      case None => None
      case Some(o) =>
        if len < 0 then None else
          match DecodeAll(b, at + len, n - 1)
          case None => None
          case Some((os, p)) => Some((Cons(o, os), p))
  }

  function DecodeName(b: seq<int>, at: nat): Option<(string, nat)> {
    if at + 4 > |b| then None else
      var len := ReadInt32(b, at);
      if len < 0 || at + 4 + len > |b| then None else Some((CString(b[at + 4..at + 4 + len]), at + 4 + len))
  }

  function DecodeNames(b: seq<int>, at: nat, n: nat): Option<(seq<string>, nat)>
    decreases n
  {
    if n == 0 then Some(([], at)) else
      match DecodeName(b, at)
      case None => None
      case Some((name, p)) =>
        match DecodeNames(b, p, n - 1)
        case None => None
        case Some((names, q)) => Some(([name] + names, q))
  }

  // ----- the round trip -----

  /** What an object comes back as: integers as doubles, string constants with their
      escapes resolved once more, an empty name of the code as none. */
  function Settled(o: Obj): Obj
    decreases o
  {
    match o
    case Float(_) => o
    case Integer(i) => Integer(ToDouble(i))
    case Text(s) => Text(Strings.Unescape(s))
    case Code(cs, names, refname, ops, nl, ss) =>
      Code(SettledAll(cs), names, if refname == Some("") then None else refname, ops, nl, ss)
  }

  function SettledAll(os: Objs): Objs
    decreases os
  {
    if os.Nil? then Nil else Cons(Settled(os.head), SettledAll(os.tail))
  }

  lemma FramedParts(b: seq<int>, at: nat, t: int, contents: seq<int>)
    requires Has(b, at, Framed(t, contents)) && 5 + |contents| < TWO31
    ensures at + 5 + |contents| <= |b| && b[at] == t && ReadInt32(b, at + 1) == 5 + |contents|
    ensures Has(b, at + 5, contents)
  {
    hide ReadInt32, Int32Bytes;
    var head, len := [t], Int32Bytes(5 + |contents|);
    assert Framed(t, contents) == head + len + contents;
    HasBoth(b, at, head + len, contents);
    HasBoth(b, at, head, len);
    Read32(b, at + 1, 5 + |contents|);
    assert b[at..at + 1] == [t];
    assert b[at] == b[at..at + 1][0];
  }

  lemma {:induction false} RoundTripAt(b: seq<int>, at: nat, o: Obj)
    requires Fits(o) && Has(b, at, Encode(o))
    ensures Decode(b, at) == Some(Settled(o))
    ensures at + 5 <= |b| && ReadInt32(b, at + 1) == |Encode(o)|
    decreases Size(o), 1
  {
    hide ReadInt32, ReadInt64, Int64Bytes, CString, Chars, CodeHeader, EncodeAll, EncodeNames, EncodeName, DecodeCode,
         ToDouble;
    match o
    case Float(bits) =>
      FramedParts(b, at, LBI_FLOAT, bits);
    case Integer(i) =>
      FramedParts(b, at, LBI_INTEGER, Int64Bytes(ToDouble(i)));
      Read64(b, at + 5, ToDouble(i));
    case Text(s) =>
      CharsLength(s);
      FramedParts(b, at, LBI_STRING, Chars(s));
      CharsBack(s);
      assert b[at + 5..at + 5 + |s|] == Chars(s);
    case Code(cs, names, refname, ops, nl, ss) =>
      CodeRoundTrip(b, at, cs, names, refname, ops, nl, ss);
  }

  lemma CharsLength(s: string)
    ensures |Chars(s)| == |s|
  {}

  function CodeContents(cs: Objs, names: seq<string>, refname: Option<string>, ops: seq<int>, nl: int,
                        ss: int): seq<int> {
    CodeHeader(Count(cs), nl, |names|, |ops|, ss) + EncodeAll(cs) + EncodeNames(names)
    + EncodeName(if refname.Some? then refname.value else "") + ops
  }

  lemma {:induction false} CodeRoundTrip(b: seq<int>, at: nat, cs: Objs, names: seq<string>, refname: Option<string>,
                                         ops: seq<int>, nl: int, ss: int)
    requires var o := Code(cs, names, refname, ops, nl, ss); Fits(o) && Has(b, at, Encode(o))
    ensures var o := Code(cs, names, refname, ops, nl, ss);
            at + 5 <= |b| && b[at] == LBI_CODE && DecodeCode(b, at) == Some(Settled(o))
            && ReadInt32(b, at + 1) == |Encode(o)|
    decreases 1 + SizeAll(cs), 0
  {
    hide ReadInt32, Has, CodeContents, Encode, EncodeAll, EncodeNames, EncodeName, DecodeCode, Settled, SettledAll,
         Framed, Fits, FitsAll, IsText, DecodeAll, DecodeNames, DecodeName, Count;
    CodeFits(cs, names, refname, ops, nl, ss);
    var name := if refname.Some? then refname.value else "";
    FramedLength(LBI_CODE, CodeContents(cs, names, refname, ops, nl, ss));
    CodeEncoded(cs, names, refname, ops, nl, ss);
    FramedParts(b, at, LBI_CODE, CodeContents(cs, names, refname, ops, nl, ss));
    ContentsParts(b, at + 5, cs, names, refname, ops, nl, ss);
    var p := at + 25;
    AllRoundTrip(b, p, cs);
    NamesRoundTrip(b, p + |EncodeAll(cs)|, names);
    NameRoundTrip(b, p + |EncodeAll(cs)| + |EncodeNames(names)|, name);
    CodeRead(b, at, cs, names, name, ops, nl, ss);
  }

  lemma CodeFits(cs: Objs, names: seq<string>, refname: Option<string>, ops: seq<int>, nl: int, ss: int)
    requires Fits(Code(cs, names, refname, ops, nl, ss))
    ensures FitsAll(cs) && Count(cs) < TWO31 && (forall n <- names :: IsText(n) && |n| < TWO31) && |names| < TWO31
    ensures |ops| < TWO31 && -TWO31 <= nl < TWO31 && -TWO31 <= ss < TWO31
    ensures var name := if refname.Some? then refname.value else ""; IsText(name) && |name| < TWO31
    ensures 5 + |CodeContents(cs, names, refname, ops, nl, ss)| < TWO31
    ensures var name := if refname.Some? then refname.value else "";
            Settled(Code(cs, names, refname, ops, nl, ss))
            == Code(SettledAll(cs), names, if name == "" then None else Some(name), ops, nl, ss)
  {
    hide EncodeAll, EncodeNames, EncodeName, CodeHeader, Int32Bytes;
  }

  lemma CodeEncoded(cs: Objs, names: seq<string>, refname: Option<string>, ops: seq<int>, nl: int, ss: int)
    ensures Encode(Code(cs, names, refname, ops, nl, ss))
            == Framed(LBI_CODE, CodeContents(cs, names, refname, ops, nl, ss))
  {}

  lemma FramedLength(t: int, contents: seq<int>)
    ensures |Framed(t, contents)| == 5 + |contents|
  {}

  lemma ContentsParts(b: seq<int>, at: nat, cs: Objs, names: seq<string>, refname: Option<string>, ops: seq<int>,
                      nl: int, ss: int)
    requires Has(b, at, CodeContents(cs, names, refname, ops, nl, ss))
    requires Count(cs) < TWO31 && |names| < TWO31 && |ops| < TWO31 && -TWO31 <= nl < TWO31 && -TWO31 <= ss < TWO31
    ensures at + 20 <= |b| && ReadInt32(b, at) == Count(cs) && ReadInt32(b, at + 4) == nl
    ensures ReadInt32(b, at + 8) == |names| && ReadInt32(b, at + 12) == |ops| && ReadInt32(b, at + 16) == ss
    ensures Has(b, at + 20, EncodeAll(cs)) && Has(b, at + 20 + |EncodeAll(cs)|, EncodeNames(names))
    ensures var r := at + 20 + |EncodeAll(cs)| + |EncodeNames(names)|;
            var name := if refname.Some? then refname.value else "";
            Has(b, r, EncodeName(name)) && Has(b, r + |EncodeName(name)|, ops)
  {
    hide ReadInt32, Has, CodeHeader, EncodeAll, EncodeNames, EncodeName;
    var header, name := CodeHeader(Count(cs), nl, |names|, |ops|, ss), if refname.Some? then refname.value else "";
    HasBoth(b, at, header + EncodeAll(cs) + EncodeNames(names) + EncodeName(name), ops);
    HasBoth(b, at, header + EncodeAll(cs) + EncodeNames(names), EncodeName(name));
    HasBoth(b, at, header + EncodeAll(cs), EncodeNames(names));
    HasBoth(b, at, header, EncodeAll(cs));
    HeaderRead(b, at, Count(cs), nl, |names|, |ops|, ss);
  }

  lemma CodeRead(b: seq<int>, at: nat, cs: Objs, names: seq<string>, name: string, ops: seq<int>, nl: int, ss: int)
    requires at + 25 <= |b| && ReadInt32(b, at + 5) == Count(cs) && ReadInt32(b, at + 9) == nl
    requires ReadInt32(b, at + 13) == |names| && ReadInt32(b, at + 17) == |ops| && ReadInt32(b, at + 21) == ss
    requires var p := at + 25;
             var q := p + |EncodeAll(cs)|;
             var r := q + |EncodeNames(names)|;
             var t := r + |EncodeName(name)|;
             DecodeAll(b, p, Count(cs)) == Some((SettledAll(cs), q)) && DecodeNames(b, q, |names|) == Some((names, r))
             && DecodeName(b, r) == Some((name, t)) && Has(b, t, ops)
    ensures DecodeCode(b, at) == Some(Code(SettledAll(cs), names, if name == "" then None else Some(name), ops, nl, ss))
  {
    hide ReadInt32, EncodeAll, EncodeNames, EncodeName, DecodeAll, DecodeNames, DecodeName, SettledAll;
  }

  lemma HasIs(b: seq<int>, at: nat, x: seq<int>)
    requires Has(b, at, x)
    ensures at + |x| <= |b| && b[at..at + |x|] == x
  {}

  lemma HeaderRead(b: seq<int>, at: nat, ncs: int, nlc: int, nnm: int, nop: int, sss: int)
    requires Has(b, at, CodeHeader(ncs, nlc, nnm, nop, sss))
    requires forall i <- [ncs, nlc, nnm, nop, sss] :: -TWO31 <= i < TWO31
    ensures at + 20 <= |b| && ReadInt32(b, at) == ncs && ReadInt32(b, at + 4) == nlc && ReadInt32(b, at + 8) == nnm
    ensures ReadInt32(b, at + 12) == nop && ReadInt32(b, at + 16) == sss
  {
    hide ReadInt32, Int32Bytes;
    var a, c, d, e, f := Int32Bytes(ncs), Int32Bytes(nlc), Int32Bytes(nnm), Int32Bytes(nop), Int32Bytes(sss);
    var fields := [ncs, nlc, nnm, nop, sss];
    assert ncs in fields && nlc in fields && nnm in fields && nop in fields && sss in fields;
    HasBoth(b, at, a + c + d + e, f);
    HasBoth(b, at, a + c + d, e);
    HasBoth(b, at, a + c, d);
    HasBoth(b, at, a, c);
    Read32(b, at, ncs);
    Read32(b, at + 4, nlc);
    Read32(b, at + 8, nnm);
    Read32(b, at + 12, nop);
    Read32(b, at + 16, sss);
  }

  lemma {:induction false} AllRoundTrip(b: seq<int>, at: nat, os: Objs)
    requires FitsAll(os) && Has(b, at, EncodeAll(os))
    ensures DecodeAll(b, at, Count(os)) == Some((SettledAll(os), at + |EncodeAll(os)|))
    decreases SizeAll(os), 0
  {
    hide ReadInt32, Has, Encode, Fits, Decode, Settled;
    if os.Cons? {
      HasBoth(b, at, Encode(os.head), EncodeAll(os.tail));
      RoundTripAt(b, at, os.head);
      AllRoundTrip(b, at + |Encode(os.head)|, os.tail);
    }
  }

  lemma NameRoundTrip(b: seq<int>, at: nat, name: string)
    requires IsText(name) && |name| < TWO31 && Has(b, at, EncodeName(name))
    ensures DecodeName(b, at) == Some((name, at + |EncodeName(name)|))
  {
    hide ReadInt32, Int32Bytes, CString, Chars, Has;
    CharsLength(name);
    HasBoth(b, at, Int32Bytes(|name|), Chars(name));
    Read32(b, at, |name|);
    HasIs(b, at + 4, Chars(name));
    CharsBack(name);
  }

  lemma {:induction false} NamesRoundTrip(b: seq<int>, at: nat, names: seq<string>)
    requires (forall n <- names :: IsText(n) && |n| < TWO31) && Has(b, at, EncodeNames(names))
    ensures DecodeNames(b, at, |names|) == Some((names, at + |EncodeNames(names)|))
    decreases names
  {
    hide Has, EncodeName, DecodeName, IsText;
    if names != [] {
      assert names[0] in names;
      HasBoth(b, at, EncodeName(names[0]), EncodeNames(names[1..]));
      NameRoundTrip(b, at, names[0]);
      NamesRoundTrip(b, at + |EncodeName(names[0])|, names[1..]);
      assert names == [names[0]] + names[1..];
    }
  }

  /** Objects that reading gives back as they were written. */
  ghost predicate Kept(o: Obj)
    decreases o
  {
    match o
    case Float(_) => true
    case Integer(i) => Exact(i)
    case Text(s) => !Strings.HasEscape(s)
    case Code(cs, _, refname, _, _, _) => KeptAll(cs) && refname != Some("")
  }

  ghost predicate KeptAll(os: Objs)
    decreases os
  {
    os.Cons? ==> Kept(os.head) && KeptAll(os.tail)
  }

  lemma {:induction false} SettledExactly(o: Obj)
    ensures Settled(o) == o <==> Kept(o)
    decreases o
  {
    hide ToDouble, Exact, Strings.Unescape, Strings.HasEscape;
    match o
    case Float(_) =>
    case Integer(i) => ExactlyExact(i);
    case Text(s) => Strings.UnescapeExactly(s);
    case Code(cs, _, _, _, _, _) => AllSettledExactly(cs);
  }

  lemma {:induction false} AllSettledExactly(os: Objs)
    ensures SettledAll(os) == os <==> KeptAll(os)
    decreases os
  {
    hide Settled, Kept;
    if os.Cons? {
      SettledExactly(os.head);
      AllSettledExactly(os.tail);
    }
  }

  /** Whatever stands around it, an object is read back, and is the one that was written
      exactly when its integers are doubles, its string constants hold no escape, and its
      name is not empty; the length in front is the number of bytes written. */
  lemma RoundTrip(before: seq<int>, o: Obj, behind: seq<int>)
    requires Fits(o)
    ensures var b := before + Encode(o) + behind;
            Decode(b, |before|).Some? && (Decode(b, |before|) == Some(o) <==> Kept(o))
            && |before| + 5 <= |b| && ReadInt32(b, |before| + 1) == |Encode(o)|
  {
    hide Encode, Decode, Fits, ReadInt32, Settled, Kept;
    var b := before + Encode(o) + behind;
    assert b[|before|..|before| + |Encode(o)|] == Encode(o);
    RoundTripAt(b, |before|, o);
    SettledExactly(o);
  }

  // ----- the program's own writing -----

  /** srl_render_shared_info: the first five bytes. */
  method RenderSharedInfo(t: int, buf: array<int>, len: int)
    requires buf.Length >= 5
    modifies buf
    ensures buf[..] == [t] + Int32Bytes(len) + old(buf[5..])
  {
    var lbts := Int32Bytes(len);
    buf[0] := t;
    buf[1] := lbts[0];
    buf[2] := lbts[1];
    buf[3] := lbts[2];
    buf[4] := lbts[3];
  }

  /** srl_serialize_number. */
  method SerializeNumber(o: Obj) returns (data: seq<int>)
    requires o.Integer? || (o.Float? && |o.bits| == 8)
    ensures data == Encode(o)
  {
    hide ToDouble, Int32Bytes;
    var buf := if o.Integer? then Int64Bytes(ToDouble(o.i)) else o.bits;
    var out := new int[13];
    RenderSharedInfo(if o.Integer? then LBI_INTEGER else LBI_FLOAT, out, 13);
    CopyTo(out, buf, 5);
    data := out[..];
  }

  /** srl_serialize_string. */
  method SerializeString(o: Obj) returns (data: seq<int>)
    requires o.Text?
    ensures data == Encode(o)
  {
    hide Int32Bytes;
    CharsLength(o.s);
    var out := new int[5 + |o.s|];
    RenderSharedInfo(LBI_STRING, out, 5 + |o.s|);
    CopyTo(out, Chars(o.s), 5);
    data := out[..];
  }

  /** srl_serialize_object. */
  method SerializeObject(o: Obj) returns (data: seq<int>)
    requires Fits(o)
    ensures data == Encode(o)
    decreases Size(o), 1
  {
    hide Encode;
    match o {
      case Float(_) => data := SerializeNumber(o);
      case Integer(_) => data := SerializeNumber(o);
      case Text(_) => data := SerializeString(o);
      case Code(_, _, _, _, _, _) => data := SerializeCode(o);
    }
  }

  /** What the constants of a code object are rendered as, one string of bytes each. */
  function Rendered(os: Objs): seq<seq<int>> {
    if os.Nil? then [] else [Encode(os.head)] + Rendered(os.tail)
  }

  lemma {:induction false} ConcatFirst(x: seq<int>, parts: seq<seq<int>>)
    ensures Concat([x] + parts) == x + Concat(parts)
    decreases |parts|
  {
    if parts == [] {
      assert [x] + parts == [x] && [x][..0] == [];
    } else {
      var n := |parts| - 1;
      assert ([x] + parts)[..n + 1] == [x] + parts[..n];
      ConcatFirst(x, parts[..n]);
    }
  }

  lemma {:induction false} ConcatRendered(os: Objs)
    ensures Concat(Rendered(os)) == EncodeAll(os) && |Rendered(os)| == Count(os)
    decreases os
  {
    hide Encode;
    if os.Cons? {
      ConcatRendered(os.tail);
      ConcatFirst(Encode(os.head), Rendered(os.tail));
    }
  }

  /** The rendered constants and their total length. */
  method RenderConstants(cs: Objs) returns (rendered: seq<seq<int>>, total: nat)
    requires FitsAll(cs)
    ensures rendered == Rendered(cs) && total == |EncodeAll(cs)|
    decreases SizeAll(cs), 0
  {
    hide Encode, Fits;
    if cs.Nil? {
      return [], 0;
    }
    var first := SerializeObject(cs.head);
    var rest, n := RenderConstants(cs.tail);
    rendered, total := [first] + rest, |first| + n;
  }

  function NamesUpTo(names: seq<string>, i: nat): seq<int>
    requires i <= |names|
  {
    if i == 0 then [] else NamesUpTo(names, i - 1) + EncodeName(names[i - 1])
  }

  lemma {:induction false} NamesFromFront(names: seq<string>, i: nat)
    requires 0 < i <= |names|
    ensures NamesUpTo(names, i) == EncodeName(names[0]) + NamesUpTo(names[1..], i - 1)
    decreases i
  {
    hide EncodeName;
    if i > 1 {
      NamesFromFront(names, i - 1);
      assert names[1..][i - 2] == names[i - 1];
    }
  }

  lemma {:induction false} NamesAll(names: seq<string>)
    ensures NamesUpTo(names, |names|) == EncodeNames(names)
    decreases names
  {
    hide EncodeName;
    if names != [] {
      NamesFromFront(names, |names|);
      NamesAll(names[1..]);
    }
  }

  lemma {:induction false} NamesGrow(names: seq<string>, i: nat)
    requires i <= |names|
    ensures |NamesUpTo(names, i)| <= |NamesUpTo(names, |names|)|
    decreases |names| - i
  {
    if i < |names| {
      NamesGrow(names, i + 1);
    }
  }

  lemma {:induction false} PartsGrow(parts: seq<seq<int>>, i: nat)
    requires i <= |parts|
    ensures |Concat(parts[..i])| <= |Concat(parts)|
    decreases |parts| - i
  {
    if i < |parts| {
      PartAdded(parts, i);
      PartsGrow(parts, i + 1);
    } else {
      assert parts[..i] == parts;
    }
  }

  lemma PartAdded(parts: seq<seq<int>>, i: nat)
    requires i < |parts|
    ensures Concat(parts[..i + 1]) == Concat(parts[..i]) + parts[i]
  {
    assert parts[..i + 1][..i] == parts[..i];
  }

  /** The first loop over the names, which adds up their lengths. */
  method NamesLength(names: seq<string>) returns (total: nat)
    ensures total == |EncodeNames(names)|
  {
    total := 0;
    var i := 0;
    while i < |names|
      invariant 0 <= i <= |names| && total == |NamesUpTo(names, i)|
    {
      CharsLength(names[i]);
      total := total + |names[i]| + 4;
      i := i + 1;
    }
    NamesAll(names);
  }

  /** One more piece behind what is already there; the first five bytes come last. */
  method Put(data: array<int>, idx: nat, x: seq<int>, ghost done: seq<int>) returns (next: nat)
    requires 5 <= idx && idx + |x| <= data.Length && data[5..idx] == done
    modifies data
    ensures next == idx + |x| && data[5..next] == done + x
  {
    CopyTo(data, x, idx);
    next := idx + |x|;
    assert data[5..next] == data[..next][5..];
    assert data[5..next] == data[5..idx] + x;
  }

  method PutHeader(data: array<int>, ncs: int, nlc: int, nnm: int, nop: int, sss: int)
    requires data.Length >= 25
    modifies data
    ensures data[5..25] == CodeHeader(ncs, nlc, nnm, nop, sss)
  {
    hide Int32Bytes;
    var idx := Put(data, 5, Int32Bytes(ncs), []);
    idx := Put(data, idx, Int32Bytes(nlc), Int32Bytes(ncs));
    idx := Put(data, idx, Int32Bytes(nnm), Int32Bytes(ncs) + Int32Bytes(nlc));
    idx := Put(data, idx, Int32Bytes(nop), Int32Bytes(ncs) + Int32Bytes(nlc) + Int32Bytes(nnm));
    idx := Put(data, idx, Int32Bytes(sss), Int32Bytes(ncs) + Int32Bytes(nlc) + Int32Bytes(nnm) + Int32Bytes(nop));
  }

  method PutConstants(data: array<int>, rendered: seq<seq<int>>, ghost header: seq<int>) returns (idx: nat)
    requires 25 + |Concat(rendered)| <= data.Length && data[5..25] == header
    modifies data
    ensures idx == 25 + |Concat(rendered)| && data[5..idx] == header + Concat(rendered)
  {
    hide Concat;
    idx := 25;
    var i := 0;
    assert Concat(rendered[..0]) == [] by { NoParts(rendered); }
    while i < |rendered|
      invariant 0 <= i <= |rendered| && idx == 25 + |Concat(rendered[..i])|
      invariant 5 <= idx <= data.Length && data[5..idx] == header + Concat(rendered[..i])
    {
      PartAdded(rendered, i);
      PartsGrow(rendered, i + 1);
      idx := Put(data, idx, rendered[i], header + Concat(rendered[..i]));
      Associate(header, Concat(rendered[..i]), rendered[i]);
      i := i + 1;
    }
    assert rendered[..i] == rendered;
  }

  lemma NoParts(parts: seq<seq<int>>)
    ensures Concat(parts[..0]) == []
  {}

  method PutName(data: array<int>, at: nat, name: string, ghost done: seq<int>) returns (idx: nat)
    requires 5 <= at && at + |EncodeName(name)| <= data.Length && data[5..at] == done
    modifies data
    ensures idx == at + |EncodeName(name)| && data[5..idx] == done + EncodeName(name)
  {
    hide Int32Bytes, Chars;
    idx := Put(data, at, Int32Bytes(|name|), done);
    idx := Put(data, idx, Chars(name), done + Int32Bytes(|name|));
    Associate(done, Int32Bytes(|name|), Chars(name));
  }

  lemma NamesStep(names: seq<string>, i: nat)
    requires i <= |names|
    ensures NamesUpTo(names, 0) == []
    ensures i < |names| ==> NamesUpTo(names, i + 1) == NamesUpTo(names, i) + EncodeName(names[i])
  {}

  lemma Associate(x: seq<int>, y: seq<int>, z: seq<int>)
    ensures x + y + z == x + (y + z)
  {}

  method PutNames(data: array<int>, at: nat, names: seq<string>, ghost done: seq<int>) returns (idx: nat)
    requires 5 <= at && at + |EncodeNames(names)| <= data.Length && data[5..at] == done
    modifies data
    ensures idx == at + |EncodeNames(names)| && data[5..idx] == done + EncodeNames(names)
  {
    hide EncodeName, EncodeNames, NamesUpTo;
    NamesAll(names);
    idx := at;
    var i := 0;
    NamesStep(names, 0);
    while i < |names|
      invariant 0 <= i <= |names| && idx == at + |NamesUpTo(names, i)|
      invariant 5 <= idx <= data.Length && data[5..idx] == done + NamesUpTo(names, i)
    {
      NamesGrow(names, i + 1);
      NamesStep(names, i);
      idx := PutName(data, idx, names[i], done + NamesUpTo(names, i));
      Associate(done, NamesUpTo(names, i), EncodeName(names[i]));
      i := i + 1;
    }
  }

  lemma ContentsAre(o: Obj, refname: string)
    requires o.Code? && refname == if o.refname.Some? then o.refname.value else ""
    ensures var c := CodeContents(o.constants, o.names, o.refname, o.ops, o.numLocals, o.stackSize);
            Encode(o) == [LBI_CODE] + Int32Bytes(5 + |c|) + c
            && c == CodeHeader(Count(o.constants), o.numLocals, |o.names|, |o.ops|, o.stackSize)
                    + EncodeAll(o.constants) + EncodeNames(o.names) + EncodeName(refname) + o.ops
            && |c| == 24 + |EncodeAll(o.constants)| + |EncodeNames(o.names)| + |refname| + |o.ops|
            && |EncodeName(refname)| == 4 + |refname|
  {
    hide EncodeAll, EncodeNames, CodeHeader, Int32Bytes;
    CharsLength(refname);
  }

  /** srl_serialize_code: the length is added up first, then the buffer filled at a moving
      index, and the type and the length put in front at the end. */
  method SerializeCode(o: Obj) returns (data: seq<int>)
    requires o.Code? && Fits(o)
    ensures data == Encode(o)
    decreases Size(o), 0
  {
    hide Encode, EncodeAll, EncodeName, EncodeNames, Int32Bytes, CodeHeader, CodeContents, Fits, FitsAll, Count,
         Concat, Rendered;
    CodeFits(o.constants, o.names, o.refname, o.ops, o.numLocals, o.stackSize);
    var rendered, accum := RenderConstants(o.constants);
    ConcatRendered(o.constants);
    var names := NamesLength(o.names);
    var refname := if o.refname.Some? then o.refname.value else "";
    ContentsAre(o, refname);
    accum := 29 + accum + names + |refname| + |o.ops|;
    var buf := new int[accum];
    PutHeader(buf, |rendered|, o.numLocals, |o.names|, |o.ops|, o.stackSize);
    ghost var done := CodeHeader(|rendered|, o.numLocals, |o.names|, |o.ops|, o.stackSize);
    var idx := PutConstants(buf, rendered, done);
    done := done + EncodeAll(o.constants);
    idx := PutNames(buf, idx, o.names, done);
    done := done + EncodeNames(o.names);
    idx := PutName(buf, idx, refname, done);
    done := done + EncodeName(refname);
    idx := Put(buf, idx, o.ops, done);
    assert buf[5..] == buf[5..idx];
    RenderSharedInfo(LBI_CODE, buf, accum);
    data := buf[..];
  }

  // ----- the program's own reading -----

  /** The constants already read, in front of those still to come. */
  function Prepend(read: seq<Obj>, os: Objs): Objs {
    if read == [] then os else Prepend(read[..|read| - 1], Cons(read[|read| - 1], os))
  }

  function AfterConstants(read: seq<Obj>, r: Option<(Objs, nat)>): Option<(Objs, nat)> {
    match r
    case None => None
    case Some((os, p)) => Some((Prepend(read, os), p))
  }

  lemma OneConstant(b: seq<int>, p: nat, n: nat, read: seq<Obj>)
    requires n > 0
    ensures (p + 5 > |b| || Decode(b, p).None? || ReadInt32(b, p + 1) < 0)
            ==> AfterConstants(read, DecodeAll(b, p, n)) == None
    ensures p + 5 <= |b| && Decode(b, p).Some? && ReadInt32(b, p + 1) >= 0 ==>
              AfterConstants(read, DecodeAll(b, p, n))
              == AfterConstants(read + [Decode(b, p).value], DecodeAll(b, p + ReadInt32(b, p + 1), n - 1))
  {
    hide Decode, ReadInt32;
    if p + 5 <= |b| && Decode(b, p).Some? {
      var more := read + [Decode(b, p).value];
      assert more[..|more| - 1] == read;
    }
  }

  function AfterNames(read: seq<string>, r: Option<(seq<string>, nat)>): Option<(seq<string>, nat)> {
    match r
    case None => None
    case Some((names, p)) => Some((read + names, p))
  }

  lemma OneName(b: seq<int>, p: nat, n: nat, read: seq<string>)
    requires n > 0
    ensures DecodeName(b, p) == None ==> AfterNames(read, DecodeNames(b, p, n)) == None
    ensures DecodeName(b, p).Some? ==>
              AfterNames(read, DecodeNames(b, p, n))
              == AfterNames(read + [DecodeName(b, p).value.0], DecodeNames(b, DecodeName(b, p).value.1, n - 1))
  {
    hide DecodeName;
    if DecodeName(b, p).Some? {
      var name, q := DecodeName(b, p).value.0, DecodeName(b, p).value.1;
      match DecodeNames(b, q, n - 1)
      case None =>
      case Some((names, _)) => assert read + ([name] + names) == read + [name] + names;
    }
  }

  /** srl_deserialize_object: at stands for the pointer into the bytes. */
  method DeserializeObject(b: seq<int>, at: nat) returns (r: Option<Obj>)
    ensures r == Decode(b, at)
    decreases |b| - at, 0
  {
    hide ReadInt32, ReadInt64, CString, DecodeCode;
    if at + 5 > |b| {
      return None;
    }
    if b[at] == LBI_FLOAT || b[at] == LBI_INTEGER {
      if at + 13 > |b| {
        return None;
      }
      r := Some(if b[at] == LBI_INTEGER then Integer(ReadInt64(b, at + 5)) else Float(b[at + 5..at + 13]));
    } else if b[at] == LBI_CODE {
      r := DeserializeCode(b, at);
    } else if b[at] == LBI_STRING {
      var len := ReadInt32(b, at + 1) - 5;
      if len < 0 || at + 5 + len > |b| {
        return None;
      }
      r := Some(Text(Strings.Unescape(CString(b[at + 5..at + 5 + len]))));
    } else {
      r := None;
    }
  }

  /** srl_deserialize_code: two loops over an advancing pointer. */
  method DeserializeCode(b: seq<int>, at: nat) returns (r: Option<Obj>)
    requires at + 5 <= |b|
    ensures r == DecodeCode(b, at)
    decreases |b| - at - 1, 2
  {
    hide ReadInt32, Decode, DecodeAll, DecodeNames, DecodeName, AfterConstants, AfterNames;
    if at + 25 > |b| {
      return None;
    }
    var ncs, nlc, nnm, nop, sss :=
      ReadInt32(b, at + 5), ReadInt32(b, at + 9), ReadInt32(b, at + 13), ReadInt32(b, at + 17), ReadInt32(b, at + 21);
    if ncs < 0 || nnm < 0 || nop < 0 {
      return None;
    }
    var p: nat := at + 25;
    var cons: seq<Obj> := [];
    var i := 0;
    NoneRead(b, p, ncs);
    while i < ncs
      invariant 0 <= i <= ncs && p >= at + 25
      invariant DecodeAll(b, at + 25, ncs) == AfterConstants(cons, DecodeAll(b, p, ncs - i))
    {
      OneConstant(b, p, ncs - i, cons);
      if p + 5 > |b| {
        return None;
      }
      var o := DeserializeObject(b, p);
      var len := ReadInt32(b, p + 1);
      if o.None? || len < 0 {
        return None;
      }
      cons := cons + [o.value];
      p := p + len;
      i := i + 1;
    }
    AllConstantsRead(b, p, cons);
    ghost var q := p;
    var names: seq<string> := [];
    i := 0;
    NoNameRead(b, p, nnm);
    while i < nnm
      invariant 0 <= i <= nnm
      invariant DecodeNames(b, q, nnm) == AfterNames(names, DecodeNames(b, p, nnm - i))
    {
      OneName(b, p, nnm - i, names);
      var n := DecodeName(b, p);
      if n.None? {
        return None;
      }
      names := names + [n.value.0];
      p := n.value.1;
      i := i + 1;
    }
    AllNamesRead(b, p, names);
    var refname := DecodeName(b, p);
    if refname.None? {
      return None;
    }
    p := refname.value.1;
    if p + nop > |b| {
      return None;
    }
    r := Some(Code(Prepend(cons, Nil), names, if refname.value.0 == "" then None else Some(refname.value.0),
                   b[p..p + nop], nlc, sss));
  }

  lemma NoneRead(b: seq<int>, p: nat, n: nat)
    ensures DecodeAll(b, p, n) == AfterConstants([], DecodeAll(b, p, n))
  {
    hide DecodeAll;
  }

  lemma AllConstantsRead(b: seq<int>, p: nat, cons: seq<Obj>)
    ensures AfterConstants(cons, DecodeAll(b, p, 0)) == Some((Prepend(cons, Nil), p))
  {
    hide Prepend;
    assert DecodeAll(b, p, 0) == Some((Nil, p));
  }

  lemma NoNameRead(b: seq<int>, p: nat, n: nat)
    ensures DecodeNames(b, p, n) == AfterNames([], DecodeNames(b, p, n))
  {
    hide DecodeNames;
    match DecodeNames(b, p, n)
    case None =>
    case Some((names, _)) => assert [] + names == names;
  }

  lemma AllNamesRead(b: seq<int>, p: nat, names: seq<string>)
    ensures AfterNames(names, DecodeNames(b, p, 0)) == Some((names, p))
  {
    assert names + [] == names;
  }
}

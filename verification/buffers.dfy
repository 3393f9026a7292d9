/** Buffers: copying at a moving index, and what stands at a place. */
module Buffers {

  /** memcpy, and srl_copy_bytes_to_index (src/interpreter/serialize.c:141-146). */
  method CopyTo<T>(buf: array<T>, src: seq<T>, at: nat)
    requires at + |src| <= buf.Length
    modifies buf
    ensures buf[..at + |src|] == old(buf[..at]) + src
    ensures forall k :: at + |src| <= k < buf.Length ==> buf[k] == old(buf[k])
  {
    var i := 0;
    while i < |src|
      invariant 0 <= i <= |src| && buf[..at + i] == old(buf[..at]) + src[..i]
      invariant forall k :: at + i <= k < buf.Length ==> buf[k] == old(buf[k])
    {
      assert src[..i + 1] == src[..i] + [src[i]];
      buf[at + i] := src[i];
      assert buf[..at + i + 1] == buf[..at + i] + [src[i]];
      i := i + 1;
    }
    assert src[..i] == src;
  }

  /** x stands in b at place `at`. */
  predicate Has<T(==)>(b: seq<T>, at: nat, x: seq<T>) {
    at + |x| <= |b| && b[at..at + |x|] == x
  }

  lemma HasBoth<T>(b: seq<T>, at: nat, x: seq<T>, y: seq<T>)
    requires Has(b, at, x + y)
    ensures Has(b, at, x) && Has(b, at + |x|, y)
  {
    var z := b[at..at + |x + y|];
    assert z == x + y;
    assert b[at..at + |x|] == z[..|x|] == x;
    assert b[at + |x|..at + |x| + |y|] == z[|x|..] == y;
  }

  lemma HasAt<T>(b: seq<T>, at: nat, x: seq<T>, k: nat)
    requires Has(b, at, x) && k < |x|
    ensures at + k < |b| && b[at + k] == x[k]
  {
    assert b[at + k] == b[at..at + |x|][k];
  }
}

/** OBJ_NUM_UNWRAP (src/interpreter/lkyobj_builtin.h:24) gives every number as a double,
    whatever its type. This is what that does to an integer: round to 53 significant
    bits, halves to the even side (section 4.3.1 of IEEE 754). */
module Doubles {

  const TWO53 := 0x20_0000_0000_0000

  /** The distance between doubles at n: the smallest power of two that leaves n no
      more than 53 bits. */
  function Unit(n: nat, u: nat): (r: nat)
    requires u > 0
    ensures r >= u && n < TWO53 * r
    decreases n - u
  {
    if n < TWO53 * u then u else Unit(n, 2 * u)
  }

  function RoundTo(n: nat, u: nat): int
    requires u > 0
  {
    var q, r := n / u, n % u;
    if 2 * r > u || (2 * r == u && q % 2 == 1) then (q + 1) * u else q * u
  }

  function ToDouble(i: int): int {
    if i < 0 then -RoundTo(-i, Unit(-i, 1)) else RoundTo(i, Unit(i, 1))
  }

  /** The integer survives the conversion. */
  predicate Exact(i: int) {
    var n := if i < 0 then -i else i;
    n % Unit(n, 1) == 0
  }

  lemma RoundExactly(n: nat, u: nat)
    requires u > 0
    ensures RoundTo(n, u) == n <==> n % u == 0
  {
    var q, r := n / u, n % u;
    assert n == q * u + r;
    assert (q + 1) * u == q * u + u;
  }

  lemma ExactlyExact(i: int)
    ensures ToDouble(i) == i <==> Exact(i)
  {
    var n := if i < 0 then -i else i;
    RoundExactly(n, Unit(n, 1));
  }

  /** Up to 2^53 nothing is lost. */
  lemma ExactBelow(i: int)
    requires -TWO53 <= i <= TWO53
    ensures ToDouble(i) == i
  {
    var n := if i < 0 then -i else i;
    if n == TWO53 {
      assert Unit(n, 1) == Unit(n, 2) == 2;
    } else {
      assert Unit(n, 1) == 1;
    }
    ExactlyExact(i);
  }

  /** Beyond, two integers can become one. */
  lemma FirstCollision()
    ensures ToDouble(TWO53 + 1) == ToDouble(TWO53) == TWO53
  {
    assert Unit(TWO53 + 1, 1) == Unit(TWO53 + 1, 2) == 2;
    assert Unit(TWO53, 1) == Unit(TWO53, 2) == 2;
  }
}

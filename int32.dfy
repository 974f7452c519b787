/** C#'s 32-bit `int`, whose arithmetic wraps around in an unchecked context. */
module Int32 {

  const MinValue: int := -0x8000_0000
  const MaxValue: int := 0x7FFF_FFFF
  const Modulus: int := 0x1_0000_0000

  predicate InRange(v: int) {
    MinValue <= v <= MaxValue
  }

  /** The 32-bit two's complement value that `v` wraps to. */
  function Wrap(v: int): (r: int)
    ensures InRange(r)
    ensures (v - r) % Modulus == 0
    ensures InRange(v) ==> r == v
  {
    (v - MinValue) % Modulus + MinValue
  }

  /** Two 32-bit values that agree modulo 2^32 are equal, so `Wrap` is the only
      in-range value congruent to its input. */
  lemma WrapUnique(v: int, r: int)
    requires InRange(r) && (v - r) % Modulus == 0
    ensures r == Wrap(v)
  {
    var w := Wrap(v);
    var j := (v - r) / Modulus;
    var k := (v - w) / Modulus;
    assert v - r == j * Modulus;
    assert v - w == k * Modulus;
    assert w - r == (j - k) * Modulus;
  }

  /** Wrapping a factor before multiplying does not change the wrapped product. */
  lemma WrapFactor(a: int, b: int)
    ensures Wrap(Wrap(a) * b) == Wrap(a * b)
  {
    var wa := Wrap(a);
    var r := Wrap(wa * b);
    var k := (a - wa) / Modulus;
    var j := (wa * b - r) / Modulus;
    var kb := k * b;
    assert a - wa == k * Modulus;
    assert wa * b - r == j * Modulus;
    assert a * b - wa * b == (a - wa) * b;
    assert (a - wa) * b == (k * Modulus) * b;
    assert (k * Modulus) * b == kb * Modulus;
    assert a * b - r == (kb + j) * Modulus;
    WrapUnique(a * b, r);
  }

  /** C#'s `a * b` on two `int`s: the product wrapped to 32 bits. */
  function Mul(a: int, b: int): (r: int)
    ensures InRange(r)
    ensures (a * b - r) % Modulus == 0
    ensures InRange(a * b) ==> r == a * b
  {
    Wrap(a * b)
  }

  /** `Mathf.Max` on two `int`s. */
  function Max(a: int, b: int): (m: int)
    ensures m >= a && m >= b
    ensures m == a || m == b
  {
    if a >= b then a else b
  }
}

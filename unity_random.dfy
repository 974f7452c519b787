/** Unity's process-wide random number generator, `UnityEngine.Random`.
    Its algorithm is not part of this model: a `RandomLaw` stands for it as
    total functions over the four-word `Random.State`, so every draw is a
    deterministic function of the state it starts from. */
module UnityRandom {
  import Int32

  /** A real in the closed unit interval, what `Random.value` returns. */
  type Unit = r: real | 0.0 <= r <= 1.0

  /** `Random.State`: four 32-bit words. */
  datatype RandomState = RandomState(s0: int, s1: int, s2: int, s3: int)

  /** The generator's behaviour: the state `Random.InitState(seed)` installs,
      the state after one draw, the unit value a draw yields and the raw bits
      an integer draw uses. */
  datatype RandomLaw = RandomLaw(
    init: int -> RandomState,
    next: RandomState -> RandomState,
    unit: RandomState -> Unit,
    bits: RandomState -> nat)

  /** The state after `n` draws starting at `s`. */
  function StateAfter(law: RandomLaw, s: RandomState, n: nat): RandomState
    decreases n
  {
    if n == 0 then s else StateAfter(law, law.next(s), n - 1)
  }

  /** The unit value of the `k`-th draw (counting from 0) starting at `s`. */
  function UnitAt(law: RandomLaw, s: RandomState, k: nat): Unit {
    law.unit(StateAfter(law, s, k))
  }

  /** `Random.Range(lo, hi)` on floats, given the unit value of the draw. */
  function RangeOf(lo: real, hi: real, u: Unit): (r: real)
    requires lo <= hi
    ensures lo <= r <= hi
  {
    var span := hi - lo;
    var offset := span * u;
    ScaleWithin(span, u);
    lo + offset
  }

  lemma ScaleWithin(d: real, u: Unit)
    requires d >= 0.0
    ensures 0.0 <= d * u <= d
  {
    assert d * u + d * (1.0 - u) == d;
    NonNegativeProduct(d, u);
    NonNegativeProduct(d, 1.0 - u);
  }

  lemma NonNegativeProduct(a: real, b: real)
    requires a >= 0.0 && b >= 0.0
    ensures a * b >= 0.0
  {
  }

  /** `Random.Range(int.MinValue, int.MaxValue)`: an integer with the maximum excluded. */
  function SeedFrom(law: RandomLaw, s: RandomState): (seed: int)
    ensures Int32.MinValue <= seed < Int32.MaxValue
  {
    Int32.MinValue + law.bits(s) % (Int32.MaxValue - Int32.MinValue)
  }

  /** One more draw at the end is one more `next` on the final state. */
  lemma {:induction false} StateAfterNext(law: RandomLaw, s: RandomState, n: nat)
    ensures StateAfter(law, s, n + 1) == law.next(StateAfter(law, s, n))
    decreases n
  {
    if n > 0 {
      StateAfterNext(law, law.next(s), n - 1);
    }
  }

  /** The global generator: a fixed law and the mutable `Random.state`. */
  class Random {
    const law: RandomLaw
    var state: RandomState

    constructor (law: RandomLaw, state: RandomState)
      ensures this.law == law && this.state == state
    {
      this.law := law;
      this.state := state;
    }

    /** `Random.InitState(seed)`. */
    method InitState(seed: int)
      modifies this
      ensures state == law.init(seed)
    {
      state := law.init(seed);
    }

    /** `Random.value`. */
    method Value() returns (u: Unit)
      modifies this
      ensures u == law.unit(old(state))
      ensures state == law.next(old(state))
    {
      u := law.unit(state);
      state := law.next(state);
    }

    /** `Random.Range(lo, hi)` on floats. */
    method Range(lo: real, hi: real) returns (v: real)
      requires lo <= hi
      modifies this
      ensures v == RangeOf(lo, hi, law.unit(old(state)))
      ensures state == law.next(old(state))
    {
      v := RangeOf(lo, hi, law.unit(state));
      state := law.next(state);
    }

    /** `Random.Range(int.MinValue, int.MaxValue)`. */
    method RangeInt32() returns (seed: int)
      modifies this
      ensures seed == SeedFrom(law, old(state))
      ensures state == law.next(old(state))
    {
      seed := SeedFrom(law, state);
      state := law.next(state);
    }
  }
}

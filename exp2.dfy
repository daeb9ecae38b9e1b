/** The base-two exponential that interval variants use to turn an octave
    fraction into a playback-rate multiplier.

    Real exponentiation is not available to the verifier, so the model never
    fixes one function: every member that needs `2 ** x` takes it as a
    parameter `pow2`, and the lemmas that need its arithmetic laws require
    `IsExp2(pow2)`, which lists the laws of the real function x |-> 2^x that
    the model relies on. Nothing here depends on an exact value of 2^x other
    than those laws. */
module Exp2 {

  /** 2^x is never zero or negative. */
  ghost predicate Positive(pow2: real -> real) {
    forall x :: 0.0 < pow2(x)
  }

  /** 2^x is strictly increasing. */
  ghost predicate Increasing(pow2: real -> real) {
    forall x, y :: x < y ==> pow2(x) < pow2(y)
  }

  /** 2^(x + y) == 2^x * 2^y. */
  ghost predicate Additive(pow2: real -> real) {
    forall x, y :: pow2(x + y) == pow2(x) * pow2(y)
  }

  /** The laws of the real function x |-> 2^x that this model uses. */
  ghost predicate IsExp2(pow2: real -> real) {
    Positive(pow2) && Increasing(pow2) && Additive(pow2) && pow2(1.0) == 2.0
  }

  /** 2^0 == 1: an exponent of zero is "no change". */
  lemma ZeroExponent(pow2: real -> real)
    requires IsExp2(pow2)
    ensures pow2(0.0) == 1.0
  {
    var z := pow2(0.0);
    assert pow2(0.0 + 0.0) == z * z;
    assert z * z == z * 1.0;
    assert 0.0 < z;
  }

  /** 2^-1 == 1/2: one octave down halves the rate. */
  lemma MinusOneExponent(pow2: real -> real)
    requires IsExp2(pow2)
    ensures pow2(-1.0) == 0.5
  {
    ZeroExponent(pow2);
    assert pow2(-1.0 + 1.0) == pow2(-1.0) * pow2(1.0);
  }

  /** Equal results come only from equal exponents (2^x is injective). */
  lemma Injective(pow2: real -> real, x: real, y: real)
    requires IsExp2(pow2)
    ensures pow2(x) == pow2(y) <==> x == y
  {
    if x < y {
      assert pow2(x) < pow2(y);
    } else if y < x {
      assert pow2(y) < pow2(x);
    }
  }

  /** 2^x compares as its exponent does. */
  lemma Ordered(pow2: real -> real, x: real, y: real)
    requires IsExp2(pow2)
    ensures pow2(x) < pow2(y) <==> x < y
  {
    if x < y {
      assert pow2(x) < pow2(y);
    } else if y < x {
      assert pow2(y) < pow2(x);
    }
  }

  /** 2^(x + y) == 2^x * 2^y, for one pair: the `Additive` law instantiated
      once, so that callers need not unfold `IsExp2` in a larger context. */
  lemma Sum(pow2: real -> real, x: real, y: real)
    requires IsExp2(pow2)
    ensures pow2(x + y) == pow2(x) * pow2(y)
  {
  }

  /** 2^(x - y) == 2^x / 2^y. */
  lemma Difference(pow2: real -> real, x: real, y: real)
    requires IsExp2(pow2)
    ensures pow2(x - y) * pow2(y) == pow2(x)
  {
    assert pow2((x - y) + y) == pow2(x - y) * pow2(y);
    assert (x - y) + y == x;
  }

  /** A positive exponent speeds up, a negative one slows down. */
  lemma AboveOneIffPositive(pow2: real -> real, x: real)
    requires IsExp2(pow2)
    ensures 1.0 < pow2(x) <==> 0.0 < x
    ensures pow2(x) < 1.0 <==> x < 0.0
  {
    ZeroExponent(pow2);
    Ordered(pow2, 0.0, x);
    Ordered(pow2, x, 0.0);
  }
}

/** The exponential function, known only by the laws a result names, and the logistic
    curve made from it. */
module Exponentials {
  import opened Powers

  ghost predicate Positive(exp: real -> real) {
    forall z :: exp(z) > 0.0
  }

  type Exponential = exp: real -> real | Positive(exp) witness (z: real) => 1.0

  ghost predicate Increasing(exp: real -> real) {
    forall x, y :: x < y ==> exp(x) < exp(y)
  }

  /** 1 / (1 + e^-z), given e^-z. */
  function Logistic(e: real): (p: real)
    requires e > 0.0
    ensures 0.0 < p < 1.0
    ensures p * e == 1.0 - p
  {
    var p := 1.0 / (1.0 + e);
    assert p * (1.0 + e) == 1.0;
    p
  }

  lemma LogisticAntitone(e: real, f: real)
    requires 0.0 < e < f
    ensures Logistic(f) < Logistic(e)
  {
    var p, q := Logistic(e), Logistic(f);
    assert p * (1.0 + e) == 1.0 && q * (1.0 + f) == 1.0;
    MulLt(1.0 + e, 1.0 + f, q);
    assert (1.0 + e) * q < 1.0;
    if q >= p {
      MulLe(p, q, 1.0 + e);
      assert false;
    }
  }
}

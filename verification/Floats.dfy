/** Arithmetic on floats: reals without rounding, through which not-a-number spreads. */
module Floats {
  import opened Models
  import opened Powers

  function Plus(x: Float, y: Float): Float {
    if x.Some? && y.Some? then Some(x.value + y.value) else None
  }

  function Minus(x: Float, y: Float): Float {
    if x.Some? && y.Some? then Some(x.value - y.value) else None
  }

  function Times(x: Float, y: Float): Float {
    if x.Some? && y.Some? then Some(Mul(x.value, y.value)) else None
  }

  /** Zero over zero is not a number; infinities are not modelled, so nothing else is
      divided by zero. */
  function Over(x: Float, y: Float): Float
    requires x.Some? && y == Some(0.0) ==> x.value == 0.0
  {
    if x.Some? && y.Some? && y.value != 0.0 then Some(x.value / y.value) else None
  }

  function FloatSum<T>(f: T -> Float, xs: seq<T>): Float {
    if |xs| == 0 then Some(0.0) else Plus(FloatSum(f, xs[..|xs| - 1]), f(xs[|xs| - 1]))
  }

  /** One term that is not a number spoils the sum. */
  lemma {:induction false} SumIsNumberIff<T>(f: T -> Float, xs: seq<T>)
    ensures FloatSum(f, xs).Some? <==> forall i :: 0 <= i < |xs| ==> f(xs[i]).Some?
  {
    if |xs| == 0 {
    } else {
      var n := |xs| - 1;
      SumIsNumberIff(f, xs[..n]);
      assert forall i :: 0 <= i < n ==> xs[..n][i] == xs[i];
    }
  }
}

/** Platt scaling by gradient descent (internal/ml/ml.go). The exponential is a
    parameter; its only assumed properties are stated where they are used. */
module Calibration {
  import opened Exponentials
  import opened Floats
  import opened Models
  import opened Powers
  import opened RealSums

  datatype LabelledPair = LabelledPair(score: real, fraud: bool)

  const GUARD: real := 700.0

  function Sigmoid(exp: Exponential, z: real): (p: real)
    ensures 0.0 <= p <= 1.0
    ensures -GUARD <= z <= GUARD ==> 0.0 < p < 1.0
  {
    if z < -GUARD then 0.0
    else if z > GUARD then 1.0
    else Logistic(exp(-z))
  }

  function LabelToFloat(fraud: bool): real {
    if fraud then 1.0 else 0.0
  }

  datatype Coefficients = Coefficients(a: real, b: real)

  /** What the sigmoid is applied to. */
  function Argument(c: Coefficients, raw: real): real {
    Mul(c.a, raw) + c.b
  }

  /** Prediction minus label, and that times the score: the two gradient terms. */
  function ErrAt(exp: Exponential, a: real, b: real, p: LabelledPair): real {
    Sigmoid(exp, Argument(Coefficients(a, b), p.score)) - LabelToFloat(p.fraud)
  }

  function SlopeTermAt(exp: Exponential, a: real, b: real, p: LabelledPair): real {
    Mul(ErrAt(exp, a, b, p), p.score)
  }

  function Err(exp: Exponential, a: real, b: real): LabelledPair -> real {
    p => ErrAt(exp, a, b, p)
  }

  function SlopeTerm(exp: Exponential, a: real, b: real): LabelledPair -> real {
    p => SlopeTermAt(exp, a, b, p)
  }

  function Down(x: real, lr: real, sum: real, n: real): real
    requires n > 0.0
  {
    x - Mul(lr, sum) / n
  }

  /** One step against the mean gradient. */
  function Descent(exp: Exponential, pairs: seq<LabelledPair>, lr: real, c: Coefficients): Coefficients
    requires |pairs| > 0
  {
    Coefficients(
      Down(c.a, lr, SumBy(SlopeTerm(exp, c.a, c.b), pairs), |pairs| as real),
      Down(c.b, lr, SumBy(Err(exp, c.a, c.b), pairs), |pairs| as real))
  }

  function Fitted(exp: Exponential, pairs: seq<LabelledPair>, iterations: nat, lr: real): Coefficients
    requires |pairs| > 0
  {
    if iterations == 0 then Coefficients(1.0, 0.0)
    else Descent(exp, pairs, lr, Fitted(exp, pairs, iterations - 1, lr))
  }

  // ----- The fit on floats -----------------------------------------------------------

  /** A pair as it reaches `Fit`: the ensemble may have had no score. */
  datatype RawPair = RawPair(score: Float, fraud: bool)

  predicate IsNumber(p: RawPair) {
    p.score.Some?
  }

  function AsNumber(p: RawPair): seq<LabelledPair> {
    if p.score.Some? then [LabelledPair(p.score.value, p.fraud)] else []
  }

  /** The pairs whose score is a number. */
  function Numbers(pairs: seq<RawPair>): seq<LabelledPair> {
    FlatMap(AsNumber, pairs)
  }

  predicate AllNumbers(pairs: seq<RawPair>) {
    forall i :: 0 <= i < |pairs| ==> IsNumber(pairs[i])
  }

  function SigmoidOf(exp: Exponential, z: Float): Float {
    if z.Some? then Some(Sigmoid(exp, z.value)) else None
  }

  function RawErr(exp: Exponential, a: Float, b: Float): RawPair -> Float {
    (p: RawPair) => Minus(SigmoidOf(exp, Plus(Times(a, p.score), b)), Some(LabelToFloat(p.fraud)))
  }

  function RawSlopeTerm(exp: Exponential, a: Float, b: Float): RawPair -> Float {
    (p: RawPair) => Times(RawErr(exp, a, b)(p), p.score)
  }

  /** What `Fit` stores: after at least one iteration the coefficients are numbers
      exactly when there is a pair and every pair's score is a number. */
  function FitOutcome(exp: Exponential, pairs: seq<RawPair>, iterations: nat, lr: real): Option<Coefficients> {
    if iterations == 0 then Some(Coefficients(1.0, 0.0))
    else if |pairs| == 0 || !AllNumbers(pairs) then None
    else
      NumbersKeepLength(pairs);
      Some(Fitted(exp, Numbers(pairs), iterations, lr))
  }

  lemma {:induction false} NumbersKeepLength(pairs: seq<RawPair>)
    requires AllNumbers(pairs)
    ensures |Numbers(pairs)| == |pairs|
  {
    if |pairs| == 0 {
    } else {
      NumbersKeepLength(pairs[..|pairs| - 1]);
    }
  }

  function First(c: Option<Coefficients>): Float {
    if c.Some? then Some(c.value.a) else None
  }

  function Second(c: Option<Coefficients>): Float {
    if c.Some? then Some(c.value.b) else None
  }

  lemma {:induction false} SumOfNumbers(f: RawPair -> Float, g: LabelledPair -> real, pairs: seq<RawPair>)
    requires AllNumbers(pairs)
    requires forall p: RawPair :: IsNumber(p) ==> f(p) == Some(g(LabelledPair(p.score.value, p.fraud)))
    ensures FloatSum(f, pairs) == Some(SumBy(g, Numbers(pairs)))
  {
    if |pairs| == 0 {
    } else {
      var n := |pairs| - 1;
      var front := Numbers(pairs[..n]);
      SumOfNumbers(f, g, pairs[..n]);
      assert IsNumber(pairs[n]);
      SumBySnoc(g, front, LabelledPair(pairs[n].score.value, pairs[n].fraud));
    }
  }

  /** The gradient sums at coefficients `c`: numbers exactly when everything is. */
  lemma GradientOutcome(exp: Exponential, pairs: seq<RawPair>, c: Option<Coefficients>)
    ensures
      var ga := FloatSum(RawSlopeTerm(exp, First(c), Second(c)), pairs);
      var gb := FloatSum(RawErr(exp, First(c), Second(c)), pairs);
      && (|pairs| == 0 ==> ga == gb == Some(0.0))
      && (|pairs| > 0 && (c.None? || !AllNumbers(pairs)) ==> ga.None? && gb.None?)
      && (c.Some? && AllNumbers(pairs) ==>
            ga == Some(SumBy(SlopeTerm(exp, c.value.a, c.value.b), Numbers(pairs)))
            && gb == Some(SumBy(Err(exp, c.value.a, c.value.b), Numbers(pairs))))
  {
    var f, g := RawSlopeTerm(exp, First(c), Second(c)), RawErr(exp, First(c), Second(c));
    SumIsNumberIff(f, pairs);
    SumIsNumberIff(g, pairs);
    if c.Some? && AllNumbers(pairs) {
      forall p: RawPair | IsNumber(p)
        ensures f(p) == Some(SlopeTerm(exp, c.value.a, c.value.b)(LabelledPair(p.score.value, p.fraud)))
        ensures g(p) == Some(Err(exp, c.value.a, c.value.b)(LabelledPair(p.score.value, p.fraud)))
      {
        TermsAgree(exp, c.value, p);
      }
      SumOfNumbers(f, SlopeTerm(exp, c.value.a, c.value.b), pairs);
      SumOfNumbers(g, Err(exp, c.value.a, c.value.b), pairs);
    } else if |pairs| > 0 {
      var i :| 0 <= i < |pairs| && (c.None? || !IsNumber(pairs[i]));
      assert f(pairs[i]).None? && g(pairs[i]).None?;
    }
  }

  lemma TermsAgree(exp: Exponential, c: Coefficients, p: RawPair)
    requires IsNumber(p)
    ensures var q := LabelledPair(p.score.value, p.fraud);
      && RawErr(exp, Some(c.a), Some(c.b))(p) == Some(ErrAt(exp, c.a, c.b, q))
      && RawSlopeTerm(exp, Some(c.a), Some(c.b))(p) == Some(SlopeTermAt(exp, c.a, c.b, q))
  {
    assert Plus(Times(Some(c.a), p.score), Some(c.b)) == Some(Argument(c, p.score.value));
    assert Coefficients(c.a, c.b) == c;
  }

  /** A step against a gradient that may not be a number. */
  function StepAgainst(x: Float, lr: real, grad: Float, n: nat): Float
    requires n == 0 && grad.Some? ==> grad.value == 0.0
  {
    ZeroTimes(lr);
    Minus(x, Over(Times(Some(lr), grad), Some(n as real)))
  }

  lemma ZeroTimes(lr: real)
    ensures Mul(lr, 0.0) == 0.0
  {
  }

  lemma AgainstNumber(x: real, lr: real, sum: real, n: nat)
    requires n > 0
    ensures StepAgainst(Some(x), lr, Some(sum), n) == Some(Down(x, lr, sum, n as real))
  {
  }

  lemma AgainstNothing(x: Float, lr: real, grad: Float, n: nat)
    requires if n == 0 then grad == Some(0.0) else grad.None?
    ensures StepAgainst(x, lr, grad, n).None?
  {
    ZeroTimes(lr);
  }

  /** One more iteration takes the outcome to the next outcome. */
  lemma OutcomeStep(exp: Exponential, pairs: seq<RawPair>, i: nat, lr: real, ga: Float, gb: Float)
    requires var c := FitOutcome(exp, pairs, i, lr);
      && ga == FloatSum(RawSlopeTerm(exp, First(c), Second(c)), pairs)
      && gb == FloatSum(RawErr(exp, First(c), Second(c)), pairs)
    ensures |pairs| == 0 ==> ga == gb == Some(0.0)
    ensures var c, d := FitOutcome(exp, pairs, i, lr), FitOutcome(exp, pairs, i + 1, lr);
      StepAgainst(First(c), lr, ga, |pairs|) == First(d) && StepAgainst(Second(c), lr, gb, |pairs|) == Second(d)
  {
    var c := FitOutcome(exp, pairs, i, lr);
    GradientOutcome(exp, pairs, c);
    if |pairs| > 0 && AllNumbers(pairs) {
      NumbersKeepLength(pairs);
      assert c == Some(Fitted(exp, Numbers(pairs), i, lr));
      AgainstNumber(c.value.a, lr, ga.value, |pairs|);
      AgainstNumber(c.value.b, lr, gb.value, |pairs|);
      assert Fitted(exp, Numbers(pairs), i + 1, lr) == Descent(exp, Numbers(pairs), lr, c.value);
    } else {
      AgainstNothing(First(c), lr, ga, |pairs|);
      AgainstNothing(Second(c), lr, gb, |pairs|);
    }
  }

  /** Calibration with coefficients that may not be numbers. */
  function CalibratedBy(exp: Exponential, c: Option<Coefficients>, raw: Float): Float {
    if c.Some? && raw.Some? then Some(Sigmoid(exp, Argument(c.value, raw.value))) else None
  }

  class LogisticCalibrator {
    var a: Float
    var b: Float

    constructor ()
      ensures Current() == Some(Coefficients(1.0, 0.0))
    {
      a, b := Some(1.0), Some(0.0);
    }

    function Current(): Option<Coefficients>
      reads this
    {
      if a.Some? && b.Some? then Some(Coefficients(a.value, b.value)) else None
    }

    /** The coefficients before the call play no part in the result. */
    method Fit(exp: Exponential, pairs: seq<RawPair>, iterations: nat, lr: real)
      modifies this
      ensures Current() == FitOutcome(exp, pairs, iterations, lr)
    {
      var x, y: Float := Some(1.0), Some(0.0);
      for i := 0 to iterations
        invariant x == First(FitOutcome(exp, pairs, i, lr)) && y == Second(FitOutcome(exp, pairs, i, lr))
      {
        var gradA, gradB := Gradient(exp, pairs, x, y);
        OutcomeStep(exp, pairs, i, lr, gradA, gradB);
        x := StepAgainst(x, lr, gradA, |pairs|);
        y := StepAgainst(y, lr, gradB, |pairs|);
      }
      a, b := x, y;
    }

    /** No number in, no number out; otherwise a probability whose odds against are the
        exponential of minus the affine image, and a proper one whenever the
        coefficients are within 50 of where a fit starts. */
    method Calibrate(exp: Exponential, raw: Float) returns (p: Float)
      ensures p == CalibratedBy(exp, Current(), raw)
      ensures p.None? <==> raw.None? || Current().None?
      ensures InUnit(p)
      ensures p.Some? && -GUARD <= Argument(Current().value, raw.value) <= GUARD ==>
        Mul(p.value, exp(-Argument(Current().value, raw.value))) == 1.0 - p.value
      ensures p.Some? && Within(Current().value, 50.0) && 0.0 <= raw.value <= 1.0 ==> 0.0 < p.value < 1.0
    {
      p := SigmoidOf(exp, Plus(Times(a, raw), b));
      if p.Some? && Within(Current().value, 50.0) && 0.0 <= raw.value <= 1.0 {
        ArgumentRange(Current().value, 50.0, raw.value);
      }
    }
  }

  method Gradient(exp: Exponential, pairs: seq<RawPair>, a: Float, b: Float) returns (gradA: Float, gradB: Float)
    ensures gradA == FloatSum(RawSlopeTerm(exp, a, b), pairs)
    ensures gradB == FloatSum(RawErr(exp, a, b), pairs)
  {
    gradA, gradB := Some(0.0), Some(0.0);
    for i := 0 to |pairs|
      invariant gradA == FloatSum(RawSlopeTerm(exp, a, b), pairs[..i])
      invariant gradB == FloatSum(RawErr(exp, a, b), pairs[..i])
    {
      assert pairs[..i + 1][..i] == pairs[..i];
      var p := pairs[i];
      var err := Minus(SigmoidOf(exp, Plus(Times(a, p.score), b)), Some(LabelToFloat(p.fraud)));
      gradA := Plus(gradA, Times(err, p.score));
      gradB := Plus(gradB, err);
    }
    assert pairs[..|pairs|] == pairs;
  }

  // ----- Bounds -----------------------------------------------------------------------

  /** The scores the ensemble can produce. */
  predicate UnitScores(pairs: seq<LabelledPair>) {
    forall p :: p in pairs ==> 0.0 <= p.score <= 1.0
  }

  lemma ErrBound(exp: Exponential, a: real, b: real, p: LabelledPair)
    requires 0.0 <= p.score <= 1.0
    ensures -1.0 <= ErrAt(exp, a, b, p) <= 1.0
    ensures -1.0 <= SlopeTermAt(exp, a, b, p) <= 1.0
  {
    ScaledErr(ErrAt(exp, a, b, p), p.score);
  }

  lemma ScaledErr(e: real, s: real)
    requires -1.0 <= e <= 1.0 && 0.0 <= s <= 1.0
    ensures -1.0 <= Mul(e, s) <= 1.0
    ensures e >= 0.0 ==> Mul(e, s) >= 0.0
    ensures e <= 0.0 ==> Mul(e, s) <= 0.0
  {
    Shrinks(e, s);
  }

  lemma DownIsBounded(x: real, lr: real, sum: real, n: real)
    requires lr >= 0.0 && n > 0.0 && -n <= sum <= n
    ensures -lr <= Down(x, lr, sum, n) - x <= lr
  {
    var q, t := lr * sum / n, lr * sum;
    assert q * n == t;
    MulLe(-n, sum, lr);
    MulLe(sum, n, lr);
    assert sum * lr == t && -n * lr == -(lr * n) && n * lr == lr * n;
    QuotientRange(q, n, lr);
  }

  lemma QuotientRange(q: real, n: real, lr: real)
    requires n > 0.0 && -(lr * n) <= q * n <= lr * n
    ensures -lr <= q <= lr
  {
    if q > lr {
      MulLt(lr, q, n);
      assert false;
    }
    if q < -lr {
      MulLt(q, -lr, n);
      assert false;
    }
  }

  lemma DescentIsBounded(exp: Exponential, pairs: seq<LabelledPair>, lr: real, c: Coefficients)
    requires |pairs| > 0 && UnitScores(pairs) && lr >= 0.0
    ensures var d := Descent(exp, pairs, lr, c);
      -lr <= d.a - c.a <= lr && -lr <= d.b - c.b <= lr
  {
    var f, g := SlopeTerm(exp, c.a, c.b), Err(exp, c.a, c.b);
    forall p | p in pairs
      ensures -1.0 <= f(p) <= 1.0 && -1.0 <= g(p) <= 1.0
    {
      ErrBound(exp, c.a, c.b, p);
    }
    SumOfUnitTerms(f, pairs);
    SumOfUnitTerms(g, pairs);
    DownIsBounded(c.a, lr, SumBy(f, pairs), |pairs| as real);
    DownIsBounded(c.b, lr, SumBy(g, pairs), |pairs| as real);
  }

  /** Both coefficients are within `reach` of where the descent starts. */
  predicate Within(c: Coefficients, reach: real) {
    -reach <= c.a - 1.0 <= reach && -reach <= c.b <= reach
  }

  function Reach(iterations: nat, lr: real): real {
    iterations as real * lr
  }

  /** No iteration moves a coefficient by more than `lr`. */
  lemma {:induction false} FitIsBounded(exp: Exponential, pairs: seq<LabelledPair>, iterations: nat, lr: real)
    requires |pairs| > 0 && UnitScores(pairs) && lr >= 0.0
    ensures Within(Fitted(exp, pairs, iterations, lr), Reach(iterations, lr))
  {
    if iterations == 0 {
      StartsWithin(lr);
    } else {
      FitIsBounded(exp, pairs, iterations - 1, lr);
      DescentStaysWithin(exp, pairs, iterations, lr, Fitted(exp, pairs, iterations - 1, lr));
    }
  }

  lemma DescentStaysWithin(exp: Exponential, pairs: seq<LabelledPair>, iterations: nat, lr: real, c: Coefficients)
    requires |pairs| > 0 && UnitScores(pairs) && lr >= 0.0
    requires iterations > 0 && Within(c, Reach(iterations - 1, lr))
    ensures Within(Descent(exp, pairs, lr, c), Reach(iterations, lr))
  {
    DescentIsBounded(exp, pairs, lr, c);
    ReachGrows(c, Descent(exp, pairs, lr, c), iterations - 1, lr);
  }

  lemma StartsWithin(lr: real)
    ensures Within(Coefficients(1.0, 0.0), Reach(0, lr))
  {
    assert Reach(0, lr) == 0.0;
  }

  lemma ReachGrows(c: Coefficients, d: Coefficients, k: nat, lr: real)
    requires Within(c, Reach(k, lr)) && -lr <= d.a - c.a <= lr && -lr <= d.b - c.b <= lr
    ensures Within(d, Reach(k + 1, lr))
  {
    var r, r' := Reach(k, lr), Reach(k + 1, lr);
    assert r' == r + lr;
  }

  /** With 500 iterations at rate 0.1 (a reach of 50), no argument the sigmoid ever
      sees, while fitting or afterwards, exceeds 101: the guards are dead code and
      every calibrated value is a proper probability. */
  lemma GuardsAreUnreachable(exp: Exponential, pairs: seq<LabelledPair>, iterations: nat, lr: real, raw: real)
    requires |pairs| > 0 && UnitScores(pairs) && 0.0 <= raw <= 1.0
    requires lr >= 0.0 && Reach(iterations, lr) <= 50.0
    ensures var z := Argument(Fitted(exp, pairs, iterations, lr), raw);
      -101.0 <= z <= 101.0 && 0.0 < Sigmoid(exp, z) < 1.0
  {
    FitIsBounded(exp, pairs, iterations, lr);
    ArgumentRange(Fitted(exp, pairs, iterations, lr), Reach(iterations, lr), raw);
  }

  lemma ArgumentRange(c: Coefficients, reach: real, raw: real)
    requires Within(c, reach) && reach <= 50.0 && 0.0 <= raw <= 1.0
    ensures -101.0 <= Argument(c, raw) <= 101.0
  {
    AffineRange(c.a, c.b, raw);
  }

  lemma AffineRange(a: real, b: real, s: real)
    requires -49.0 <= a <= 51.0 && -50.0 <= b <= 50.0 && 0.0 <= s <= 1.0
    ensures -101.0 <= a * s + b <= 101.0
  {
    Shrinks(a, s);
    var p := a * s;
    assert -49.0 <= p <= 51.0;
  }

  /** Calibration keeps the ranking of raw scores exactly when the fitted slope is
      positive. */
  lemma RankingKeptIff(exp: Exponential, c: Coefficients, x: real, y: real)
    requires Increasing(exp) && x < y
    requires -GUARD <= Argument(c, x) <= GUARD && -GUARD <= Argument(c, y) <= GUARD
    ensures Sigmoid(exp, Argument(c, x)) < Sigmoid(exp, Argument(c, y)) <==> c.a > 0.0
  {
    SlopeSign(c, x, y);
    SigmoidOrder(exp, Argument(c, x), Argument(c, y));
  }

  lemma SigmoidOrder(exp: Exponential, u: real, v: real)
    requires Increasing(exp) && -GUARD <= u <= GUARD && -GUARD <= v <= GUARD
    ensures Sigmoid(exp, u) < Sigmoid(exp, v) <==> u < v
  {
    if u < v {
      LogisticAntitone(exp(-v), exp(-u));
    } else if v < u {
      LogisticAntitone(exp(-u), exp(-v));
    }
  }

  lemma SlopeSign(c: Coefficients, x: real, y: real)
    requires x < y
    ensures Argument(c, x) < Argument(c, y) <==> c.a > 0.0
  {
    var p, q, d := c.a * x, c.a * y, c.a * (y - x);
    assert q == p + d;
    if c.a > 0.0 {
      MulLt(0.0, c.a, y - x);
      assert d > 0.0;
    } else {
      MulLe(c.a, 0.0, y - x);
      assert d <= 0.0;
    }
  }

  /** The fit is a function of the multiset of pairs. */
  lemma {:induction false} FitIgnoresOrder(
      exp: Exponential, pairs: seq<LabelledPair>, pairs': seq<LabelledPair>, iterations: nat, lr: real)
    requires |pairs| > 0 && multiset(pairs) == multiset(pairs') && |pairs| == |pairs'|
    ensures Fitted(exp, pairs, iterations, lr) == Fitted(exp, pairs', iterations, lr)
  {
    if iterations == 0 {
    } else {
      FitIgnoresOrder(exp, pairs, pairs', iterations - 1, lr);
      DescentIgnoresOrder(exp, pairs, pairs', lr, Fitted(exp, pairs, iterations - 1, lr));
    }
  }

  lemma DescentIgnoresOrder(
      exp: Exponential, pairs: seq<LabelledPair>, pairs': seq<LabelledPair>, lr: real, c: Coefficients)
    requires |pairs| > 0 && multiset(pairs) == multiset(pairs') && |pairs| == |pairs'|
    ensures Descent(exp, pairs, lr, c) == Descent(exp, pairs', lr, c)
  {
    SumByPermutes(Err(exp, c.a, c.b), pairs, pairs');
    SumByPermutes(SlopeTerm(exp, c.a, c.b), pairs, pairs');
  }

  // ----- Where the descent goes, and where it rests ---------------------------------------

  lemma {:induction false} SumSign(f: LabelledPair -> real, pairs: seq<LabelledPair>)
    ensures (forall p :: p in pairs ==> f(p) >= 0.0) ==> SumBy(f, pairs) >= 0.0
    ensures (forall p :: p in pairs ==> f(p) <= 0.0) ==> SumBy(f, pairs) <= 0.0
  {
    if |pairs| == 0 {
    } else {
      SumSign(f, pairs[..|pairs| - 1]);
      assert pairs[|pairs| - 1] in pairs;
    }
  }

  lemma DownSign(x: real, lr: real, sum: real, n: real)
    requires lr > 0.0 && n > 0.0
    ensures Down(x, lr, sum, n) <= x <==> sum >= 0.0
    ensures Down(x, lr, sum, n) >= x <==> sum <= 0.0
  {
    var q, t := lr * sum / n, lr * sum;
    assert q * n == t;
    SameSign(lr, sum, t);
    SameSign(n, q, t);
  }

  lemma SameSign(a: real, x: real, t: real)
    requires a > 0.0 && t == a * x
    ensures t >= 0.0 <==> x >= 0.0
    ensures t <= 0.0 <==> x <= 0.0
  {
    if x > 0.0 {
      MulLt(0.0, x, a);
    } else if x < 0.0 {
      MulLt(x, 0.0, a);
    }
  }

  predicate AllLabelled(pairs: seq<LabelledPair>, fraud: bool) {
    forall p :: p in pairs ==> p.fraud == fraud
  }

  lemma ErrSign(exp: Exponential, a: real, b: real, p: LabelledPair)
    requires 0.0 <= p.score <= 1.0
    ensures p.fraud ==> ErrAt(exp, a, b, p) <= 0.0 && SlopeTermAt(exp, a, b, p) <= 0.0
    ensures !p.fraud ==> ErrAt(exp, a, b, p) >= 0.0 && SlopeTermAt(exp, a, b, p) >= 0.0
  {
    ScaledErr(ErrAt(exp, a, b, p), p.score);
  }

  /** Examples of one class pull both coefficients one way, at every iteration. */
  lemma OneClassPullsOneWay(exp: Exponential, pairs: seq<LabelledPair>, lr: real, c: Coefficients)
    requires |pairs| > 0 && UnitScores(pairs) && lr > 0.0
    ensures var d := Descent(exp, pairs, lr, c);
      && (AllLabelled(pairs, true) ==> d.a >= c.a && d.b >= c.b)
      && (AllLabelled(pairs, false) ==> d.a <= c.a && d.b <= c.b)
  {
    var f, g := SlopeTerm(exp, c.a, c.b), Err(exp, c.a, c.b);
    forall p | p in pairs
      ensures p.fraud ==> f(p) <= 0.0 && g(p) <= 0.0
      ensures !p.fraud ==> f(p) >= 0.0 && g(p) >= 0.0
    {
      ErrSign(exp, c.a, c.b, p);
    }
    SumSign(f, pairs);
    SumSign(g, pairs);
    DownSign(c.a, lr, SumBy(f, pairs), |pairs| as real);
    DownSign(c.b, lr, SumBy(g, pairs), |pairs| as real);
  }

  /** Trained on confirmed frauds alone, the model can only raise a score's argument;
      trained on false positives alone, only lower it. */
  lemma OneClassModelIsOneSided(exp: Exponential, pairs: seq<LabelledPair>, iterations: nat, lr: real, raw: real)
    requires |pairs| > 0 && UnitScores(pairs) && lr > 0.0 && 0.0 <= raw
    ensures AllLabelled(pairs, true) ==> Argument(Fitted(exp, pairs, iterations, lr), raw) >= raw
    ensures AllLabelled(pairs, false) ==> Argument(Fitted(exp, pairs, iterations, lr), raw) <= raw
  {
    OneClassDrift(exp, pairs, iterations, lr);
    ArgumentSide(Fitted(exp, pairs, iterations, lr), raw);
  }

  lemma ArgumentSide(c: Coefficients, raw: real)
    requires 0.0 <= raw
    ensures c.a >= 1.0 && c.b >= 0.0 ==> Argument(c, raw) >= raw
    ensures c.a <= 1.0 && c.b <= 0.0 ==> Argument(c, raw) <= raw
  {
    var p := c.a * raw;
    if c.a >= 1.0 {
      MulLe(1.0, c.a, raw);
      assert p >= raw;
    }
    if c.a <= 1.0 {
      MulLe(c.a, 1.0, raw);
      assert p <= raw;
    }
  }

  lemma {:induction false} OneClassDrift(exp: Exponential, pairs: seq<LabelledPair>, iterations: nat, lr: real)
    requires |pairs| > 0 && UnitScores(pairs) && lr > 0.0
    ensures var c := Fitted(exp, pairs, iterations, lr);
      && (AllLabelled(pairs, true) ==> c.a >= 1.0 && c.b >= 0.0)
      && (AllLabelled(pairs, false) ==> c.a <= 1.0 && c.b <= 0.0)
  {
    if iterations == 0 {
    } else {
      OneClassDrift(exp, pairs, iterations - 1, lr);
      OneClassPullsOneWay(exp, pairs, lr, Fitted(exp, pairs, iterations - 1, lr));
    }
  }

  /** What the model expects of a pair, and that weighted by its score. */
  function Predicted(exp: Exponential, c: Coefficients): LabelledPair -> real {
    (p: LabelledPair) => Sigmoid(exp, Argument(c, p.score))
  }

  function PredictedScore(exp: Exponential, c: Coefficients): LabelledPair -> real {
    (p: LabelledPair) => Mul(Sigmoid(exp, Argument(c, p.score)), p.score)
  }

  function Observed(): LabelledPair -> real {
    (p: LabelledPair) => LabelToFloat(p.fraud)
  }

  function ObservedScore(): LabelledPair -> real {
    (p: LabelledPair) => Mul(LabelToFloat(p.fraud), p.score)
  }

  lemma ResidualOf(exp: Exponential, c: Coefficients, p: LabelledPair)
    ensures Err(exp, c.a, c.b)(p) == Predicted(exp, c)(p) - Observed()(p)
    ensures SlopeTerm(exp, c.a, c.b)(p) == PredictedScore(exp, c)(p) - ObservedScore()(p)
  {
    var x, y := Sigmoid(exp, Argument(c, p.score)), LabelToFloat(p.fraud);
    assert Coefficients(c.a, c.b) == c;
    assert ErrAt(exp, c.a, c.b, p) == x - y;
    Distributes(x, y, p.score);
  }

  lemma Distributes(x: real, y: real, s: real)
    ensures Mul(x - y, s) == Mul(x, s) - Mul(y, s)
  {
  }

  lemma {:induction false} SumOfDifferences(
      f: LabelledPair -> real, g: LabelledPair -> real, h: LabelledPair -> real, pairs: seq<LabelledPair>)
    requires forall p :: f(p) == g(p) - h(p)
    ensures SumBy(f, pairs) == SumBy(g, pairs) - SumBy(h, pairs)
  {
    if |pairs| == 0 {
    } else {
      SumOfDifferences(f, g, h, pairs[..|pairs| - 1]);
    }
  }

  /** The gradient is what the model expects minus what was observed. */
  lemma GradientIsResidual(exp: Exponential, pairs: seq<LabelledPair>, c: Coefficients)
    ensures SumBy(Err(exp, c.a, c.b), pairs) == SumBy(Predicted(exp, c), pairs) - SumBy(Observed(), pairs)
    ensures SumBy(SlopeTerm(exp, c.a, c.b), pairs)
         == SumBy(PredictedScore(exp, c), pairs) - SumBy(ObservedScore(), pairs)
  {
    forall p: LabelledPair
      ensures Err(exp, c.a, c.b)(p) == Predicted(exp, c)(p) - Observed()(p)
      ensures SlopeTerm(exp, c.a, c.b)(p) == PredictedScore(exp, c)(p) - ObservedScore()(p)
    {
      ResidualOf(exp, c, p);
    }
    SumOfDifferences(Err(exp, c.a, c.b), Predicted(exp, c), Observed(), pairs);
    SumOfDifferences(SlopeTerm(exp, c.a, c.b), PredictedScore(exp, c), ObservedScore(), pairs);
  }

  predicate CalibratedOn(exp: Exponential, pairs: seq<LabelledPair>, c: Coefficients) {
    && SumBy(Predicted(exp, c), pairs) == SumBy(Observed(), pairs)
    && SumBy(PredictedScore(exp, c), pairs) == SumBy(ObservedScore(), pairs)
  }

  /** How far one step goes: the rate times the mean surplus of what was expected over
      what was observed, for the offset plain and for the slope weighted by the scores. */
  lemma StepLength(exp: Exponential, pairs: seq<LabelledPair>, lr: real, c: Coefficients)
    requires |pairs| > 0
    ensures var n, d := |pairs| as real, Descent(exp, pairs, lr, c);
      && Mul(n, c.b - d.b) == Mul(lr, SumBy(Predicted(exp, c), pairs) - SumBy(Observed(), pairs))
      && Mul(n, c.a - d.a) == Mul(lr, SumBy(PredictedScore(exp, c), pairs) - SumBy(ObservedScore(), pairs))
  {
    GradientIsResidual(exp, pairs, c);
    DownLength(c.a, lr, SumBy(SlopeTerm(exp, c.a, c.b), pairs), |pairs| as real);
    DownLength(c.b, lr, SumBy(Err(exp, c.a, c.b), pairs), |pairs| as real);
  }

  lemma DownLength(x: real, lr: real, sum: real, n: real)
    requires n > 0.0
    ensures Mul(n, x - Down(x, lr, sum, n)) == Mul(lr, sum)
  {
    var q := Mul(lr, sum) / n;
    assert q * n == Mul(lr, sum);
  }

  /** A score is calibrated by the logistic curve over its affine image, cut off beyond
      700 on either side. */
  lemma CalibratedOdds(exp: Exponential, c: Coefficients, raw: real)
    ensures var p, z := CalibratedBy(exp, Some(c), Some(raw)), c.a * raw + c.b;
      && p.Some?
      && (z > 700.0 ==> p.value == 1.0) && (z < -700.0 ==> p.value == 0.0)
      && (-700.0 <= z <= 700.0 ==> Mul(p.value, exp(-z)) == 1.0 - p.value)
  {
    var z := Argument(c, raw);
    assert z == c.a * raw + c.b;
    if -GUARD <= z <= GUARD {
      var p := Logistic(exp(-z));
      assert Mul(p, exp(-z)) == 1.0 - p;
    }
  }

  /** The descent rests exactly at the calibrated coefficients: where the expected
      number of frauds is the observed one and the expected total score of frauds is
      the observed one. */
  lemma RestsIffCalibrated(exp: Exponential, pairs: seq<LabelledPair>, lr: real, c: Coefficients)
    requires |pairs| > 0 && lr > 0.0
    ensures Descent(exp, pairs, lr, c) == c <==> CalibratedOn(exp, pairs, c)
  {
    GradientIsResidual(exp, pairs, c);
    DownSign(c.a, lr, SumBy(SlopeTerm(exp, c.a, c.b), pairs), |pairs| as real);
    DownSign(c.b, lr, SumBy(Err(exp, c.a, c.b), pairs), |pairs| as real);
  }

  // ----- Models that are numbers -------------------------------------------------------

  /** Every raw score gets a probability strictly between 0 and 1. */
  ghost predicate Proper(exp: Exponential, c: Option<Coefficients>) {
    forall raw: real :: 0.0 <= raw <= 1.0 ==> ProperAt(exp, c, raw)
  }

  predicate ProperAt(exp: Exponential, c: Option<Coefficients>, raw: real) {
    var p := CalibratedBy(exp, c, Some(raw));
    p.Some? && 0.0 < p.value < 1.0
  }

  /** No raw score gets a probability. */
  ghost predicate Mute(exp: Exponential, c: Option<Coefficients>) {
    forall raw :: CalibratedBy(exp, c, raw).None?
  }

  /** Fitted on scores from the unit interval with a reach of 50, a model is proper
      exactly when there was a pair and every score was a number; otherwise it gives no
      probability until it is fitted anew. */
  lemma ProperIff(exp: Exponential, pairs: seq<RawPair>, iterations: nat, lr: real)
    requires forall p :: p in pairs ==> InUnit(p.score)
    requires iterations > 0 && lr >= 0.0 && Reach(iterations, lr) <= 50.0
    ensures Proper(exp, FitOutcome(exp, pairs, iterations, lr)) <==> |pairs| > 0 && AllNumbers(pairs)
    ensures Mute(exp, FitOutcome(exp, pairs, iterations, lr)) <==> |pairs| == 0 || !AllNumbers(pairs)
  {
    var c := FitOutcome(exp, pairs, iterations, lr);
    if |pairs| > 0 && AllNumbers(pairs) {
      NumbersKeepLength(pairs);
      NumbersAreUnit(pairs);
      forall raw: real | 0.0 <= raw <= 1.0
        ensures ProperAt(exp, c, raw)
      {
        GuardsAreUnreachable(exp, Numbers(pairs), iterations, lr, raw);
      }
      assert CalibratedBy(exp, c, Some(0.0)).Some?;
    } else {
      assert !ProperAt(exp, c, 0.0);
    }
  }

  lemma {:induction false} NumbersAreUnit(pairs: seq<RawPair>)
    requires forall p :: p in pairs ==> InUnit(p.score)
    ensures UnitScores(Numbers(pairs))
  {
    if |pairs| == 0 {
    } else {
      var n := |pairs| - 1;
      assert pairs == pairs[..n] + [pairs[n]];
      NumbersAreUnit(pairs[..n]);
    }
  }

  /** What is stored is a function of the multiset of pairs, numbers or not. */
  lemma OutcomeIgnoresOrder(exp: Exponential, pairs: seq<RawPair>, pairs': seq<RawPair>, iterations: nat, lr: real)
    requires multiset(pairs) == multiset(pairs')
    ensures FitOutcome(exp, pairs, iterations, lr) == FitOutcome(exp, pairs', iterations, lr)
  {
    assert |multiset(pairs)| == |pairs| && |multiset(pairs')| == |pairs'|;
    if AllNumbers(pairs) {
      NumbersSurvive(pairs, pairs');
    }
    if AllNumbers(pairs') {
      NumbersSurvive(pairs', pairs);
    }
    if |pairs| > 0 && AllNumbers(pairs) {
      NumbersKeepLength(pairs);
      FlatMapPermutes(AsNumber, pairs, pairs');
      FitIgnoresOrder(exp, Numbers(pairs), Numbers(pairs'), iterations, lr);
    }
  }

  lemma NumbersSurvive(pairs: seq<RawPair>, pairs': seq<RawPair>)
    requires multiset(pairs) == multiset(pairs') && AllNumbers(pairs)
    ensures AllNumbers(pairs')
  {
    forall i | 0 <= i < |pairs'|
      ensures IsNumber(pairs'[i])
    {
      assert pairs'[i] in multiset(pairs);
    }
  }
}

/** How many coefficients the gradient descent of the calibrator can come to rest at
    (internal/ml/ml.go). */
module RestingPoints {
  import opened Calibration
  import opened Exponentials
  import opened Powers
  import opened RealSums

  predicate Rests(exp: Exponential, pairs: seq<LabelledPair>, lr: real, c: Coefficients)
    requires |pairs| > 0
  {
    Descent(exp, pairs, lr, c) == c
  }

  /** The sigmoid is not cut off at this pair. */
  predicate Inside(c: Coefficients, p: LabelledPair) {
    -GUARD <= Argument(c, p.score) <= GUARD
  }

  /** Two pairs of different scores at which the sigmoid is not cut off. */
  predicate TwoScoresInside(c: Coefficients, pairs: seq<LabelledPair>) {
    exists i, j :: 0 <= i < j < |pairs|
      && pairs[i].score != pairs[j].score && Inside(c, pairs[i]) && Inside(c, pairs[j])
  }

  // ----- At most one: the predictions of two resting points agree ----------------------

  /** The cut-off sigmoid never falls, and it strictly rises at a point inside. */
  lemma GuardedOrder(exp: Exponential, u: real, v: real)
    requires Increasing(exp) && u < v
    ensures Sigmoid(exp, u) <= Sigmoid(exp, v)
    ensures (-GUARD <= u <= GUARD || -GUARD <= v <= GUARD) ==> Sigmoid(exp, u) < Sigmoid(exp, v)
  {
    if -GUARD <= u && v <= GUARD {
      SigmoidOrder(exp, u, v);
    }
  }

  function Apart(exp: Exponential, c: Coefficients, d: Coefficients, p: LabelledPair): real {
    Sigmoid(exp, Argument(c, p.score)) - Sigmoid(exp, Argument(d, p.score))
  }

  /** How far two models are apart at a pair, in their predictions times their arguments. */
  function GapAt(exp: Exponential, c: Coefficients, d: Coefficients, p: LabelledPair): real {
    Mul(Apart(exp, c, d, p), Argument(c, p.score) - Argument(d, p.score))
  }

  function Gap(exp: Exponential, c: Coefficients, d: Coefficients): LabelledPair -> real {
    p => GapAt(exp, c, d, p)
  }

  lemma GapSign(exp: Exponential, c: Coefficients, d: Coefficients, p: LabelledPair)
    requires Increasing(exp)
    ensures GapAt(exp, c, d, p) >= 0.0
    ensures Inside(c, p) && GapAt(exp, c, d, p) == 0.0 ==> Argument(c, p.score) == Argument(d, p.score)
  {
    var u, v := Argument(c, p.score), Argument(d, p.score);
    if u < v {
      GuardedOrder(exp, u, v);
      SameSigns(-Apart(exp, c, d, p), v - u, u - v, Apart(exp, c, d, p));
    } else if v < u {
      GuardedOrder(exp, v, u);
      SameSigns(Apart(exp, c, d, p), u - v, u - v, Apart(exp, c, d, p));
    } else {
      assert Mul(Apart(exp, c, d, p), 0.0) == 0.0;
    }
  }

  /** The product of two numbers of one sign; `x` and `y` are their sizes. */
  lemma SameSigns(x: real, y: real, b: real, a: real)
    requires x >= 0.0 && y > 0.0 && ((x == a && y == b) || (x == -a && y == -b))
    ensures Mul(a, b) >= 0.0
    ensures x > 0.0 ==> Mul(a, b) > 0.0
  {
    assert Mul(a, b) == Mul(x, y);
    MulLe(0.0, x, y);
    if x > 0.0 {
      MulPositive(x, y, Mul(x, y));
    }
  }

  /** A gap is made of the two kinds of residual that vanish at a resting point. */
  lemma GapSplits(exp: Exponential, c: Coefficients, d: Coefficients, p: LabelledPair)
    ensures GapAt(exp, c, d, p)
      == Mul(c.a - d.a, PredictedScore(exp, c)(p) - PredictedScore(exp, d)(p))
       + Mul(c.b - d.b, Predicted(exp, c)(p) - Predicted(exp, d)(p))
  {
    var x, y := Predicted(exp, c)(p), Predicted(exp, d)(p);
    Distributes(x, y, p.score);
    SplitProduct(x - y, c, d, p.score);
  }

  lemma SplitProduct(x: real, c: Coefficients, d: Coefficients, s: real)
    ensures Mul(x, Argument(c, s) - Argument(d, s)) == Mul(c.a - d.a, Mul(x, s)) + Mul(c.b - d.b, x)
  {
    var a, b := c.a - d.a, c.b - d.b;
    assert Argument(c, s) - Argument(d, s) == a * s + b;
    assert x * (a * s + b) == a * (x * s) + b * x;
  }

  lemma Collect(k: real, x: real, y: real, u: real, v: real)
    ensures Mul(k, (x + u) - (y + v)) == Mul(k, x - y) + Mul(k, u - v)
  {
  }

  lemma {:induction false} GapsAddUp(exp: Exponential, c: Coefficients, d: Coefficients, pairs: seq<LabelledPair>)
    ensures SumBy(Gap(exp, c, d), pairs)
      == Mul(c.a - d.a, SumBy(PredictedScore(exp, c), pairs) - SumBy(PredictedScore(exp, d), pairs))
       + Mul(c.b - d.b, SumBy(Predicted(exp, c), pairs) - SumBy(Predicted(exp, d), pairs))
  {
    if |pairs| == 0 {
      assert Mul(c.a - d.a, 0.0) == 0.0 && Mul(c.b - d.b, 0.0) == 0.0;
    } else {
      var front, p := pairs[..|pairs| - 1], pairs[|pairs| - 1];
      GapsAddUp(exp, c, d, front);
      GapSplits(exp, c, d, p);
      Collect(c.a - d.a, SumBy(PredictedScore(exp, c), front), SumBy(PredictedScore(exp, d), front),
        PredictedScore(exp, c)(p), PredictedScore(exp, d)(p));
      Collect(c.b - d.b, SumBy(Predicted(exp, c), front), SumBy(Predicted(exp, d), front),
        Predicted(exp, c)(p), Predicted(exp, d)(p));
    }
  }

  lemma {:induction false} EachVanishes<T>(f: T -> real, xs: seq<T>)
    requires forall x :: x in xs ==> f(x) >= 0.0
    ensures SumBy(f, xs) >= 0.0
    ensures SumBy(f, xs) == 0.0 ==> forall x :: x in xs ==> f(x) == 0.0
  {
    if |xs| == 0 {
    } else {
      var front, last := xs[..|xs| - 1], xs[|xs| - 1];
      EachVanishes(f, front);
      assert last in xs;
      assert forall x :: x in xs ==> x in front || x == last;
    }
  }

  /** Two resting points have the same argument at every pair that is inside for one. */
  lemma ArgumentsAgree(exp: Exponential, pairs: seq<LabelledPair>, c: Coefficients, d: Coefficients)
    requires Increasing(exp) && CalibratedOn(exp, pairs, c) && CalibratedOn(exp, pairs, d)
    ensures forall p :: p in pairs && Inside(c, p) ==> Argument(c, p.score) == Argument(d, p.score)
  {
    GapsAddUp(exp, c, d, pairs);
    assert Mul(c.a - d.a, 0.0) == 0.0 && Mul(c.b - d.b, 0.0) == 0.0;
    forall p: LabelledPair
      ensures GapAt(exp, c, d, p) >= 0.0
      ensures Inside(c, p) && GapAt(exp, c, d, p) == 0.0 ==> Argument(c, p.score) == Argument(d, p.score)
    {
      GapSign(exp, c, d, p);
    }
    EachVanishes(Gap(exp, c, d), pairs);
    forall p | p in pairs && Inside(c, p)
      ensures Argument(c, p.score) == Argument(d, p.score)
    {
      assert Gap(exp, c, d)(p) == 0.0;
    }
  }

  /** A line is known from two of its points. */
  lemma TwoPointsMakeALine(c: Coefficients, d: Coefficients, s: real, t: real)
    requires s != t && Argument(c, s) == Argument(d, s) && Argument(c, t) == Argument(d, t)
    ensures c == d
  {
    var k, w := c.a - d.a, s - t;
    assert k * w == 0.0;
    assert w != 0.0;
    assert k == 0.0;
    assert c.a == d.a;
  }

  // ----- More than one: a line of resting points ---------------------------------------

  /** The same argument at the score `s`, and a slope steeper by `step`. */
  function Tilted(c: Coefficients, s: real, step: real): Coefficients {
    Coefficients(c.a + step, c.b - Mul(step, s))
  }

  lemma TiltedArgument(c: Coefficients, s: real, step: real, t: real)
    ensures Argument(Tilted(c, s, step), t) == Argument(c, t) + Mul(step, t - s)
  {
    assert (c.a + step) * t == c.a * t + step * t;
    assert step * (t - s) == step * t - step * s;
  }

  /** At this pair the tilt does not show. */
  predicate Unmoved(exp: Exponential, c: Coefficients, s: real, step: real, p: LabelledPair) {
    Sigmoid(exp, Argument(Tilted(c, s, step), p.score)) == Sigmoid(exp, Argument(c, p.score))
  }

  ghost predicate UnmovedUpTo(exp: Exponential, c: Coefficients, s: real, bound: real, p: LabelledPair) {
    forall step: real :: 0.0 < step <= bound ==> Unmoved(exp, c, s, step, p)
  }

  /** A pair at the score turned about stays; one that is cut off stays cut off under a
      small tilt. */
  lemma SmallTilt(exp: Exponential, c: Coefficients, s: real, p: LabelledPair) returns (bound: real)
    requires p.score == s || !Inside(c, p)
    ensures bound > 0.0 && UnmovedUpTo(exp, c, s, bound, p)
  {
    var z, d := Argument(c, p.score), p.score - s;
    var room := if z > GUARD then z - GUARD else if z < -GUARD then -GUARD - z else 1.0;
    var size := if d >= 0.0 then d else -d;
    bound := Room(room, size);
    assert p.score == s ==> d == 0.0;
    forall step: real | 0.0 < step <= bound
      ensures Unmoved(exp, c, s, step, p)
    {
      TiltedArgument(c, s, step, p.score);
      StaysWithin(step, bound, d, size, room);
    }
  }

  lemma StaysWithin(step: real, bound: real, d: real, size: real, room: real)
    requires 0.0 < step <= bound && size >= 0.0 && (size == d || size == -d) && Mul(bound, size) < room
    ensures -room < Mul(step, d) < room
    ensures d == 0.0 ==> Mul(step, d) == 0.0
  {
    MulLe(step, bound, size);
    MulLe(0.0, step, size);
    assert Mul(step, d) == Mul(step, size) || Mul(step, d) == -Mul(step, size);
  }

  lemma Room(room: real, size: real) returns (bound: real)
    requires room > 0.0 && size >= 0.0
    ensures bound > 0.0 && Mul(bound, size) < room
  {
    bound := room / (1.0 + size);
    assert bound * (1.0 + size) == room;
    QuotientPositive(room, 1.0 + size);
  }

  lemma {:induction false} SmallTilts(exp: Exponential, c: Coefficients, s: real, pairs: seq<LabelledPair>)
      returns (bound: real)
    requires forall p :: p in pairs ==> p.score == s || !Inside(c, p)
    ensures bound > 0.0 && forall p :: p in pairs ==> UnmovedUpTo(exp, c, s, bound, p)
  {
    if |pairs| == 0 {
      bound := 1.0;
    } else {
      var front, last := pairs[..|pairs| - 1], pairs[|pairs| - 1];
      var some := SmallTilts(exp, c, s, front);
      var one := SmallTilt(exp, c, s, last);
      bound := if some < one then some else one;
      assert forall p :: p in pairs ==> p in front || p == last;
    }
  }

  /** Where all pairs inside share one score, the model can be tilted about it. */
  lemma TiltRests(exp: Exponential, pairs: seq<LabelledPair>, c: Coefficients, s: real) returns (d: Coefficients)
    requires CalibratedOn(exp, pairs, c)
    requires forall p :: p in pairs ==> p.score == s || !Inside(c, p)
    ensures d != c && CalibratedOn(exp, pairs, d)
  {
    var step := SmallTilts(exp, c, s, pairs);
    d := Tilted(c, s, step);
    forall p | p in pairs
      ensures Predicted(exp, d)(p) == Predicted(exp, c)(p)
      ensures PredictedScore(exp, d)(p) == PredictedScore(exp, c)(p)
    {
      assert UnmovedUpTo(exp, c, s, step, p) && Unmoved(exp, c, s, step, p);
    }
    SumsAgree(Predicted(exp, d), Predicted(exp, c), pairs);
    SumsAgree(PredictedScore(exp, d), PredictedScore(exp, c), pairs);
  }

  /** The score all pairs inside share, when there are not two. */
  lemma SharedScore(c: Coefficients, pairs: seq<LabelledPair>) returns (s: real)
    requires !TwoScoresInside(c, pairs)
    ensures forall p :: p in pairs ==> p.score == s || !Inside(c, p)
  {
    if i :| 0 <= i < |pairs| && Inside(c, pairs[i]) {
      s := pairs[i].score;
      forall p | p in pairs && Inside(c, p)
        ensures p.score == s
      {
        var j :| 0 <= j < |pairs| && pairs[j] == p;
      }
    } else {
      s := 0.0;
    }
  }

  /** A resting point is the only one if and only if two pairs of different scores are
      inside the guards; otherwise the model tilted a little about the score they share
      rests as well, and the data do not settle the slope. */
  lemma RestsAloneIff(exp: Exponential, pairs: seq<LabelledPair>, lr: real, c: Coefficients)
    requires Increasing(exp) && |pairs| > 0 && lr > 0.0 && Rests(exp, pairs, lr, c)
    ensures (forall d :: Rests(exp, pairs, lr, d) ==> d == c) <==> TwoScoresInside(c, pairs)
  {
    RestsIffCalibrated(exp, pairs, lr, c);
    if TwoScoresInside(c, pairs) {
      var i, j :| 0 <= i < j < |pairs|
        && pairs[i].score != pairs[j].score && Inside(c, pairs[i]) && Inside(c, pairs[j]);
      forall d | Rests(exp, pairs, lr, d)
        ensures d == c
      {
        RestsIffCalibrated(exp, pairs, lr, d);
        ArgumentsAgree(exp, pairs, c, d);
        assert pairs[i] in pairs && pairs[j] in pairs;
        TwoPointsMakeALine(c, d, pairs[i].score, pairs[j].score);
      }
    } else {
      var s := SharedScore(c, pairs);
      var d := TiltRests(exp, pairs, c, s);
      RestsIffCalibrated(exp, pairs, lr, d);
      assert Rests(exp, pairs, lr, d);
    }
  }
}

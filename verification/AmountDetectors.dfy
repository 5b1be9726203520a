/** The z-score and Tukey-fence detectors (internal/detector/detector.go) over a
    user's amounts in one category and the population baseline. */
module AmountDetectors {
  import opened Models
  import opened Powers
  import opened RealSums
  import opened Statistics

  // ----- Z-score ------------------------------------------------------------------------

  const SIGMAS: real := 3.0

  datatype Baseline = Baseline(mean: real, std: real)

  /** The blended baseline; undefined when the user has exactly one amount, because
      that amount's sample deviation is. */
  function Blended(sqrt: SquareRoot, amounts: seq<real>, pop: Baseline): (b: Option<Baseline>)
    ensures b.Some? <==> |amounts| != 1
  {
    var alpha := Alpha(|amounts|);
    if |amounts| == 0 then Some(Baseline(Blend(alpha, 0.0, pop.mean), Blend(alpha, 0.0, pop.std)))
    else if |amounts| == 1 then None
    else Some(Baseline(Blend(alpha, Mean(amounts), pop.mean), Blend(alpha, StdDev(sqrt, amounts).value, pop.std)))
  }

  /** The blended baseline: the population's for a new user, otherwise mean and deviation
      of user and population by their shares. */
  lemma BlendedIsShared(sqrt: SquareRoot, amounts: seq<real>, pop: Baseline)
    ensures |amounts| == 0 ==> Blended(sqrt, amounts, pop) == Some(pop)
    ensures |amounts| >= 2 ==>
      var b := Blended(sqrt, amounts, pop).value;
      && Shared(|amounts|, Mean(amounts), pop.mean, b.mean)
      && Shared(|amounts|, StdDev(sqrt, amounts).value, pop.std, b.std)
  {
    if |amounts| == 0 {
      BlendEnds(0, 0.0, pop.mean);
      BlendEnds(0, 0.0, pop.std);
    } else if |amounts| >= 2 {
      BlendIsShared(|amounts|, Mean(amounts), pop.mean);
      BlendIsShared(|amounts|, StdDev(sqrt, amounts).value, pop.std);
    }
  }

  lemma BlendedStdNonNegative(sqrt: SquareRoot, amounts: seq<real>, pop: Baseline)
    requires |amounts| != 1 && pop.std >= 0.0
    ensures Blended(sqrt, amounts, pop).value.std >= 0.0
  {
    var user := if |amounts| == 0 then 0.0 else StdDev(sqrt, amounts).value;
    BlendOrder(Alpha(|amounts|), 0.0, user, 0.0, pop.std);
  }

  function FromZ(z: real): real {
    if z <= SIGMAS then 0.0
    else
      var score := 0.5 + (z - SIGMAS) * 0.2;
      if score > 1.0 then 1.0 else score
  }

  /** Without spread nothing is unusual. */
  function Against(b: Baseline, amount: real): (s: real)
    ensures s == 0.0 || 0.5 < s <= 1.0
  {
    if b.std == 0.0 then 0.0 else FromZ((amount - b.mean) / b.std)
  }

  /** `None` is the source's NaN: with a single amount and a population to blend it
      with, every comparison downstream is made against an undefined number. */
  function ZScore(sqrt: SquareRoot, amounts: seq<real>, pop: Baseline, amount: real): (s: Option<real>)
    ensures s.None? <==> |amounts| == 1 && pop.std != 0.0
    ensures s.Some? ==> s.value == 0.0 || 0.5 < s.value <= 1.0
  {
    if |amounts| < MIN_HISTORY && pop.std == 0.0 then Some(0.0)
    else
      match Blended(sqrt, amounts, pop)
      case None => None
      case Some(b) => Some(Against(b, amount))
  }

  /** When it has an answer, the detector fires exactly above three deviations, and a
      larger amount never scores lower. */
  lemma ZScoreFiresIff(sqrt: SquareRoot, amounts: seq<real>, pop: Baseline, amount: real)
    requires pop.std >= 0.0 && ZScore(sqrt, amounts, pop, amount).Some?
    requires |amounts| >= MIN_HISTORY || pop.std > 0.0
    ensures var b := Blended(sqrt, amounts, pop).value;
      ZScore(sqrt, amounts, pop, amount).value > 0.0 <==> b.std > 0.0 && amount > b.mean + Deviations(b.std)
  {
    var b := Blended(sqrt, amounts, pop).value;
    BlendedStdNonNegative(sqrt, amounts, pop);
    AgainstFiresIff(b, amount);
  }

  lemma AgainstFiresIff(b: Baseline, amount: real)
    requires b.std >= 0.0
    ensures Against(b, amount) > 0.0 <==> b.std > 0.0 && amount > b.mean + Deviations(b.std)
  {
    if b.std > 0.0 {
      QuotientAbove(amount - b.mean, b.std);
    }
  }

  function Deviations(std: real): real {
    SIGMAS * std
  }

  lemma QuotientAbove(x: real, std: real)
    requires std > 0.0
    ensures x / std > SIGMAS <==> x > Deviations(std)
  {
    var z := x / std;
    assert z * std == x;
    if z > SIGMAS {
      MulLt(SIGMAS, z, std);
    } else {
      MulLe(z, SIGMAS, std);
    }
  }

  /** What the detector answers to an amount `x` above the mean, given the deviation. */
  predicate ScoresZ(std: real, x: real, score: real) {
    if std == 0.0 || x <= 3.0 * std then score == 0.0
    else if x >= 5.5 * std then score == 1.0
    else std * (score - 0.5) == 0.2 * (x - 3.0 * std)
  }

  lemma AgainstScoresZ(b: Baseline, amount: real)
    requires b.std >= 0.0
    ensures ScoresZ(b.std, amount - b.mean, Against(b, amount))
  {
    if b.std > 0.0 {
      var x, z := amount - b.mean, (amount - b.mean) / b.std;
      QuotientTimes(x, b.std);
      QuotientReaches(z, b.std, x, 3.0);
      QuotientReaches(z, b.std, x, 5.5);
      RampAlong(b.std, z, x);
    }
  }

  lemma QuotientReaches(z: real, std: real, x: real, k: real)
    requires std > 0.0 && Mul(z, std) == x
    ensures z <= k <==> x <= Mul(k, std)
    ensures z >= k <==> x >= Mul(k, std)
  {
    if z < k {
      MulLt(z, k, std);
    } else if k < z {
      MulLt(k, z, std);
    }
  }

  lemma RampAlong(std: real, z: real, x: real)
    requires Mul(z, std) == x
    ensures std * ((0.5 + (z - SIGMAS) * 0.2) - 0.5) == 0.2 * (x - 3.0 * std)
  {
  }

  /** The z-score: silent below five amounts without population spread; otherwise by the
      blended baseline, a fifth per deviation from 0.5 at three. */
  lemma ZScoreValue(sqrt: SquareRoot, amounts: seq<real>, pop: Baseline, amount: real)
    requires pop.std >= 0.0 && !(|amounts| == 1 && pop.std != 0.0)
    ensures |amounts| < 5 && pop.std == 0.0 ==> ZScore(sqrt, amounts, pop, amount) == Some(0.0)
    ensures |amounts| >= 5 || pop.std != 0.0 ==>
      var b := Blended(sqrt, amounts, pop).value;
      ScoresZ(b.std, amount - b.mean, ZScore(sqrt, amounts, pop, amount).value)
  {
    if |amounts| >= 5 || pop.std != 0.0 {
      BlendedStdNonNegative(sqrt, amounts, pop);
      AgainstScoresZ(Blended(sqrt, amounts, pop).value, amount);
    }
  }

  lemma ZScoreMonotone(sqrt: SquareRoot, amounts: seq<real>, pop: Baseline, x: real, y: real)
    requires pop.std >= 0.0 && x <= y && !(|amounts| == 1 && pop.std != 0.0)
    ensures ZScore(sqrt, amounts, pop, x).value <= ZScore(sqrt, amounts, pop, y).value
  {
    if !(|amounts| < MIN_HISTORY && pop.std == 0.0) {
      BlendedStdNonNegative(sqrt, amounts, pop);
      AgainstMonotone(Blended(sqrt, amounts, pop).value, x, y);
    }
  }

  lemma AgainstMonotone(b: Baseline, x: real, y: real)
    requires b.std >= 0.0 && x <= y
    ensures Against(b, x) <= Against(b, y)
  {
    if b.std != 0.0 {
      QuotientOrder(x - b.mean, y - b.mean, b.std);
      FromZMonotone((x - b.mean) / b.std, (y - b.mean) / b.std);
    }
  }

  /** Monotone, and saturated from 5.5 deviations on. */
  lemma FromZMonotone(z: real, z': real)
    requires z <= z'
    ensures FromZ(z) <= FromZ(z')
    ensures FromZ(z) == 1.0 <==> z >= 5.5
  {
  }

  lemma QuotientOrder(x: real, y: real, d: real)
    requires d > 0.0 && x <= y
    ensures x / d <= y / d
  {
    var p, q := x / d, y / d;
    assert p * d == x && q * d == y;
    if q < p {
      MulLt(q, p, d);
    }
  }

  // ----- Tukey fences ---------------------------------------------------------------------

  const MULTIPLIER: real := 1.5

  datatype Quartiles = Quartiles(q1: real, q3: real)

  function UserQuartiles(amounts: seq<real>): (q: Quartiles)
    ensures q.q1 <= q.q3
  {
    if |amounts| == 0 then Quartiles(0.0, 0.0)
    else
      QuantileMonotone(0.25, 0.75, Sort(amounts));
      Quartiles(Quantile(0.25, Sort(amounts)), Quantile(0.75, Sort(amounts)))
  }

  function BlendedQuartiles(amounts: seq<real>, pop: Quartiles): (q: Quartiles)
    ensures pop.q1 <= pop.q3 ==> q.q1 <= q.q3
  {
    var alpha, user := Alpha(|amounts|), UserQuartiles(amounts);
    if pop.q1 <= pop.q3 then
      BlendOrder(alpha, user.q1, user.q3, pop.q1, pop.q3);
      Quartiles(Blend(alpha, user.q1, pop.q1), Blend(alpha, user.q3, pop.q3))
    else
      Quartiles(Blend(alpha, user.q1, pop.q1), Blend(alpha, user.q3, pop.q3))
  }

  function Upper(q: Quartiles): real {
    q.q3 + MULTIPLIER * (q.q3 - q.q1)
  }

  function Lower(q: Quartiles): real {
    q.q1 - MULTIPLIER * (q.q3 - q.q1)
  }

  function AtMost(x: real, cap: real): real {
    if x > cap then cap else x
  }

  function FenceScore(q: Quartiles, amount: real): real {
    var iqr := q.q3 - q.q1;
    if iqr == 0.0 then 0.0
    else if amount > Upper(q) then AtMost(0.5 + 0.25 * ((amount - Upper(q)) / iqr), 1.0)
    else if amount < Lower(q) then AtMost(0.4 + 0.15 * ((Lower(q) - amount) / iqr), 0.9)
    else 0.0
  }

  function Iqr(amounts: seq<real>, pop: Quartiles, amount: real): real {
    if |amounts| < MIN_HISTORY && pop.q1 == 0.0 && pop.q3 == 0.0 then 0.0
    else FenceScore(BlendedQuartiles(amounts, pop), amount)
  }

  /** The fences enclose the quartiles, so the two branches exclude each other. */
  lemma FencesEnclose(q: Quartiles)
    requires q.q1 <= q.q3
    ensures Lower(q) <= q.q1 <= q.q3 <= Upper(q)
  {
  }

  /** Fires exactly outside the fences; the ranges the ensemble relies on; and moving
      further out on either side never lowers the score. */
  lemma FenceScoreShape(q: Quartiles, x: real, y: real)
    requires q.q1 < q.q3
    ensures FenceScore(q, x) > 0.0 <==> x < Lower(q) || x > Upper(q)
    ensures FenceScore(q, x) == 0.0 || 0.4 < FenceScore(q, x) <= 1.0
    ensures x > Upper(q) ==> FenceScore(q, x) > 0.5
    ensures Upper(q) < x <= y ==> FenceScore(q, x) <= FenceScore(q, y)
    ensures y <= x < Lower(q) ==> FenceScore(q, x) <= FenceScore(q, y)
    ensures FenceScore(q, x) == 1.0 <==> x >= Upper(q) + 2.0 * (q.q3 - q.q1)
    ensures x < Lower(q) ==> FenceScore(q, x) <= 0.9
    ensures x < Lower(q) ==> (FenceScore(q, x) == 0.9 <==> x <= Lower(q) - Widths(q))
  {
    FencesEnclose(q);
    var iqr := q.q3 - q.q1;
    if x > Upper(q) {
      QuotientPositive(x - Upper(q), iqr);
      TwoWidths(x - Upper(q), iqr);
      if x <= y {
        QuotientOrder(x - Upper(q), y - Upper(q), iqr);
      }
    }
    if x < Lower(q) {
      QuotientPositive(Lower(q) - x, iqr);
      ThreeAndAThird(Lower(q) - x, iqr);
      if y <= x {
        QuotientOrder(Lower(q) - x, Lower(q) - y, iqr);
      }
    }
  }

  /** What the detector answers to an amount, given the quartiles. */
  predicate ScoresFence(q1: real, q3: real, amount: real, score: real) {
    var w := q3 - q1;
    var over, under := amount - (q3 + 1.5 * w), (q1 - 1.5 * w) - amount;
    if w == 0.0 || (over <= 0.0 && under <= 0.0) then score == 0.0
    else if over >= 2.0 * w || 3.0 * under >= 10.0 * w then score == if over > 0.0 then 1.0 else 0.9
    else if over > 0.0 then w * (score - 0.5) == 0.25 * over
    else w * (score - 0.4) == 0.15 * under
  }

  lemma FenceScoresFence(q: Quartiles, amount: real)
    requires q.q1 <= q.q3
    ensures ScoresFence(q.q1, q.q3, amount, FenceScore(q, amount))
  {
    var w := q.q3 - q.q1;
    if w > 0.0 {
      FenceScoreShape(q, amount, amount);
      QuotientTimes(amount - Upper(q), w);
      QuotientTimes(Lower(q) - amount, w);
      TwoWidths(amount - Upper(q), w);
      ThreeAndAThird(Lower(q) - amount, w);
      FenceAlong(w, (amount - Upper(q)) / w, amount - Upper(q), 0.5, 0.25);
      FenceAlong(w, (Lower(q) - amount) / w, Lower(q) - amount, 0.4, 0.15);
    }
  }

  lemma FenceAlong(w: real, z: real, x: real, base: real, slope: real)
    requires Mul(z, w) == x
    ensures w * ((base + slope * z) - base) == slope * x
  {
    assert w * (slope * z) == slope * (z * w);
  }

  /** The blended quartiles: the population's for a new user, otherwise those of the sorted
      amounts and of the population by their shares. */
  lemma QuartilesAreShared(amounts: seq<real>, pop: Quartiles)
    ensures |amounts| == 0 ==> BlendedQuartiles(amounts, pop) == pop
    ensures |amounts| > 0 ==>
      var n, q := |amounts|, BlendedQuartiles(amounts, pop);
      && Shared(n, Quantile(0.25, Sort(amounts)), pop.q1, q.q1)
      && Shared(n, Quantile(0.75, Sort(amounts)), pop.q3, q.q3)
  {
    var user := UserQuartiles(amounts);
    if |amounts| == 0 {
      BlendEnds(0, 0.0, pop.q1);
      BlendEnds(0, 0.0, pop.q3);
    } else {
      BlendIsShared(|amounts|, user.q1, pop.q1);
      BlendIsShared(|amounts|, user.q3, pop.q3);
    }
  }

  /** The fence detector: silent below five amounts without population quartiles, and
      otherwise by the fences around the blended ones. */
  lemma IqrValue(amounts: seq<real>, pop: Quartiles, amount: real)
    requires pop.q1 <= pop.q3
    ensures |amounts| < 5 && pop == Quartiles(0.0, 0.0) ==> Iqr(amounts, pop, amount) == 0.0
    ensures |amounts| >= 5 || pop != Quartiles(0.0, 0.0) ==>
      var q := BlendedQuartiles(amounts, pop);
      ScoresFence(q.q1, q.q3, amount, Iqr(amounts, pop, amount))
  {
    FenceScoresFence(BlendedQuartiles(amounts, pop), amount);
  }

  /** Three and a third fence widths. */
  function Widths(q: Quartiles): real {
    10.0 * (q.q3 - q.q1) / 3.0
  }

  lemma ThreeAndAThird(a: real, b: real)
    requires b > 0.0
    ensures 0.15 * (a / b) >= 0.5 <==> a >= 10.0 * b / 3.0
  {
    var q := a / b;
    assert q * b == a;
    if q >= 10.0 / 3.0 {
      MulLe(10.0 / 3.0, q, b);
    } else {
      MulLt(q, 10.0 / 3.0, b);
    }
  }

  lemma TwoWidths(a: real, b: real)
    requires b > 0.0
    ensures a / b >= 2.0 <==> a >= 2.0 * b
  {
    var q := a / b;
    assert q * b == a;
    if q >= 2.0 {
      MulLe(2.0, q, b);
    } else {
      MulLt(q, 2.0, b);
    }
  }

  /** The IQR vote is one the ensemble expects, for every history and population. */
  lemma IqrRange(amounts: seq<real>, pop: Quartiles, amount: real)
    requires pop.q1 <= pop.q3
    ensures Iqr(amounts, pop, amount) == 0.0 || 0.4 < Iqr(amounts, pop, amount) <= 1.0
  {
    var q := BlendedQuartiles(amounts, pop);
    if q.q1 < q.q3 {
      FenceScoreShape(q, amount, amount);
    }
  }

  /** The straight-line body of `IQRDetector.Score` after its reads. */
  method IqrScore(amounts: seq<real>, popQ1: real, popQ3: real, amount: real) returns (score: real)
    ensures score == Iqr(amounts, Quartiles(popQ1, popQ3), amount)
  {
    var n := |amounts|;
    if n < MIN_HISTORY && popQ1 == 0.0 && popQ3 == 0.0 {
      return 0.0;
    }
    var alpha := n as real / 5.0;
    if alpha > 1.0 {
      alpha := 1.0;
    }
    var userQ1, userQ3 := 0.0, 0.0;
    if n > 0 {
      var sorted := Sort(amounts);
      userQ1 := Quantile(0.25, sorted);
      userQ3 := Quantile(0.75, sorted);
    }
    var q := Quartiles(Blend(alpha, userQ1, popQ1), Blend(alpha, userQ3, popQ3));
    assert q == BlendedQuartiles(amounts, Quartiles(popQ1, popQ3));
    score := FenceScore(q, amount);
  }
}

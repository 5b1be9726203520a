/** The log-odds combiner (internal/detector/detector.go), computed as in the
    source with logarithms and an exponential, and the exact power inequality its
    decisions come down to. */
module Ensemble {
  import opened Exponentials
  import opened Floats
  import opened Models
  import opened Powers
  import opened Selections

  /** Logarithm and exponential, known only by the laws below. */
  datatype Transcendental = Transcendental(ln: real -> real, exp: real -> real) {
    ghost predicate Lawful() {
      && (forall x :: x > 0.0 ==> exp(ln(x)) == x)
      && (forall x, y :: x > 0.0 && y > 0.0 ==> TurnsProductIntoSum(x, y))
      && Positive(exp)
      && Increasing(exp)
    }

    ghost predicate TurnsProductIntoSum(x: real, y: real) {
      ln(x * y) == ln(x) + ln(y)
    }
  }

  const EPSILON: real := 0.000001

  /** Odds of an abstention, 0.1 to 0.9; `abstainLogit` is their logarithm. */
  const ABSTAIN_ODDS: real := 1.0 / 9.0

  function Clamp(s: real): real {
    if s <= EPSILON then EPSILON else if s >= 1.0 - EPSILON then 1.0 - EPSILON else s
  }

  function OddsOf(p: real): (o: real)
    requires 0.0 < p < 1.0
    ensures o > 0.0
  {
    p / (1.0 - p)
  }

  /** The odds a vote stands for. */
  function Odds(s: real): (o: real)
    ensures o > 0.0
  {
    if s <= 0.0 then ABSTAIN_ODDS else OddsOf(Clamp(s))
  }

  /** An abstention counts as one to nine; every other vote as the odds of its own
      probability, kept one millionth away from both ends. */
  lemma OddsOfVote(s: real)
    ensures s <= 0.0 ==> 9.0 * Odds(s) == 1.0
    ensures 0.0 < s <= 0.000001 ==> 999999.0 * Odds(s) == 1.0
    ensures 0.000001 <= s <= 0.999999 ==> Odds(s) * (1.0 - s) == s
    ensures s >= 0.999999 ==> Odds(s) == 999999.0
  {
  }

  function Logit(tr: Transcendental, s: real): real {
    tr.ln(Odds(s))
  }

  function WeightSum(weights: seq<real>): real {
    if |weights| == 0 then 0.0
    else WeightSum(weights[..|weights| - 1]) + Kept(weights[|weights| - 1])
  }

  function Kept(w: real): real {
    if w <= 0.0 then 0.0 else w
  }

  /** A weight that is not positive leaves its detector out. */
  function Contribution(w: real, x: real): real {
    if w <= 0.0 then 0.0 else Mul(w, x)
  }

  function WeightedLogit(tr: Transcendental, votes: seq<real>, weights: seq<real>): real
    requires |votes| == |weights|
  {
    if |votes| == 0 then 0.0
    else
      var n := |votes| - 1;
      WeightedLogit(tr, votes[..n], weights[..n]) + Contribution(weights[n], Logit(tr, votes[n]))
  }

  function ToUnitInterval(x: real): real {
    if x > 1.0 then 1.0 else if x < 0.0 then 0.0 else x
  }

  /** The probability with log-odds `z`. */
  function FromLogit(tr: Transcendental, z: real): (p: real)
    requires tr.exp(-z) > 0.0
    ensures 0.0 < p < 1.0
  {
    Logistic(tr.exp(-z))
  }

  function Combined(tr: Transcendental, votes: seq<real>, weights: seq<real>): real
    requires tr.Lawful() && |votes| == |weights|
  {
    if WeightSum(weights) > 0.0 then
      ToUnitInterval(FromLogit(tr, WeightedLogit(tr, votes, weights) / WeightSum(weights)))
    else 0.0
  }

  // ----- Votes that may not be numbers ------------------------------------------------

  /** A vote that counts and is not a number. */
  predicate Spoiled(votes: seq<Float>, weights: seq<real>)
    requires |votes| == |weights|
  {
    exists i :: 0 <= i < |votes| && weights[i] > 0.0 && votes[i].None?
  }

  function Value(vote: Float): real {
    if vote.Some? then vote.value else 0.0
  }

  function Values(votes: seq<Float>): (r: seq<real>)
    ensures |r| == |votes|
  {
    seq(|votes|, i requires 0 <= i < |votes| => Value(votes[i]))
  }

  /** One vote that is not a number leaves the whole ensemble without one. */
  function CombinedScore(tr: Transcendental, votes: seq<Float>, weights: seq<real>): Float
    requires tr.Lawful() && |votes| == |weights|
  {
    if Spoiled(votes, weights) then None else Some(Combined(tr, Values(votes), weights))
  }

  /** What a vote adds to the sum: an abstention adds its log-odds, and what is not a
      number does not count as an abstention. */
  function VoteLogit(tr: Transcendental, vote: Float): Float {
    if vote.None? then None else Some(Logit(tr, vote.value))
  }

  /** The positions that voted and did not abstain, in order. */
  function FiredAt(votes: seq<Float>, weights: seq<real>): seq<nat>
    requires |votes| == |weights|
  {
    if |votes| == 0 then []
    else
      var n := |votes| - 1;
      var front := FiredAt(votes[..n], weights[..n]);
      if weights[n] > 0.0 && (votes[n].None? || votes[n].value > 0.0) then front + [n] else front
  }

  predicate Fires(votes: seq<Float>, weights: seq<real>, i: nat)
    requires |votes| == |weights|
  {
    i < |votes| && weights[i] > 0.0 && (votes[i].None? || votes[i].value > 0.0)
  }

  /** A detector is named among those that fired exactly when its weight is positive and
      its vote is neither zero nor below; the names come in ensemble order. */
  lemma {:induction false} FiredAtIff(votes: seq<Float>, weights: seq<real>)
    requires |votes| == |weights|
    ensures forall i: nat :: i in FiredAt(votes, weights) <==> Fires(votes, weights, i)
    ensures Rising(FiredAt(votes, weights))
  {
    if |votes| == 0 {
    } else {
      var n := |votes| - 1;
      var front := FiredAt(votes[..n], weights[..n]);
      FiredAtIff(votes[..n], weights[..n]);
      forall k | 0 <= k < |front|
        ensures front[k] < n
      {
        assert front[k] in front && Fires(votes[..n], weights[..n], front[k]);
      }
      forall i: nat
        ensures i in FiredAt(votes, weights) <==> Fires(votes, weights, i)
      {
        assert i in front <==> Fires(votes[..n], weights[..n], i);
      }
    }
  }

  function SumSoFar(tr: Transcendental, votes: seq<Float>, weights: seq<real>): Float
    requires |votes| == |weights|
  {
    if Spoiled(votes, weights) then None else Some(WeightedLogit(tr, Values(votes), weights))
  }

  lemma OneMoreVote(tr: Transcendental, votes: seq<Float>, weights: seq<real>, i: nat)
    requires |votes| == |weights| && i < |votes|
    ensures weights[i] > 0.0 ==>
      SumSoFar(tr, votes[..i + 1], weights[..i + 1])
        == Plus(SumSoFar(tr, votes[..i], weights[..i]), Times(Some(weights[i]), VoteLogit(tr, votes[i])))
    ensures weights[i] <= 0.0 ==>
      SumSoFar(tr, votes[..i + 1], weights[..i + 1]) == SumSoFar(tr, votes[..i], weights[..i])
    ensures WeightSum(weights[..i + 1]) == WeightSum(weights[..i]) + Kept(weights[i])
    ensures FiredAt(votes[..i + 1], weights[..i + 1])
         == FiredAt(votes[..i], weights[..i]) + if Fires(votes, weights, i) then [i] else []
  {
    var v, w := votes[..i + 1], weights[..i + 1];
    assert v[..i] == votes[..i] && w[..i] == weights[..i];
    assert Values(v)[..i] == Values(v[..i]);
  }

  lemma {:induction false} WeightSumSign(weights: seq<real>)
    ensures WeightSum(weights) >= 0.0
    ensures WeightSum(weights) > 0.0 <==> exists i :: 0 <= i < |weights| && weights[i] > 0.0
  {
    if |weights| == 0 {
    } else {
      var n := |weights| - 1;
      WeightSumSign(weights[..n]);
      if i :| 0 <= i < n && weights[i] > 0.0 {
        assert weights[..n][i] > 0.0;
      }
    }
  }

  /** Without a positive weight there is nothing to combine. */
  lemma NoWeightNoScore(tr: Transcendental, votes: seq<Float>, weights: seq<real>)
    requires tr.Lawful() && |votes| == |weights| && forall i :: 0 <= i < |weights| ==> weights[i] <= 0.0
    ensures CombinedScore(tr, votes, weights) == Some(0.0)
  {
    WeightSumSign(weights);
  }

  method SumVotes(tr: Transcendental, votes: seq<Float>, weights: seq<real>)
    returns (weightedLogit: Float, weightSum: real, fired: seq<nat>)
    requires |votes| == |weights|
    ensures weightedLogit == SumSoFar(tr, votes, weights)
    ensures weightSum == WeightSum(weights)
    ensures fired == FiredAt(votes, weights)
  {
    weightedLogit, weightSum, fired := Some(0.0), 0.0, [];
    for i := 0 to |votes|
      invariant weightedLogit == SumSoFar(tr, votes[..i], weights[..i])
      invariant weightSum == WeightSum(weights[..i])
      invariant fired == FiredAt(votes[..i], weights[..i])
    {
      OneMoreVote(tr, votes, weights, i);
      var w := weights[i];
      if w > 0.0 {
        weightSum := weightSum + w;
        if votes[i].Some? && votes[i].value <= 0.0 {
          assert VoteLogit(tr, votes[i]) == Some(tr.ln(ABSTAIN_ODDS));
          weightedLogit := Plus(weightedLogit, Times(Some(w), Some(tr.ln(ABSTAIN_ODDS))));
        } else {
          weightedLogit := Plus(weightedLogit, Times(Some(w), VoteLogit(tr, votes[i])));
          fired := fired + [i];
        }
      }
    }
    assert votes[..|votes|] == votes && weights[..|weights|] == weights;
  }

  /** The ensemble over the votes its detectors cast, with the positions that fired. */
  method Score(tr: Transcendental, votes: seq<Float>, weights: seq<real>) returns (risk: RiskScore, fired: seq<nat>)
    requires tr.Lawful() && |votes| == |weights|
    ensures risk.score == CombinedScore(tr, votes, weights)
    ensures risk.severity == SeverityFromScore(risk.score)
    ensures fired == FiredAt(votes, weights)
  {
    var weightedLogit, weightSum;
    weightedLogit, weightSum, fired := SumVotes(tr, votes, weights);
    WeightSumSign(weights);
    var combined := Some(0.0);
    if weightSum > 0.0 {
      var z := Over(weightedLogit, Some(weightSum));
      combined := if z.None? then None else Some(FromLogit(tr, z.value));
    }
    if combined.Some? {
      combined := Some(ToUnitInterval(combined.value));
    }
    risk := RiskScore(combined, SeverityFromScore(combined));
  }

  // ----- Laws of the logarithm ------------------------------------------------------

  lemma LnOrder(tr: Transcendental, x: real, y: real)
    requires tr.Lawful() && x > 0.0 && y > 0.0
    ensures tr.ln(x) <= tr.ln(y) <==> x <= y
  {
    assert tr.exp(tr.ln(x)) == x && tr.exp(tr.ln(y)) == y;
  }

  lemma LnProduct(tr: Transcendental, x: real, y: real, p: real)
    requires tr.Lawful() && x > 0.0 && y > 0.0 && p == x * y
    ensures tr.ln(p) == tr.ln(x) + tr.ln(y)
  {
    assert tr.TurnsProductIntoSum(x, y);
  }

  lemma LnOne(tr: Transcendental)
    requires tr.Lawful()
    ensures tr.ln(1.0) == 0.0
  {
    LnProduct(tr, 1.0, 1.0, 1.0);
  }

  lemma LnInverse(tr: Transcendental, x: real)
    requires tr.Lawful() && x > 0.0
    ensures tr.ln(1.0 / x) == -tr.ln(x)
  {
    LnOne(tr);
    LnProduct(tr, x, 1.0 / x, 1.0);
  }

  lemma {:induction false} LnPow(tr: Transcendental, x: real, n: nat)
    requires tr.Lawful() && x > 0.0
    ensures tr.ln(Pow(x, n)) == Multiple(n, tr.ln(x))
  {
    if n == 0 {
      LnOne(tr);
    } else {
      LnPow(tr, x, n - 1);
      PowPositive(x, n - 1);
      LnProduct(tr, x, Pow(x, n - 1), Pow(x, n));
    }
  }

  function Multiple(n: nat, x: real): real {
    n as real * x
  }

  // ----- The exact test --------------------------------------------------------------

  /** The product of the vote odds raised to their integer weights. */
  function Product(votes: seq<real>, w: seq<nat>): real
    requires |votes| == |w|
  {
    if |votes| == 0 then 1.0
    else WithVote(Product(votes[..|votes| - 1], w[..|w| - 1]), Odds(votes[|votes| - 1]), w[|w| - 1])
  }

  function WithVote(p: real, odds: real, weight: nat): real {
    p * Pow(odds, weight)
  }

  function Total(w: seq<nat>): nat {
    if |w| == 0 then 0 else Total(w[..|w| - 1]) + w[|w| - 1]
  }

  function Hundredth(n: nat): real {
    n as real / 100.0
  }

  function Hundredths(w: seq<nat>): (r: seq<real>)
    ensures |r| == |w|
  {
    if |w| == 0 then [] else Hundredths(w[..|w| - 1]) + [Hundredth(w[|w| - 1])]
  }

  lemma {:induction false} ProductPositive(votes: seq<real>, w: seq<nat>)
    requires |votes| == |w|
    ensures Product(votes, w) > 0.0
  {
    if |votes| == 0 {
    } else {
      var n := |votes| - 1;
      ProductPositive(votes[..n], w[..n]);
      PowPositive(Odds(votes[n]), w[n]);
      MulLt(0.0, Product(votes[..n], w[..n]), Pow(Odds(votes[n]), w[n]));
    }
  }

  lemma {:induction false} WeightSumIsTotal(w: seq<nat>)
    ensures WeightSum(Hundredths(w)) == Hundredth(Total(w))
  {
    if |w| == 0 {
    } else {
      var n := |w| - 1;
      WeightSumIsTotal(w[..n]);
      assert Hundredths(w)[..n] == Hundredths(w[..n]);
    }
  }

  lemma {:induction false} WeightedLogitIsLogProduct(tr: Transcendental, votes: seq<real>, w: seq<nat>)
    requires tr.Lawful() && |votes| == |w|
    ensures WeightedLogit(tr, votes, Hundredths(w)) == tr.ln(Product(votes, w)) / 100.0
  {
    if |votes| == 0 {
      LnOne(tr);
    } else {
      var n := |votes| - 1;
      WeightedLogitIsLogProduct(tr, votes[..n], w[..n]);
      assert Hundredths(w)[..n] == Hundredths(w[..n]) && Hundredths(w)[n] == Hundredth(w[n]);
      ProductPositive(votes[..n], w[..n]);
      var front, o := Product(votes[..n], w[..n]), Odds(votes[n]);
      AccumulateLog(tr, front, o, w[n]);
      assert Product(votes, w) == WithVote(front, o, w[n]);
      assert WeightedLogit(tr, votes, Hundredths(w)) ==
             WeightedLogit(tr, votes[..n], Hundredths(w[..n])) + Contribution(Hundredth(w[n]), tr.ln(o));
    }
  }

  lemma AccumulateLog(tr: Transcendental, p: real, o: real, n: nat)
    requires tr.Lawful() && p > 0.0 && o > 0.0
    ensures tr.ln(p) / 100.0 + Contribution(Hundredth(n), tr.ln(o)) == tr.ln(WithVote(p, o, n)) / 100.0
  {
    LnPow(tr, o, n);
    PowPositive(o, n);
    LnProduct(tr, p, Pow(o, n), WithVote(p, o, n));
    ContributionOf(n, tr.ln(o));
  }

  lemma ContributionOf(n: nat, l: real)
    ensures Contribution(Hundredth(n), l) == Multiple(n, l) / 100.0
  {
    var m := n as real;
    assert (m / 100.0) * l == (m * l) / 100.0;
  }

  /** The logistic crosses a level exactly where its argument crosses the level's
      log-odds. */
  lemma LogisticCrosses(tr: Transcendental, z: real, level: real)
    requires tr.Lawful() && 0.0 < level < 1.0
    ensures FromLogit(tr, z) >= level <==> z >= tr.ln(OddsOf(level))
    ensures FromLogit(tr, z) <= level <==> z <= tr.ln(OddsOf(level))
  {
    var t, e := OddsOf(level), tr.exp(-z);
    LnInverse(tr, t);
    assert tr.exp(tr.ln(1.0 / t)) == 1.0 / t;
    LevelInOdds(e, level);
  }

  lemma LevelInOdds(e: real, level: real)
    requires e > 0.0 && 0.0 < level < 1.0
    ensures 1.0 / (1.0 + e) >= level <==> e <= 1.0 / OddsOf(level)
    ensures 1.0 / (1.0 + e) <= level <==> e >= 1.0 / OddsOf(level)
  {
    var p, t := 1.0 / (1.0 + e), OddsOf(level);
    var u := 1.0 / t;
    assert p * (1.0 + e) == 1.0;
    assert t * (1.0 - level) == level && u * t == 1.0;
    assert u * level == 1.0 - level by {
      assert u * (t * (1.0 - level)) == (u * t) * (1.0 - level);
    }
    var f := level * (1.0 + u);
    assert f == 1.0;
    CrossProducts(p, 1.0 + e, level, 1.0 + u);
  }

  /** Two positive factorisations of 1 order their factors oppositely. */
  lemma CrossProducts(a: real, b: real, c: real, d: real)
    requires a > 0.0 && b > 0.0 && c > 0.0 && d > 0.0 && a * b == 1.0 && c * d == 1.0
    ensures a >= c <==> b <= d
    ensures a <= c <==> b >= d
  {
    if a > c && b >= d {
      ProductsDiffer(c, a, d, b);
      assert false;
    }
    if a < c && b <= d {
      ProductsDiffer(a, c, b, d);
      assert false;
    }
    if a == c {
      SameFactor(a, b, d);
    }
  }

  lemma ProductsDiffer(a: real, c: real, b: real, d: real)
    requires 0.0 < a < c && 0.0 < b <= d
    ensures a * b < c * d
  {
    MulLt(a, c, b);
    MulLe(b, d, c);
    var x, y, z := a * b, c * b, c * d;
    assert x < y && y <= z;
  }

  lemma SameFactor(a: real, b: real, d: real)
    requires a > 0.0 && a * b == a * d
    ensures b == d
  {
    if b < d {
      MulLt(b, d, a);
    } else if d < b {
      MulLt(d, b, a);
    }
  }

  /** The logarithms are gone: the combined score is at or above a level exactly when
      the product of the weighted vote odds is at or above the level's odds to the
      total weight, and likewise below. */
  lemma ExactTest(tr: Transcendental, votes: seq<real>, w: seq<nat>, level: real)
    requires tr.Lawful() && |votes| == |w| && Total(w) > 0 && 0.0 < level < 1.0
    ensures Combined(tr, votes, Hundredths(w)) >= level <==> Product(votes, w) >= Pow(OddsOf(level), Total(w))
    ensures Combined(tr, votes, Hundredths(w)) <= level <==> Product(votes, w) <= Pow(OddsOf(level), Total(w))
  {
    var z := CombinedArgument(tr, votes, w);
    LogisticCrosses(tr, z, level);
    ProductPositive(votes, w);
    LogPowerTest(tr, Product(votes, w), OddsOf(level), Total(w), z);
  }

  lemma CombinedArgument(tr: Transcendental, votes: seq<real>, w: seq<nat>) returns (z: real)
    requires tr.Lawful() && |votes| == |w| && Total(w) > 0
    ensures Combined(tr, votes, Hundredths(w)) == FromLogit(tr, z)
    ensures Multiple(Total(w), z) == tr.ln(Product(votes, w))
  {
    WeightSumIsTotal(w);
    WeightedLogitIsLogProduct(tr, votes, w);
    z := MeanOfHundredths(tr.ln(Product(votes, w)), Total(w),
      WeightedLogit(tr, votes, Hundredths(w)), WeightSum(Hundredths(w)));
  }

  lemma LogPowerTest(tr: Transcendental, p: real, t: real, k: nat, z: real)
    requires tr.Lawful() && p > 0.0 && t > 0.0 && k > 0 && Multiple(k, z) == tr.ln(p)
    ensures z >= tr.ln(t) <==> p >= Pow(t, k)
    ensures z <= tr.ln(t) <==> p <= Pow(t, k)
  {
    PowPositive(t, k);
    LnPow(tr, t, k);
    LnOrder(tr, p, Pow(t, k));
    LnOrder(tr, Pow(t, k), p);
    ScaleOrder(z, tr.ln(t), k);
  }

  lemma MeanOfHundredths(l: real, k: nat, num: real, den: real) returns (z: real)
    requires k > 0 && num == l / 100.0 && den == Hundredth(k)
    ensures den > 0.0 && z == num / den && Multiple(k, z) == l
  {
    z := num / den;
    assert z * den == num;
    assert den * 100.0 == k as real;
    assert Multiple(k, z) == (z * den) * 100.0;
  }

  lemma ScaleOrder(x: real, y: real, k: nat)
    requires k > 0
    ensures x >= y <==> Multiple(k, x) >= Multiple(k, y)
    ensures x <= y <==> Multiple(k, x) <= Multiple(k, y)
  {
    var c := k as real;
    assert Multiple(k, x) == x * c && Multiple(k, y) == y * c;
    if x < y {
      MulLt(x, y, c);
    } else if x > y {
      MulLt(y, x, c);
    }
  }
}

/** Sample statistics as the detectors use them. The statistics library itself is
    not part of the repository; `Quantile` is its linear interpolation at rank
    p * n, and the square root enters as a parameter. */
module Statistics {
  import opened Models
  import opened Powers
  import opened RealSums
  import opened Selections

  function Identity(): real -> real {
    x => x
  }

  function Mean(xs: seq<real>): real
    requires |xs| > 0
  {
    SumBy(Identity(), xs) / |xs| as real
  }

  function SquaredFrom(m: real): real -> real {
    x => (x - m) * (x - m)
  }

  type SquareRoot = f: real -> real | forall v :: v >= 0.0 ==> f(v) >= 0.0
    witness v => if v >= 0.0 then v else 0.0

  /** The sample deviation divides by n - 1: for a single value it is undefined. */
  function StdDev(sqrt: SquareRoot, xs: seq<real>): (d: Option<real>)
    ensures d.Some? <==> |xs| >= 2
    ensures d.Some? ==> d.value >= 0.0
  {
    if |xs| < 2 then None
    else
      SquaresAddUp(Mean(xs), xs);
      Some(sqrt(SumBy(SquaredFrom(Mean(xs)), xs) / (|xs| - 1) as real))
  }

  lemma {:induction false} SquaresAddUp(m: real, xs: seq<real>)
    ensures SumBy(SquaredFrom(m), xs) >= 0.0
  {
    if |xs| == 0 {
    } else {
      SquaresAddUp(m, xs[..|xs| - 1]);
      SquareNonNegative(xs[|xs| - 1] - m);
    }
  }

  lemma SquareNonNegative(d: real)
    ensures d * d >= 0.0
  {
  }

  ghost predicate IsRoot(sqrt: SquareRoot) {
    forall v :: v >= 0.0 ==> Squares(sqrt(v), v)
  }

  predicate Squares(root: real, v: real) {
    root * root == v
  }

  lemma {:induction false} SumBetween(xs: seq<real>, lo: real, hi: real)
    requires forall i :: 0 <= i < |xs| ==> lo <= xs[i] <= hi
    ensures Repeated(|xs|, lo) <= SumBy(Identity(), xs) <= Repeated(|xs|, hi)
  {
    if |xs| == 0 {
      RepeatMore(0, lo);
      RepeatMore(0, hi);
    } else {
      SumBetween(xs[..|xs| - 1], lo, hi);
      RepeatMore(|xs| - 1, lo);
      RepeatMore(|xs| - 1, hi);
    }
  }

  function Repeated(n: nat, x: real): real {
    n as real * x
  }

  lemma RepeatMore(n: nat, x: real)
    ensures Repeated(n + 1, x) == Repeated(n, x) + x && Repeated(0, x) == 0.0
  {
  }

  lemma QuotientBetween(s: real, n: nat, lo: real, hi: real)
    requires n > 0 && Repeated(n, lo) <= s <= Repeated(n, hi)
    ensures lo <= s / n as real <= hi
  {
    var q, k := s / n as real, n as real;
    assert q * k == s && Repeated(n, lo) == lo * k && Repeated(n, hi) == hi * k;
    if q < lo {
      MulLt(q, lo, k);
    }
    if hi < q {
      MulLt(hi, q, k);
    }
  }

  /** The mean lies between any bounds of the values. */
  lemma MeanBetween(xs: seq<real>, lo: real, hi: real)
    requires |xs| > 0 && forall i :: 0 <= i < |xs| ==> lo <= xs[i] <= hi
    ensures lo <= Mean(xs) <= hi
  {
    SumBetween(xs, lo, hi);
    QuotientBetween(SumBy(Identity(), xs), |xs|, lo, hi);
  }

  /** As many times the mean as there are values is their sum. */
  lemma MeanTimesCount(xs: seq<real>)
    requires |xs| > 0
    ensures |xs| as real * Mean(xs) == SumBy(Identity(), xs)
    ensures Repeated(|xs|, Mean(xs)) == SumBy(Identity(), xs)
  {
  }

  function Square(): real -> real {
    x => x * x
  }

  /** Squares taken from `m`, by the plain sums. */
  lemma {:induction false} SquaresExpand(m: real, xs: seq<real>)
    ensures SumBy(SquaredFrom(m), xs)
         == SumBy(Square(), xs) - Mul(2.0 * m, SumBy(Identity(), xs)) + Repeated(|xs|, m * m)
  {
    if |xs| == 0 {
      RepeatMore(0, m * m);
      assert Mul(2.0 * m, 0.0) == 0.0;
    } else {
      var n := |xs| - 1;
      SquaresExpand(m, xs[..n]);
      RepeatMore(n, m * m);
      ExpandOne(m, xs[n], SumBy(Identity(), xs[..n]));
    }
  }

  lemma ExpandOne(m: real, x: real, sum: real)
    ensures (x - m) * (x - m) == x * x - 2.0 * m * x + m * m
    ensures Mul(2.0 * m, sum + x) == Mul(2.0 * m, sum) + 2.0 * m * x
  {
  }

  lemma DeviationRoot(sqrt: SquareRoot, xs: seq<real>) returns (v: real)
    requires IsRoot(sqrt) && |xs| >= 2
    ensures v == SumBy(SquaredFrom(Mean(xs)), xs) / (|xs| - 1) as real
    ensures Squares(StdDev(sqrt, xs).value, v)
  {
    SquaresAddUp(Mean(xs), xs);
    v := SumBy(SquaredFrom(Mean(xs)), xs) / (|xs| - 1) as real;
    QuotientNonNegative(SumBy(SquaredFrom(Mean(xs)), xs), (|xs| - 1) as real);
  }

  predicate Expanded(n: nat, m: real, sum: real, squares: real, ss: real) {
    Repeated(n, m) == sum && ss == squares - Mul(2.0 * m, sum) + Repeated(n, m * m)
  }

  lemma SquaresFromMean(xs: seq<real>, m: real)
    requires |xs| > 0 && m == Mean(xs)
    ensures Expanded(|xs|, m, SumBy(Identity(), xs), SumBy(Square(), xs), SumBy(SquaredFrom(m), xs))
  {
    MeanTimesCount(xs);
    SquaresExpand(m, xs);
  }

  /** n (n - 1) v is n times the sum of the squares less the square of the sum. */
  predicate VarianceFromSums(n: real, v: real, sum: real, squares: real) {
    n * (n - 1.0) * v == n * squares - sum * sum
  }

  predicate IsDeviation(xs: seq<real>, d: real) {
    d >= 0.0 && VarianceFromSums(|xs| as real, d * d, SumBy(Identity(), xs), SumBy(Square(), xs))
  }

  /** The deviation by the plain sums of values and squares, dividing by n - 1. */
  lemma DeviationFromSums(sqrt: SquareRoot, xs: seq<real>)
    requires IsRoot(sqrt) && |xs| >= 2
    ensures IsDeviation(xs, StdDev(sqrt, xs).value)
  {
    var v := DeviationRoot(sqrt, xs);
    SumsOfVariance(xs, v);
  }

  lemma SumsOfVariance(xs: seq<real>, v: real)
    requires |xs| >= 2 && v == SumBy(SquaredFrom(Mean(xs)), xs) / (|xs| - 1) as real
    ensures VarianceFromSums(|xs| as real, v, SumBy(Identity(), xs), SumBy(Square(), xs))
  {
    SquaresFromMean(xs, Mean(xs));
    SumsOfSquares(|xs|, Mean(xs), SumBy(Identity(), xs), SumBy(Square(), xs),
      SumBy(SquaredFrom(Mean(xs)), xs), (|xs| - 1) as real, v);
  }

  lemma SumsOfSquares(count: nat, m: real, sum: real, squares: real, ss: real, k: real, v: real)
    requires k > 0.0 && count as real == k + 1.0 && v == ss / k && Expanded(count, m, sum, squares, ss)
    ensures VarianceFromSums(count as real, v, sum, squares)
  {
    var n := count as real;
    assert v * k == ss;
    assert n * k * v == n * ss;
    assert n * (2.0 * m * sum) == 2.0 * (n * m) * sum;
    assert n * (n * (m * m)) == (n * m) * (n * m);
  }

  lemma QuotientTimes(a: real, b: real)
    requires b > 0.0
    ensures Mul(a / b, b) == a
  {
  }

  lemma QuotientNonNegative(a: real, b: real)
    requires a >= 0.0 && b > 0.0
    ensures a / b >= 0.0
  {
  }

  lemma {:induction false} SquaresVanishIff(m: real, xs: seq<real>)
    ensures SumBy(SquaredFrom(m), xs) == 0.0 <==> AllAre(xs, m)
  {
    if |xs| == 0 {
    } else {
      var n := |xs| - 1;
      var front, term := SumBy(SquaredFrom(m), xs[..n]), (xs[n] - m) * (xs[n] - m);
      SquaresVanishIff(m, xs[..n]);
      SquaresAddUp(m, xs[..n]);
      SquareVanishesIff(xs[n] - m);
      assert front >= 0.0 && term >= 0.0 && (term == 0.0 <==> xs[n] == m);
      assert SumBy(SquaredFrom(m), xs) == front + term;
      if AllAre(xs[..n], m) && xs[n] == m {
        assert forall i :: 0 <= i < n ==> xs[i] == xs[..n][i];
      }
    }
  }

  predicate AllAre(xs: seq<real>, x: real) {
    forall i :: 0 <= i < |xs| ==> xs[i] == x
  }

  lemma SquareVanishesIff(d: real)
    ensures d * d >= 0.0 && (d * d == 0.0 <==> d == 0.0)
  {
    if d > 0.0 {
      MulPositive(d, d, d * d);
    } else if d < 0.0 {
      MulPositive(-d, -d, d * d);
    }
  }

  /** The sample deviation is zero exactly when all values are equal. */
  lemma NoSpreadIff(sqrt: SquareRoot, xs: seq<real>)
    requires IsRoot(sqrt) && |xs| >= 2
    ensures StdDev(sqrt, xs).value == 0.0 <==> AllAre(xs, xs[0])
  {
    var m, s, n := Mean(xs), SumBy(SquaredFrom(Mean(xs)), xs), (|xs| - 1) as real;
    SquaresAddUp(m, xs);
    RootVanishesIff(sqrt, s, n);
    SquaresVanishIff(m, xs);
    if AllAre(xs, xs[0]) {
      MeanBetween(xs, xs[0], xs[0]);
    }
  }

  lemma RootVanishesIff(sqrt: SquareRoot, s: real, n: real)
    requires IsRoot(sqrt) && s >= 0.0 && n > 0.0
    ensures s / n >= 0.0 && (sqrt(s / n) == 0.0 <==> s == 0.0)
  {
    var v := s / n;
    assert Squares(sqrt(v), v);
    SquareVanishesIff(sqrt(v));
  }

  lemma MeanIgnoresOrder(xs: seq<real>, ys: seq<real>)
    requires multiset(xs) == multiset(ys)
    ensures |xs| == |ys| && (|xs| > 0 ==> Mean(xs) == Mean(ys))
  {
    SumByPermutes(Identity(), xs, ys);
  }

  lemma StdDevIgnoresOrder(sqrt: SquareRoot, xs: seq<real>, ys: seq<real>)
    requires multiset(xs) == multiset(ys)
    ensures StdDev(sqrt, xs) == StdDev(sqrt, ys)
  {
    MeanIgnoresOrder(xs, ys);
    if |xs| >= 2 {
      SumByPermutes(SquaredFrom(Mean(xs)), xs, ys);
    }
  }

  /** The first index i >= start with i + 1 >= rank decides; the value interpolates
      between it and its predecessor. */
  function Interpolate(xs: seq<real>, rank: real, i: nat): real
    requires i < |xs| && rank <= |xs| as real
    decreases |xs| - i
  {
    if (i + 1) as real >= rank then
      if i == 0 then xs[0] else Between(xs[i - 1], xs[i], (i + 1) as real - rank)
    else Interpolate(xs, rank, i + 1)
  }

  function Between(lo: real, hi: real, t: real): real {
    t * lo + (1.0 - t) * hi
  }

  function Quantile(p: real, xs: seq<real>): real
    requires |xs| > 0 && 0.0 <= p <= 1.0
  {
    RankInRange(p, |xs|);
    Interpolate(xs, QuantileRank(p, |xs|), 0)
  }

  function QuantileRank(p: real, n: nat): real {
    p * n as real
  }

  lemma RankInRange(p: real, n: nat)
    requires 0.0 <= p <= 1.0
    ensures 0.0 <= QuantileRank(p, n) <= n as real
  {
    Shrinks(n as real, p);
    var r := n as real * p;
    assert QuantileRank(p, n) == r;
  }

  lemma RankOrder(p: real, q: real, n: nat)
    requires p <= q
    ensures QuantileRank(p, n) <= QuantileRank(q, n)
  {
    MulLe(p, q, n as real);
  }

  lemma BetweenBounds(lo: real, hi: real, t: real)
    requires lo <= hi && 0.0 <= t <= 1.0
    ensures lo <= Between(lo, hi, t) <= hi
  {
    BetweenAsDrop(lo, hi, t);
    DropBounds(hi - lo, t);
  }

  lemma DropBounds(width: real, t: real)
    requires width >= 0.0 && 0.0 <= t <= 1.0
    ensures 0.0 <= Drop(width, t) <= width
  {
    Shrinks(width, t);
  }

  function Drop(width: real, t: real): real {
    width * t
  }

  lemma BetweenAsDrop(lo: real, hi: real, t: real)
    ensures Between(lo, hi, t) == hi - Drop(hi - lo, t)
  {
  }

  lemma BetweenOrder(lo: real, hi: real, t: real, u: real)
    requires lo <= hi && t >= u
    ensures Between(lo, hi, t) <= Between(lo, hi, u)
  {
    BetweenAsDrop(lo, hi, t);
    BetweenAsDrop(lo, hi, u);
    MulLe(u, t, hi - lo);
    assert u * (hi - lo) == Drop(hi - lo, u) && t * (hi - lo) == Drop(hi - lo, t);
  }

  lemma {:induction false} InterpolateAbove(xs: seq<real>, rank: real, i: nat)
    requires Sorted(xs) && 0 < i < |xs| && i as real < rank <= |xs| as real
    ensures Interpolate(xs, rank, i) >= xs[i - 1]
    decreases |xs| - i
  {
    if (i + 1) as real >= rank {
      BetweenBounds(xs[i - 1], xs[i], (i + 1) as real - rank);
    } else {
      InterpolateAbove(xs, rank, i + 1);
    }
  }

  lemma {:induction false} InterpolateMonotone(xs: seq<real>, r: real, s: real, i: nat)
    requires Sorted(xs) && i < |xs| && r <= s <= |xs| as real
    requires i == 0 || i as real < r
    ensures Interpolate(xs, r, i) <= Interpolate(xs, s, i)
    decreases |xs| - i
  {
    if (i + 1) as real < r {
      InterpolateMonotone(xs, r, s, i + 1);
    } else if (i + 1) as real >= s {
      if i > 0 {
        BetweenOrder(xs[i - 1], xs[i], (i + 1) as real - r, (i + 1) as real - s);
      }
    } else {
      InterpolateAbove(xs, s, i + 1);
      if i > 0 {
        BetweenBounds(xs[i - 1], xs[i], (i + 1) as real - r);
      }
    }
  }

  /** Quantiles of a sorted sample grow with the level; in particular Q1 <= Q3. */
  lemma QuantileMonotone(p: real, q: real, xs: seq<real>)
    requires |xs| > 0 && Sorted(xs) && 0.0 <= p <= q <= 1.0
    ensures Quantile(p, xs) <= Quantile(q, xs)
  {
    RankInRange(q, |xs|);
    RankOrder(p, q, |xs|);
    InterpolateMonotone(xs, QuantileRank(p, |xs|), QuantileRank(q, |xs|), 0);
  }

  lemma {:induction false} InterpolateFrom(xs: seq<real>, rank: real, i: nat, k: nat)
    requires i <= k < |xs| && k as real < rank <= (k + 1) as real
    ensures Interpolate(xs, rank, i) == if k == 0 then xs[0] else Between(xs[k - 1], xs[k], (k + 1) as real - rank)
    decreases k - i
  {
    if i < k {
      assert ((i + 1) as real) <= k as real;
      InterpolateFrom(xs, rank, i + 1, k);
    }
  }

  /** The quarter levels by whole numbers: with n = 4k + r values in rising order, the
      first quartile lies r quarters of the way from the k-th to the next. */
  predicate AtQuarter(xs: seq<real>, quarter: nat, v: real)
    requires |xs| > 0 && 1 <= quarter <= 3
  {
    var k, r := quarter * |xs| / 4, quarter * |xs| % 4;
    v == if k == 0 then xs[0] else if r == 0 then xs[k - 1] else xs[k - 1] + (r as real / 4.0) * (xs[k] - xs[k - 1])
  }

  lemma QuartileByCount(xs: seq<real>, quarter: nat)
    requires |xs| > 0 && 1 <= quarter <= 3
    ensures 0.0 <= quarter as real / 4.0 <= 1.0
    ensures AtQuarter(xs, quarter, Quantile(quarter as real / 4.0, xs))
  {
    var p, n := quarter as real / 4.0, |xs|;
    var k, r := quarter * n / 4, quarter * n % 4;
    RankInRange(p, n);
    RankOfQuarter(quarter, n);
    var rank := QuantileRank(p, n);
    if r == 0 {
      InterpolateFrom(xs, rank, 0, k - 1);
      if k > 1 {
        BetweenAsDrop(xs[k - 2], xs[k - 1], 0.0);
      }
    } else {
      InterpolateFrom(xs, rank, 0, k);
      if k > 0 {
        BetweenAsRise(xs[k - 1], xs[k], 1.0 - r as real / 4.0);
      }
    }
  }

  lemma BetweenAsRise(lo: real, hi: real, t: real)
    ensures Between(lo, hi, t) == lo + (1.0 - t) * (hi - lo)
  {
  }

  lemma RankOfQuarter(quarter: nat, n: nat)
    requires 1 <= quarter <= 3
    ensures QuantileRank(quarter as real / 4.0, n) == (quarter * n / 4) as real + (quarter * n % 4) as real / 4.0
    ensures quarter * n / 4 <= n && (n > 0 ==> quarter * n / 4 < n)
  {
    var k, r := quarter * n / 4, quarter * n % 4;
    assert 4 * k + r == quarter * n;
    assert (quarter * n) as real == quarter as real * n as real;
    assert 4.0 * k as real + r as real == (quarter * n) as real;
    assert quarter as real / 4.0 * n as real == (quarter as real * n as real) / 4.0;
  }

  /** The extreme levels are the extreme values. */
  lemma {:induction false} InterpolateAtTop(xs: seq<real>, i: nat)
    requires i < |xs|
    ensures Interpolate(xs, |xs| as real, i) == xs[|xs| - 1]
    decreases |xs| - i
  {
    if i + 1 < |xs| {
      InterpolateAtTop(xs, i + 1);
    } else if i > 0 {
      BetweenAsDrop(xs[i - 1], xs[i], 0.0);
      assert Drop(xs[i] - xs[i - 1], 0.0) == 0.0;
    }
  }

  lemma QuantileEnds(xs: seq<real>, p: real)
    requires |xs| > 0 && Sorted(xs) && 0.0 <= p <= 1.0
    ensures Quantile(0.0, xs) == xs[0] && Quantile(1.0, xs) == xs[|xs| - 1]
    ensures xs[0] <= Quantile(p, xs) <= xs[|xs| - 1]
  {
    assert QuantileRank(0.0, |xs|) == 0.0 && QuantileRank(1.0, |xs|) == |xs| as real;
    InterpolateAtTop(xs, 0);
    QuantileMonotone(0.0, p, xs);
    QuantileMonotone(p, 1.0, xs);
  }

  // ----- Blending with the population ----------------------------------------------------

  const MIN_HISTORY: nat := 5

  /** The weight of the user's own statistics. */
  function Alpha(n: nat): (alpha: real)
    ensures 0.0 <= alpha <= 1.0
    ensures alpha == 1.0 <==> n >= MIN_HISTORY
  {
    var alpha := n as real / 5.0;
    if alpha > 1.0 then 1.0 else alpha
  }

  function Blend(alpha: real, user: real, population: real): real {
    Share(alpha, user) + Share(1.0 - alpha, population)
  }

  function Share(share: real, x: real): real {
    share * x
  }

  lemma BlendOrder(alpha: real, u: real, u': real, p: real, p': real)
    requires 0.0 <= alpha <= 1.0 && u <= u' && p <= p'
    ensures Blend(alpha, u, p) <= Blend(alpha, u', p')
  {
    ShareOrder(alpha, u, u');
    ShareOrder(1.0 - alpha, p, p');
  }

  lemma ShareOrder(share: real, x: real, y: real)
    requires share >= 0.0 && x <= y
    ensures Share(share, x) <= Share(share, y)
  {
    MulLe(x, y, share);
  }

  /** A new user is judged by the population alone, one with five amounts by their
      own statistics alone; in between the blend stays between the two. */
  lemma BlendEnds(n: nat, user: real, population: real)
    ensures n == 0 ==> Blend(Alpha(n), user, population) == population
    ensures n >= MIN_HISTORY ==> Blend(Alpha(n), user, population) == user
    ensures user <= population ==> user <= Blend(Alpha(n), user, population) <= population
    ensures population <= user ==> population <= Blend(Alpha(n), user, population) <= user
  {
    BlendOfEqual(Alpha(n), user);
    BlendOfEqual(Alpha(n), population);
    if user <= population {
      BlendOrder(Alpha(n), user, user, user, population);
      BlendOrder(Alpha(n), user, population, population, population);
    } else {
      BlendOrder(Alpha(n), population, user, population, population);
      BlendOrder(Alpha(n), user, user, population, user);
    }
  }

  /** Of five shares the user holds one per amount and the population the rest; from five
      amounts on the user holds all. */
  predicate Shared(n: nat, user: real, population: real, blend: real) {
    if n >= 5 then blend == user else 5.0 * blend == n as real * user + (5 - n) as real * population
  }

  lemma BlendIsShared(n: nat, user: real, population: real)
    ensures Shared(n, user, population, Blend(Alpha(n), user, population))
  {
    if n >= 5 {
      BlendEnds(n, user, population);
    } else {
      var a := n as real / 5.0;
      assert Alpha(n) == a;
      assert 5.0 * (a * user) == n as real * user;
      assert 5.0 * ((1.0 - a) * population) == (5 - n) as real * population;
    }
  }

  lemma BlendOfEqual(alpha: real, x: real)
    ensures Blend(alpha, x, x) == x
  {
    assert alpha * x + (1.0 - alpha) * x == x;
  }

  /** `amountsOfCategory` on one history. */
  function AmountsOf(hist: seq<Transaction>, category: string): seq<real> {
    if |hist| == 0 then []
    else
      var n := |hist| - 1;
      var front := AmountsOf(hist[..n], category);
      if hist[n].category == category then front + [hist[n].amount] else front
  }

  lemma {:induction false} AmountsConcat(a: seq<Transaction>, b: seq<Transaction>, category: string)
    ensures AmountsOf(a + b, category) == AmountsOf(a, category) + AmountsOf(b, category)
  {
    if |b| == 0 {
      assert a + b == a;
    } else {
      AmountsConcat(a, b[..|b| - 1], category);
      assert (a + b)[..|a + b| - 1] == a + b[..|b| - 1];
    }
  }

  predicate InCategory(category: string, h: Transaction) {
    h.category == category
  }

  /** The amounts are those of the history entries in the category, in order. */
  lemma {:induction false} AmountsInOrder(hist: seq<Transaction>, category: string) returns (at: seq<nat>)
    ensures Picks(h => InCategory(category, h), hist, at) && |AmountsOf(hist, category)| == |at|
    ensures forall k :: 0 <= k < |at| ==> at[k] < |hist| && AmountsOf(hist, category)[k] == hist[at[k]].amount
  {
    if |hist| == 0 {
      at := [];
    } else {
      var n := |hist| - 1;
      var front := AmountsInOrder(hist[..n], category);
      at := Extended(InCategory(category, hist[n]), front, n);
      PicksSnoc(h => InCategory(category, h), hist[..n], front, hist[n]);
      assert hist == hist[..n] + [hist[n]];
    }
  }

  method AmountsOfCategory(hist: seq<Transaction>, category: string) returns (out: seq<real>)
    ensures out == AmountsOf(hist, category)
  {
    out := [];
    for i := 0 to |hist|
      invariant out == AmountsOf(hist[..i], category)
    {
      assert hist[..i + 1][..i] == hist[..i];
      if hist[i].category == category {
        out := out + [hist[i].amount];
      }
    }
    assert hist[..|hist|] == hist;
  }
}

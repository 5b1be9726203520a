/** What the exact test says about the ensemble: bounds, monotonicity, and which
    detectors can decide alone. */
module EnsembleFacts {
  import opened Models
  import opened Powers
  import opened Ensemble

  /** The probability a vote counts as. */
  function Prob(s: real): (p: real)
    ensures EPSILON <= p <= 1.0 - EPSILON
  {
    if s <= 0.0 then 0.1 else Clamp(s)
  }

  lemma OddsIncrease(p: real, q: real)
    requires 0.0 < p < q < 1.0
    ensures OddsOf(p) < OddsOf(q)
  {
    var a, b := OddsOf(p), OddsOf(q);
    assert a * (1.0 - p) == p && b * (1.0 - q) == q;
    MulLt(1.0 - q, 1.0 - p, a);
    assert a * (1.0 - q) < p < q;
    if b <= a {
      MulLe(b, a, 1.0 - q);
      assert false;
    }
  }

  lemma OddsOrder(s: real, t: real)
    ensures Odds(s) == OddsOf(Prob(s))
    ensures Odds(s) <= Odds(t) <==> Prob(s) <= Prob(t)
  {
    assert OddsOf(0.1) == ABSTAIN_ODDS;
    if Prob(s) < Prob(t) {
      OddsIncrease(Prob(s), Prob(t));
    } else if Prob(t) < Prob(s) {
      OddsIncrease(Prob(t), Prob(s));
    }
  }

  lemma OddsOrderAt(s: real, p: real)
    requires 0.0 < p < 1.0
    ensures Odds(s) <= OddsOf(p) <==> Prob(s) <= p
    ensures Odds(s) >= OddsOf(p) <==> Prob(s) >= p
  {
    OddsOrder(s, s);
    if Prob(s) < p {
      OddsIncrease(Prob(s), p);
    } else if p < Prob(s) {
      OddsIncrease(p, Prob(s));
    }
  }

  lemma WithVoteMonotone(p: real, p': real, o: real, o': real, n: nat)
    requires 0.0 < p <= p' && 0.0 < o <= o'
    ensures WithVote(p, o, n) <= WithVote(p', o', n)
  {
    PowMonotone(o, o', n);
    ProductLe(p, p', Pow(o, n), Pow(o', n));
  }

  /** Raising votes raises the product. */
  lemma {:induction false} ProductMonotone(votes: seq<real>, votes': seq<real>, w: seq<nat>)
    requires |votes| == |votes'| == |w|
    requires forall i :: 0 <= i < |votes| ==> Prob(votes[i]) <= Prob(votes'[i])
    ensures Product(votes, w) <= Product(votes', w)
  {
    if |votes| == 0 {
    } else {
      var n := |votes| - 1;
      ProductMonotone(votes[..n], votes'[..n], w[..n]);
      ProductPositive(votes[..n], w[..n]);
      OddsOrder(votes[n], votes'[n]);
      WithVoteMonotone(
        Product(votes[..n], w[..n]), Product(votes'[..n], w[..n]), Odds(votes[n]), Odds(votes'[n]), w[n]);
    }
  }

  lemma PowAsVote(t: real, m: nat, n: nat)
    ensures Pow(t, m + n) == WithVote(Pow(t, m), t, n)
  {
    PowAdd(t, m, n);
  }

  lemma SilentVote(p: real, o: real)
    ensures WithVote(p, o, 0) == p
  {
    assert Pow(o, 0) == 1.0;
  }

  lemma {:induction false} ProductLower(votes: seq<real>, w: seq<nat>, t: real)
    requires |votes| == |w| && t > 0.0
    requires forall i :: 0 <= i < |votes| && w[i] > 0 ==> t <= Odds(votes[i])
    ensures Pow(t, Total(w)) <= Product(votes, w)
  {
    if |votes| == 0 {
    } else {
      var n := |votes| - 1;
      ProductLower(votes[..n], w[..n], t);
      PowPositive(t, Total(w[..n]));
      PowAsVote(t, Total(w[..n]), w[n]);
      if w[n] == 0 {
        SilentVote(Pow(t, Total(w[..n])), t);
        SilentVote(Product(votes[..n], w[..n]), Odds(votes[n]));
      } else {
        WithVoteMonotone(Pow(t, Total(w[..n])), Product(votes[..n], w[..n]), t, Odds(votes[n]), w[n]);
      }
    }
  }

  lemma {:induction false} ProductUpper(votes: seq<real>, w: seq<nat>, t: real)
    requires |votes| == |w| && t > 0.0
    requires forall i :: 0 <= i < |votes| && w[i] > 0 ==> Odds(votes[i]) <= t
    ensures Product(votes, w) <= Pow(t, Total(w))
  {
    if |votes| == 0 {
    } else {
      var n := |votes| - 1;
      ProductUpper(votes[..n], w[..n], t);
      ProductPositive(votes[..n], w[..n]);
      PowAsVote(t, Total(w[..n]), w[n]);
      if w[n] == 0 {
        SilentVote(Pow(t, Total(w[..n])), t);
        SilentVote(Product(votes[..n], w[..n]), Odds(votes[n]));
      } else {
        WithVoteMonotone(Product(votes[..n], w[..n]), Pow(t, Total(w[..n])), Odds(votes[n]), t, w[n]);
      }
    }
  }

  lemma CombinedBetweenProbs(tr: Transcendental, votes: seq<real>, w: seq<nat>, lo: real, hi: real)
    requires tr.Lawful() && |votes| == |w| && Total(w) > 0 && 0.0 < lo && hi < 1.0 && lo <= hi
    requires forall i :: 0 <= i < |votes| && w[i] > 0 ==> lo <= Prob(votes[i]) <= hi
    ensures lo <= Combined(tr, votes, Hundredths(w)) <= hi
  {
    forall i | 0 <= i < |votes| && w[i] > 0
      ensures OddsOf(lo) <= Odds(votes[i]) <= OddsOf(hi)
    {
      OddsOrderAt(votes[i], lo);
      OddsOrderAt(votes[i], hi);
    }
    ProductLower(votes, w, OddsOf(lo));
    ProductUpper(votes, w, OddsOf(hi));
    ExactTest(tr, votes, w, lo);
    ExactTest(tr, votes, w, hi);
  }

  /** Away from the two ends a vote stands for itself. */
  predicate Plain(s: real) {
    0.000001 <= s <= 0.999999
  }

  /** The vote, read as a probability, lies within the bounds; an abstention reads 0.1. */
  predicate VoteWithin(s: real, lo: real, hi: real) {
    if s <= 0.0 then lo <= 0.1 <= hi else Plain(s) && lo <= s <= hi
  }

  lemma PlainProb(s: real)
    requires Plain(s)
    ensures Prob(s) == s
  {
  }

  lemma ProbOfVote(s: real)
    ensures s <= 0.0 ==> Prob(s) == 0.1
    ensures Plain(s) ==> Prob(s) == s
    ensures Odds(s) * (1.0 - Prob(s)) == Prob(s)
  {
    OddsOfVote(s);
  }

  /** The combined score is a mean: it lies between the smallest and the largest of the
      votes that carry weight. */
  lemma CombinedBetweenVotes(tr: Transcendental, votes: seq<real>, w: seq<nat>, lo: real, hi: real)
    requires tr.Lawful() && |votes| == |w| && Total(w) > 0 && 0.0 < lo && hi < 1.0 && lo <= hi
    requires forall i :: 0 <= i < |votes| && w[i] > 0 ==> VoteWithin(votes[i], lo, hi)
    ensures lo <= Combined(tr, votes, Hundredths(w)) <= hi
  {
    forall i | 0 <= i < |votes| && w[i] > 0
      ensures lo <= Prob(votes[i]) <= hi
    {
      ProbOfVote(votes[i]);
    }
    CombinedBetweenProbs(tr, votes, w, lo, hi);
  }

  /** Votes that agree are the answer: a single vote with weight, or equal ones, come
      out as they went in. */
  lemma AgreedVoteIsAnswer(tr: Transcendental, votes: seq<real>, w: seq<nat>, s: real)
    requires tr.Lawful() && |votes| == |w| && Total(w) > 0 && Plain(s)
    requires forall i :: 0 <= i < |votes| && w[i] > 0 ==> votes[i] == s
    ensures Combined(tr, votes, Hundredths(w)) == s
  {
    CombinedBetweenVotes(tr, votes, w, s, s);
  }

  /** With nobody firing the ensemble says exactly 0.1. */
  lemma AllAbstainIsOneTenth(tr: Transcendental, votes: seq<real>, w: seq<nat>)
    requires tr.Lawful() && |votes| == |w| && Total(w) > 0
    requires forall i :: 0 <= i < |votes| ==> votes[i] <= 0.0
    ensures Combined(tr, votes, Hundredths(w)) == 0.1
  {
    CombinedBetweenProbs(tr, votes, w, 0.1, 0.1);
  }

  /** Raising any vote never lowers the combined score. */
  lemma CombinedMonotone(tr: Transcendental, votes: seq<real>, votes': seq<real>, w: seq<nat>)
    requires tr.Lawful() && |votes| == |votes'| == |w| && Total(w) > 0
    requires forall i :: 0 <= i < |votes| ==> Prob(votes[i]) <= Prob(votes'[i])
    ensures Combined(tr, votes, Hundredths(w)) <= Combined(tr, votes', Hundredths(w))
  {
    CombinedBetweenProbs(tr, votes, w, EPSILON, 1.0 - EPSILON);
    var level := Combined(tr, votes, Hundredths(w));
    ProductMonotone(votes, votes', w);
    ExactTest(tr, votes, w, level);
    ExactTest(tr, votes', w, level);
  }

  // ----- One vote at a time -------------------------------------------------------------

  /** The factor of one vote split off; weight 0 silences a position. */
  lemma {:induction false} ProductFactor(votes: seq<real>, w: seq<nat>, i: nat)
    requires |votes| == |w| && i < |w|
    ensures Product(votes, w) == WithVote(Product(votes, w[i := 0]), Odds(votes[i]), w[i])
    ensures Total(w) == Total(w[i := 0]) + w[i]
  {
    var n := |votes| - 1;
    var v := w[i := 0];
    if i == n {
      assert v[..n] == w[..n];
      assert Pow(Odds(votes[n]), 0) == 1.0;
      assert Product(votes, v) == Product(votes[..n], w[..n]);
    } else {
      ProductFactor(votes[..n], w[..n], i);
      assert v[..n] == w[..n][i := 0];
      SwapVotes(Product(votes[..n], v[..n]), Odds(votes[i]), w[i], Odds(votes[n]), w[n]);
    }
  }

  lemma SwapVotes(p: real, o: real, m: nat, o': real, n: nat)
    ensures WithVote(WithVote(p, o, m), o', n) == WithVote(WithVote(p, o', n), o, m)
  {
    var a, b := Pow(o, m), Pow(o', n);
    assert (p * a) * b == (p * b) * a;
  }

  lemma {:induction false} SilencedVote(votes: seq<real>, w: seq<nat>, i: nat, s: real)
    requires |votes| == |w| && i < |w| && w[i] == 0
    ensures Product(votes[i := s], w) == Product(votes, w)
  {
    var n := |votes| - 1;
    if i < n {
      assert votes[i := s][..n] == votes[..n][i := s];
      SilencedVote(votes[..n], w[..n], i, s);
    } else {
      assert votes[i := s][..n] == votes[..n];
    }
  }

  /** Changing one vote raises the score exactly when it raises that vote's
      probability. */
  lemma OneVoteDecides(tr: Transcendental, votes: seq<real>, w: seq<nat>, i: nat, s: real)
    requires tr.Lawful() && |votes| == |w| && Total(w) > 0 && i < |w| && w[i] > 0
    ensures Combined(tr, votes[i := s], Hundredths(w)) >= Combined(tr, votes, Hundredths(w))
       <==> Prob(s) >= Prob(votes[i])
  {
    var votes' := votes[i := s];
    if Prob(s) >= Prob(votes[i]) {
      CombinedMonotone(tr, votes, votes', w);
    } else {
      CombinedBetweenProbs(tr, votes, w, EPSILON, 1.0 - EPSILON);
      var level := Combined(tr, votes, Hundredths(w));
      ExactTest(tr, votes, w, level);
      ExactTest(tr, votes', w, level);
      ProductFactor(votes, w, i);
      ProductFactor(votes', w, i);
      SilencedVote(votes, w[i := 0], i, s);
      ProductPositive(votes, w[i := 0]);
      OddsOrder(votes[i], s);
      StrictVote(Product(votes, w[i := 0]), Odds(s), Odds(votes[i]), w[i]);
    }
  }

  /** Among plain votes the larger one gives the larger score, whatever the others say. */
  lemma LargerVoteScoresHigher(tr: Transcendental, votes: seq<real>, w: seq<nat>, i: nat, s: real, t: real)
    requires tr.Lawful() && |votes| == |w| && Total(w) > 0 && i < |w| && w[i] > 0 && Plain(s) && Plain(t)
    ensures Combined(tr, votes[i := s], Hundredths(w)) < Combined(tr, votes[i := t], Hundredths(w)) <==> s < t
  {
    PlainProb(s);
    PlainProb(t);
    var votes' := votes[i := t];
    OneVoteDecides(tr, votes', w, i, s);
    assert votes'[i := s] == votes[i := s] && votes'[i] == t;
  }

  lemma StrictVote(p: real, o: real, o': real, n: nat)
    requires p > 0.0 && 0.0 < o < o' && n > 0
    ensures WithVote(p, o, n) < WithVote(p, o', n)
  {
    PowStrict(o, o', n);
    MulLt(Pow(o, n), Pow(o', n), p);
    var a, b := Pow(o, n), Pow(o', n);
    assert p * a == a * p && p * b == b * p;
  }

  /** Turning an abstention into a firing with score s helps or hurts exactly as s is
      at least 0.1 or below. */
  lemma FiringHelpsIff(tr: Transcendental, votes: seq<real>, w: seq<nat>, i: nat, s: real)
    requires tr.Lawful() && |votes| == |w| && Total(w) > 0 && i < |w| && w[i] > 0
    requires votes[i] <= 0.0 < s
    ensures Combined(tr, votes[i := s], Hundredths(w)) >= Combined(tr, votes, Hundredths(w)) <==> s >= 0.1
  {
    OneVoteDecides(tr, votes, w, i, s);
  }

  // ----- The production ensemble ----------------------------------------------------------

  /** zscore, iqr, velocity, geo, device, merchant, behavioural; in hundredths. */
  const WEIGHTS: seq<nat> := [20, 17, 12, 12, 10, 15, 14]

  lemma WeightsAreTheSources()
    ensures Total(WEIGHTS) == 100
    ensures Hundredths(WEIGHTS) == [0.20, 0.17, 0.12, 0.12, 0.10, 0.15, 0.14]
  {
    ExtendWeights([], 20, [20]);
    ExtendWeights([20], 17, [20, 17]);
    ExtendWeights([20, 17], 12, [20, 17, 12]);
    ExtendWeights([20, 17, 12], 12, [20, 17, 12, 12]);
    ExtendWeights([20, 17, 12, 12], 10, [20, 17, 12, 12, 10]);
    ExtendWeights([20, 17, 12, 12, 10], 15, [20, 17, 12, 12, 10, 15]);
    ExtendWeights([20, 17, 12, 12, 10, 15], 14, WEIGHTS);
    assert Hundredths(WEIGHTS) == [Hundredth(20), Hundredth(17), Hundredth(12), Hundredth(12),
                                   Hundredth(10), Hundredth(15), Hundredth(14)];
  }

  lemma ExtendWeights(w: seq<nat>, n: nat, longer: seq<nat>)
    requires longer == w + [n]
    ensures Total(longer) == Total(w) + n
    ensures Hundredths(longer) == Hundredths(w) + [Hundredth(n)]
  {
    assert longer[..|w|] == w;
  }

  /** The scores each production detector can return, in ensemble order. */
  predicate InRange(i: nat, s: real)
    requires i < 7
  {
    s == 0.0 ||
    (match i
     case 0 => 0.5 < s <= 1.0
     case 1 => 0.4 < s <= 1.0
     case 2 => 0.6 <= s <= 1.0
     case 3 => 0.5 <= s <= 1.0
     case 4 => s == 0.3 || s == 0.4
     case 5 => 0.7 <= s <= 0.98
     case _ => s == 0.3 || s == 0.35 || s == 0.5)
  }

  predicate Votes(votes: seq<real>) {
    |votes| == 7 && forall i :: 0 <= i < 7 ==> InRange(i, votes[i])
  }

  /** The verdict without logarithms. */
  function ExactSeverity(votes: seq<real>): Severity
    requires |votes| == 7
  {
    var p := Product(votes, WEIGHTS);
    if p >= Pow(17.0 / 3.0, 100) then Critical
    else if p >= Pow(7.0 / 3.0, 100) then High
    else if p >= 1.0 then Medium
    else Low
  }

  function EnsembleScore(tr: Transcendental, votes: seq<real>): real
    requires tr.Lawful() && |votes| == 7
  {
    Combined(tr, votes, Hundredths(WEIGHTS))
  }

  lemma {:induction false} PowOne(n: nat)
    ensures Pow(1.0, n) == 1.0
  {
    if n == 0 {
    } else {
      PowOne(n - 1);
    }
  }

  lemma SeverityIsExact(tr: Transcendental, votes: seq<real>)
    requires tr.Lawful() && |votes| == 7
    ensures SeverityFromScore(Some(EnsembleScore(tr, votes))) == ExactSeverity(votes)
    ensures RiskScore(Some(EnsembleScore(tr, votes)), Unset).IsFlagged() <==> Product(votes, WEIGHTS) >= 1.0
  {
    WeightsAreTheSources();
    ExactTest(tr, votes, WEIGHTS, 0.85);
    ExactTest(tr, votes, WEIGHTS, 0.7);
    ExactTest(tr, votes, WEIGHTS, 0.5);
    assert OddsOf(0.85) == 17.0 / 3.0 && OddsOf(0.7) == 7.0 / 3.0 && OddsOf(0.5) == 1.0;
    PowOne(Total(WEIGHTS));
  }

  /** With scores the detectors actually produce, the ensemble never drops below 0.1
      and never reaches 1, and one more firing never lowers it. */
  lemma ProductionBounds(tr: Transcendental, votes: seq<real>)
    requires tr.Lawful() && Votes(votes)
    ensures 0.1 <= EnsembleScore(tr, votes) <= 1.0 - EPSILON
  {
    WeightsAreTheSources();
    CombinedBetweenProbs(tr, votes, WEIGHTS, 0.1, 1.0 - EPSILON);
  }

  lemma FiringNeverLowers(tr: Transcendental, votes: seq<real>, i: nat, s: real)
    requires tr.Lawful() && Votes(votes) && i < 7 && votes[i] == 0.0 && InRange(i, s)
    ensures EnsembleScore(tr, votes[i := s]) >= EnsembleScore(tr, votes)
  {
    WeightsAreTheSources();
    assert Prob(s) >= 0.1;
    CombinedMonotone(tr, votes, votes[i := s], WEIGHTS);
  }
}

/** What a single firing detector can do when the other six abstain. */
module LoneDetector {
  import opened Models
  import opened Powers
  import opened Ensemble
  import opened EnsembleFacts

  /** Only position `i` fires. */
  predicate Lone(votes: seq<real>, i: nat) {
    i < |votes| && votes[i] > 0.0 && forall j :: 0 <= j < |votes| && j != i ==> votes[j] <= 0.0
  }

  lemma {:induction false} SilentProduct(votes: seq<real>, w: seq<nat>)
    requires |votes| == |w|
    requires forall j :: 0 <= j < |votes| ==> w[j] == 0 || votes[j] <= 0.0
    ensures Product(votes, w) == Pow(ABSTAIN_ODDS, Total(w))
  {
    if |votes| == 0 {
    } else {
      var n := |votes| - 1;
      SilentProduct(votes[..n], w[..n]);
      PowAsVote(ABSTAIN_ODDS, Total(w[..n]), w[n]);
    }
  }

  lemma NinthsCancel(n: nat)
    ensures Pow(ABSTAIN_ODDS, n) * Pow(9.0, n) == 1.0
    ensures Pow(ABSTAIN_ODDS, n) > 0.0 && Pow(9.0, n) > 0.0
  {
    PowOfProduct(ABSTAIN_ODDS, 9.0, n);
    assert ABSTAIN_ODDS * 9.0 == 1.0;
    PowOne(n);
    PowPositive(ABSTAIN_ODDS, n);
    PowPositive(9.0, n);
  }

  /** What the abstaining weight demands of the firing one. */
  function Hurdle(abstaining: nat, level: real): real {
    Pow(9.0, abstaining) * level
  }

  /** A lone firing meets a level exactly when its weighted odds outweigh the others'
      abstentions: odds^w_i >= 9^(W - w_i) * level. */
  lemma LoneTest(votes: seq<real>, w: seq<nat>, i: nat, level: real)
    requires |votes| == |w| && Lone(votes, i)
    ensures Total(w) >= w[i]
    ensures Product(votes, w) >= level
       <==> Pow(Odds(votes[i]), w[i]) >= Hurdle(Total(w) - w[i], level)
  {
    ProductFactor(votes, w, i);
    SilentProduct(votes, w[i := 0]);
    CancelNinths(Total(w) - w[i], Odds(votes[i]), w[i], level);
  }

  lemma CancelNinths(n: nat, o: real, k: nat, level: real)
    ensures WithVote(Pow(ABSTAIN_ODDS, n), o, k) >= level <==> Pow(o, k) >= Hurdle(n, level)
  {
    NinthsCancel(n);
    var a, b, x := Pow(ABSTAIN_ODDS, n), Pow(9.0, n), Pow(o, k);
    var y, z := WithVote(a, o, k), Hurdle(n, level);
    assert y == a * x && z == b * level;
    CancelFactor(a, b, x, y, level, z);
  }

  lemma CancelFactor(a: real, b: real, x: real, y: real, level: real, z: real)
    requires a > 0.0 && b > 0.0 && a * b == 1.0 && y == a * x && z == b * level
    ensures y >= level <==> x >= z
  {
    var u := b * y;
    assert u == x by { assert b * (a * x) == (a * b) * x; }
    if y >= level {
      MulLe(level, y, b);
      assert level * b == z && y * b == u;
    } else {
      MulLt(y, level, b);
      assert level * b == z && y * b == u;
    }
  }

  /** The exact cut for the z-score detector: alone it flags from odds of 6561 to 1,
      that is from a score of 6561/6562, a little below 0.99985. */
  lemma ZScoreAloneFlagsIff(votes: seq<real>)
    requires |votes| == 7 && Lone(votes, 0)
    ensures Product(votes, WEIGHTS) >= 1.0 <==> Odds(votes[0]) >= 6561.0
  {
    WeightsAreTheSources();
    LoneTest(votes, WEIGHTS, 0, 1.0);
    PowOfPow(9.0, 4, 20);
    NinePowers();
    var o := Odds(votes[0]);
    if o < 6561.0 {
      PowStrict(o, 6561.0, 20);
    } else {
      PowMonotone(6561.0, o, 20);
    }
  }

  lemma NinePowers()
    ensures Pow(9.0, 2) == 81.0 && Pow(9.0, 3) == 729.0 && Pow(9.0, 4) == 6561.0 && Pow(9.0, 5) == 59049.0
    ensures Pow(9.0, 7) == 4782969.0
  {
    assert Pow(9.0, 1) == 9.0;
  }

  /** The exact cut for the IQR detector: alone it flags from odds whose 17th power is
      at least 9^83. */
  lemma IqrAloneFlagsIff(votes: seq<real>)
    requires |votes| == 7 && Lone(votes, 1)
    ensures Product(votes, WEIGHTS) >= 1.0 <==> Pow(Odds(votes[1]), 17) >= Pow(9.0, 83)
  {
    WeightsAreTheSources();
    LoneTest(votes, WEIGHTS, 1, 1.0);
  }

  /** That cut lies between odds of 9^4 and 9^5; saturation is beyond it. */
  lemma IqrCutRange(votes: seq<real>)
    requires |votes| == 7 && Lone(votes, 1)
    ensures Odds(votes[1]) >= 59049.0 ==> Product(votes, WEIGHTS) >= 1.0
    ensures Odds(votes[1]) <= 6561.0 ==> Product(votes, WEIGHTS) < 1.0
  {
    IqrAloneFlagsIff(votes);
    NinePowers();
    if Odds(votes[1]) >= 59049.0 {
      PowMonotone(59049.0, Odds(votes[1]), 17);
      PowOfPow(9.0, 5, 17);
      PowGrows(9.0, 83, 85);
    }
    if Odds(votes[1]) <= 6561.0 {
      PowMonotone(Odds(votes[1]), 6561.0, 17);
      PowOfPow(9.0, 4, 17);
      NineStrict(68, 83);
    }
  }

  lemma SaturatedOdds(s: real)
    ensures Odds(s) <= 999999.0
    ensures s >= 1.0 ==> Odds(s) == 999999.0
  {
    OddsOrderAt(s, 1.0 - EPSILON);
    assert OddsOf(1.0 - EPSILON) == 999999.0;
  }

  lemma NineStrict(a: nat, b: nat)
    requires a < b
    ensures Pow(9.0, a) < Pow(9.0, b)
  {
    PowGrows(9.0, a, b - 1);
  }

  /** If the odds are at most 9^k and k w_i falls short of the abstaining weight, the
      detector cannot flag alone. */
  lemma TooWeakAlone(votes: seq<real>, w: seq<nat>, i: nat, k: nat)
    requires |votes| == |w| && Lone(votes, i) && Odds(votes[i]) <= Pow(9.0, k)
    requires k * w[i] + w[i] < Total(w)
    ensures Product(votes, w) < 1.0
  {
    LoneTest(votes, w, i, 1.0);
    PowMonotone(Odds(votes[i]), Pow(9.0, k), w[i]);
    PowOfPow(9.0, k, w[i]);
    NineStrict(k * w[i], Total(w) - w[i]);
  }

  /** Of the seven, only zscore and iqr can flag on their own. */
  lemma OnlyAmountDetectorsFlagAlone(votes: seq<real>, i: nat)
    requires Votes(votes) && Lone(votes, i) && i >= 2
    ensures Product(votes, WEIGHTS) < 1.0
  {
    WeightsAreTheSources();
    NinePowers();
    SaturatedOdds(votes[i]);
    var k := if i <= 3 then 7 else if i == 5 then 2 else 1;
    assert Odds(votes[i]) <= Pow(9.0, k) by {
      if i == 5 {
        OddsOrderAt(votes[i], 0.98);
        assert OddsOf(0.98) == 49.0;
      } else if i > 3 {
        OddsOrderAt(votes[i], 0.5);
        assert OddsOf(0.5) == 1.0;
      }
    }
    TooWeakAlone(votes, WEIGHTS, i, k);
  }

  lemma CriticalNeedsSixty()
    ensures Pow(17.0 / 3.0, 100) > Pow(9.0, 60)
  {
    var x := 17.0 / 3.0;
    FifthPower(x);
    NinePowers();
    PowOfPow(x, 5, 20);
    PowOfPow(9.0, 3, 20);
    PowStrict(729.0, Pow(x, 5), 20);
  }

  lemma FifthPower(x: real)
    requires x == 17.0 / 3.0
    ensures Pow(x, 5) > 729.0
  {
    assert Pow(x, 1) == x;
    assert Pow(x, 2) == x * x == 289.0 / 9.0;
    assert Pow(x, 4) == (x * x) * (x * x);
    assert Pow(x, 5) == x * Pow(x, 4);
  }

  /** No single detector, however certain, takes the ensemble to critical. */
  lemma NobodyIsCriticalAlone(votes: seq<real>, i: nat)
    requires |votes| == 7 && Lone(votes, i)
    ensures Product(votes, WEIGHTS) < Pow(17.0 / 3.0, 100)
  {
    WeightsAreTheSources();
    assert WEIGHTS[i] <= 20;
    LoneTest(votes, WEIGHTS, i, Pow(17.0 / 3.0, 100));
    SaturatedOdds(votes[i]);
    BelowCriticalHurdle(Odds(votes[i]), WEIGHTS[i], Pow(17.0 / 3.0, 100)) by {
      CriticalNeedsSixty();
    }
  }

  lemma BelowCriticalHurdle(o: real, k: nat, level: real)
    requires 0.0 < o <= 999999.0 && k <= 20 && level > Pow(9.0, 60)
    ensures Pow(o, k) < Hurdle(100 - k, level)
  {
    NinePowers();
    PowMonotone(o, Pow(9.0, 7), k);
    PowOfPow(9.0, 7, k);
    PowGrows(9.0, 7 * k, 60 + (100 - k));
    assert Pow(o, k) <= Pow(9.0, 60 + (100 - k));
    SixtyBelow(100 - k, level);
  }

  lemma SixtyBelow(n: nat, level: real)
    requires level > Pow(9.0, 60)
    ensures Pow(9.0, 60 + n) < Hurdle(n, level)
  {
    var a, b := Pow(9.0, 60), Pow(9.0, n);
    PowAdd(9.0, 60, n);
    PowPositive(9.0, n);
    MulLt(a, level, b);
    var x, y := a * b, level * b;
    assert x < y && Hurdle(n, level) == y;
  }

  /** The three facts as verdicts. */
  lemma LoneVerdict(tr: Transcendental, votes: seq<real>, i: nat)
    requires tr.Lawful() && Votes(votes) && Lone(votes, i)
    ensures SeverityFromScore(Some(EnsembleScore(tr, votes))) != Critical
    ensures i >= 2 ==> SeverityFromScore(Some(EnsembleScore(tr, votes))) == Low
    ensures i == 1 ==> (EnsembleScore(tr, votes) >= FLAG_THRESHOLD <==> Pow(Odds(votes[1]), 17) >= Pow(9.0, 83))
    ensures i == 1 && votes[1] == 1.0 ==> EnsembleScore(tr, votes) >= FLAG_THRESHOLD
    ensures i == 0 ==> (EnsembleScore(tr, votes) >= FLAG_THRESHOLD <==> votes[0] >= 6561.0 / 6562.0)
  {
    SeverityIsExact(tr, votes);
    NobodyIsCriticalAlone(votes, i);
    if i >= 2 {
      OnlyAmountDetectorsFlagAlone(votes, i);
      HighIsFlagged();
    } else if i == 1 {
      IqrAloneFlagsIff(votes);
      SaturatedOdds(votes[1]);
      IqrCutRange(votes);
    } else {
      ZScoreAloneFlagsIff(votes);
      OddsOrderAt(votes[0], 6561.0 / 6562.0);
      assert OddsOf(6561.0 / 6562.0) == 6561.0;
    }
  }

  lemma HighIsFlagged()
    ensures Pow(7.0 / 3.0, 100) >= 1.0
  {
    PowGrows(7.0 / 3.0, 0, 100);
  }
}

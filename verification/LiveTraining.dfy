/** Retraining on the production ensemble (internal/training/training.go,
    internal/detector/detector.go): when the model that comes out is usable. */
module LiveTraining {
  import opened Models
  import opened Exponentials
  import opened Calibration
  import opened Training
  import Cases
  import Population
  import Scoring
  import Statistics
  import M = MemStore

  /** The scores of the rebuilt cases are answers of the production ensemble on `s`. */
  ghost predicate ScoredLive(lib: Scoring.Library, s: M.State, score: Scorer, cases: seq<Cases.CaseData>)
    requires lib.tr.Lawful()
  {
    forall i :: 0 <= i < |cases| && Labelled(cases[i]) ==>
      Scoring.Answers(lib, s, Reconstructed(cases[i]), score(Reconstructed(cases[i])))
  }

  /** Some labelled case belongs to a user with one amount in its category, while the
      population of that category has spread. */
  predicate SomeLone(lib: Scoring.Library, s: M.State, cases: seq<Cases.CaseData>, order: seq<string>) {
    exists i :: 0 <= i < |cases| && Labelled(cases[i]) && Scoring.LoneAmount(lib, s, Reconstructed(cases[i]), order)
  }

  /** Retrained on the live ensemble, the model gives every raw score a probability
      strictly between 0 and 1 if and only if no labelled case is a lone amount;
      otherwise it gives none until a later retraining in which no labelled case is one. */
  lemma RetrainedModelIsProperIff(
      exp: Exponential, lib: Scoring.Library, s: M.State, score: Scorer, cases: seq<Cases.CaseData>, order: seq<string>)
    requires lib.tr.Lawful() && Population.Order(order, s.history.Keys)
    requires ScoredLive(lib, s, score, cases) && |PairsOf(score, cases)| > 0
    ensures Proper(exp, Model(exp, score, cases)) <==> !SomeLone(lib, s, cases, order)
    ensures Mute(exp, Model(exp, score, cases)) <==> SomeLone(lib, s, cases, order)
  {
    UnscoredIffLone(lib, s, score, cases, order);
    PairsAreNumbersIff(score, cases);
    PairsAreUnit(score, cases);
    assert Reach(ITERATIONS, RATE) == 50.0;
    ProperIff(exp, PairsOf(score, cases), ITERATIONS, RATE);
  }

  lemma UnscoredIffLone(lib: Scoring.Library, s: M.State, score: Scorer, cases: seq<Cases.CaseData>, order: seq<string>)
    requires lib.tr.Lawful() && Population.Order(order, s.history.Keys) && ScoredLive(lib, s, score, cases)
    ensures SomeUnscored(score, cases) <==> SomeLone(lib, s, cases, order)
    ensures forall i :: 0 <= i < |cases| && Labelled(cases[i]) ==> InUnit(score(Reconstructed(cases[i])))
  {
    forall i | 0 <= i < |cases| && Labelled(cases[i])
      ensures score(Reconstructed(cases[i])).None? <==> Scoring.LoneAmount(lib, s, Reconstructed(cases[i]), order)
      ensures InUnit(score(Reconstructed(cases[i])))
    {
      Scoring.NoAnswerIff(lib, s, Reconstructed(cases[i]), score(Reconstructed(cases[i])), order);
      Scoring.AnswersAreUnit(lib, s, Reconstructed(cases[i]), score(Reconstructed(cases[i])));
    }
  }

  /** How it comes about: the pipeline records a user's first purchase in a category and
      opens its case; once an analyst labels that case while the category has spread,
      the next retraining leaves a model without numbers. */
  lemma LabelledFirstPurchaseMutes(
      exp: Exponential, lib: Scoring.Library, before: M.State, tx: Transaction, risk: RiskScore,
      score: Scorer, cases: seq<Cases.CaseData>, i: nat, order: seq<string>)
    requires lib.tr.Lawful() && Scoring.OwnAmounts(before, tx) == []
    requires var s := M.Added(before, tx, risk);
      && Population.Order(order, s.history.Keys) && ScoredLive(lib, s, score, cases)
      && Scoring.BaselineIn(lib, s, tx.category, order).std != 0.0
    requires i < |cases| && cases[i].facts.tx == tx && Labelled(cases[i])
    ensures Mute(exp, Model(exp, score, cases))
  {
    var s := M.Added(before, tx, risk);
    Scoring.FirstPurchaseIsLone(before, tx, risk);
    assert Scoring.OwnAmounts(s, Reconstructed(cases[i])) == Scoring.OwnAmounts(s, tx);
    assert Scoring.LoneAmount(lib, s, Reconstructed(cases[i]), order);
    LabelledMeansPairs(score, cases, i);
    RetrainedModelIsProperIff(exp, lib, s, score, cases, order);
  }

  lemma {:induction false} LabelledMeansPairs(score: Scorer, cases: seq<Cases.CaseData>, i: nat)
    requires i < |cases| && Labelled(cases[i])
    ensures |PairsOf(score, cases)| > 0
  {
    var n := |cases| - 1;
    if i < n {
      LabelledMeansPairs(score, cases[..n], i);
    }
  }

  /** A concrete store that shows it: two buyers with one purchase each, one of them
      confirmed as fraud. */
  lemma TwoBuyersMute(
      exp: Exponential, lib: Scoring.Library, u: string, v: string, category: string, risk: RiskScore,
      score: Scorer, c: Cases.CaseData)
    requires lib.tr.Lawful() && Statistics.IsRoot(lib.sqrt) && u != v
    requires c.status == Cases.Confirmed && c.facts.tx == Scoring.Purchase("2", u, 10.0, category)
    requires ScoredLive(lib, M.RunOps(M.EMPTY, Scoring.TwoBuyers(u, v, category, risk)), score, [c])
    ensures Mute(exp, Model(exp, score, [c]))
  {
    var s := M.RunOps(M.EMPTY, Scoring.TwoBuyers(u, v, category, risk));
    assert [c][0] == c && Labelled([c][0]);
    Scoring.TwoBuyersHaveNoAnswer(lib, u, v, category, risk, Reconstructed(c), score(Reconstructed(c)));
    assert SomeUnscored(score, [c]);
    PairsAreNumbersIff(score, [c]);
  }
}

/** The retraining cycle (internal/training/training.go). */
module Training {
  import opened Models
  import opened RealSums
  import opened Exponentials
  import opened Calibration
  import opened Metrics
  import opened Selections
  import Behavioral
  import Cases
  import Signals
  import Velocity

  /** The ensemble on the store as the retraining finds it. */
  type Scorer = Transaction -> Float

  const ITERATIONS: nat := 500
  const RATE: real := 0.1

  /** A case does not carry the time or the device of its transaction. */
  function Reconstructed(c: Cases.CaseData): Transaction {
    var tx := c.facts.tx;
    Transaction(tx.id, tx.userId, tx.amount, tx.currency, tx.merchant, tx.category, 0, tx.country, "")
  }

  predicate Labelled(c: Cases.CaseData) {
    c.status == Cases.Confirmed || c.status == Cases.FalsePositive
  }

  function PairOf(score: Scorer, c: Cases.CaseData): RawPair {
    RawPair(score(Reconstructed(c)), c.status == Cases.Confirmed)
  }

  function PairIfLabelled(score: Scorer): Cases.CaseData -> seq<RawPair> {
    (c: Cases.CaseData) => if Labelled(c) then [PairOf(score, c)] else []
  }

  function PairsOf(score: Scorer, cases: seq<Cases.CaseData>): seq<RawPair> {
    FlatMap(PairIfLabelled(score), cases)
  }

  function TallyOf(pairs: seq<RawPair>): Confusion {
    if |pairs| == 0 then NONE
    else
      var p := pairs[|pairs| - 1];
      TallyOf(pairs[..|pairs| - 1]).Counting(p.fraud, AtLeast(p.score, FLAG_THRESHOLD))
  }

  /** The coefficients a retraining arrives at; `None` when they are not numbers. */
  function Model(exp: Exponential, score: Scorer, cases: seq<Cases.CaseData>): Option<Coefficients> {
    FitOutcome(exp, PairsOf(score, cases), ITERATIONS, RATE)
  }

  /** Fits once for the log and once more on the live calibrator. `cases` is what
      `List` returned, in whatever order the case map was walked. */
  method Retrain(exp: Exponential, score: Scorer, cases: seq<Cases.CaseData>, live: LogisticCalibrator)
    returns (retrained: bool, logged: Option<Coefficients>, counts: Confusion)
    modifies live
    ensures counts == TallyOf(PairsOf(score, cases)) && counts.Total() == |PairsOf(score, cases)|
    ensures retrained <==> |PairsOf(score, cases)| > 0
    ensures !retrained ==> live.Current() == old(live.Current())
    ensures retrained ==> live.Current() == logged == Model(exp, score, cases)
  {
    var pairs: seq<RawPair> := [];
    var tp, fp, fn, tn := 0, 0, 0, 0;
    for i := 0 to |cases|
      invariant pairs == PairsOf(score, cases[..i])
      invariant Confusion(tp, fp, fn, tn) == TallyOf(pairs)
      invariant tp + fp + fn + tn == |pairs|
      invariant live.Current() == old(live.Current())
    {
      assert cases[..i + 1][..i] == cases[..i];
      var c := cases[i];
      if c.status == Cases.Confirmed || c.status == Cases.FalsePositive {
        var raw := score(Reconstructed(c));
        var isFraud := c.status == Cases.Confirmed;
        assert (pairs + [RawPair(raw, isFraud)])[..|pairs|] == pairs;
        pairs := pairs + [RawPair(raw, isFraud)];
        var flagged := AtLeast(raw, FLAG_THRESHOLD);
        if isFraud && flagged {
          tp := tp + 1;
        } else if isFraud && !flagged {
          fn := fn + 1;
        } else if !isFraud && flagged {
          fp := fp + 1;
        } else {
          tn := tn + 1;
        }
      }
    }
    assert cases[..|cases|] == cases;
    counts := Confusion(tp, fp, fn, tn);
    logged := None;
    retrained := |pairs| > 0;
    if retrained {
      var newCal := new LogisticCalibrator();
      newCal.Fit(exp, pairs, ITERATIONS, RATE);
      logged := newCal.Current();
      live.Fit(exp, pairs, ITERATIONS, RATE);
    }
  }

  /** The model that comes out does not depend on the order the cases were listed in. */
  lemma RetrainIgnoresOrder(exp: Exponential, score: Scorer, a: seq<Cases.CaseData>, b: seq<Cases.CaseData>)
    requires multiset(a) == multiset(b)
    ensures |PairsOf(score, a)| == |PairsOf(score, b)|
    ensures Model(exp, score, a) == Model(exp, score, b)
  {
    FlatMapPermutes(PairIfLabelled(score), a, b);
    OutcomeIgnoresOrder(exp, PairsOf(score, a), PairsOf(score, b), ITERATIONS, RATE);
  }

  // ----- When the model is usable -----------------------------------------------------

  /** Some labelled case was given no score. */
  predicate SomeUnscored(score: Scorer, cases: seq<Cases.CaseData>) {
    exists i :: 0 <= i < |cases| && Labelled(cases[i]) && score(Reconstructed(cases[i])).None?
  }

  lemma {:induction false} PairsAreNumbersIff(score: Scorer, cases: seq<Cases.CaseData>)
    ensures AllNumbers(PairsOf(score, cases)) <==> !SomeUnscored(score, cases)
  {
    if |cases| == 0 {
    } else {
      var n := |cases| - 1;
      var front := PairsOf(score, cases[..n]);
      PairsAreNumbersIff(score, cases[..n]);
      if Labelled(cases[n]) {
        NumbersSnoc(front, PairOf(score, cases[n]));
      } else {
        assert PairsOf(score, cases) == front;
      }
    }
  }

  lemma NumbersSnoc(pairs: seq<RawPair>, p: RawPair)
    ensures AllNumbers(pairs + [p]) <==> AllNumbers(pairs) && IsNumber(p)
  {
    assert (pairs + [p])[|pairs|] == p;
    assert forall i :: 0 <= i < |pairs| ==> (pairs + [p])[i] == pairs[i];
  }

  lemma {:induction false} PairsAreUnit(score: Scorer, cases: seq<Cases.CaseData>)
    requires forall i :: 0 <= i < |cases| && Labelled(cases[i]) ==> InUnit(score(Reconstructed(cases[i])))
    ensures forall p :: p in PairsOf(score, cases) ==> InUnit(p.score)
  {
    if |cases| == 0 {
    } else {
      PairsAreUnit(score, cases[..|cases| - 1]);
    }
  }

  // ----- Training scores and live scores -------------------------------------------------

  /** The undated entries, and those dated within five minutes before year 1. */
  function NearYearOne(hist: seq<Transaction>): nat {
    if |hist| == 0 then 0
    else
      var h := hist[|hist| - 1];
      NearYearOne(hist[..|hist| - 1]) + (if -Velocity.WINDOW <= h.timestamp < 0 then 1 else 0)
  }

  lemma {:induction false} RebuiltCount(hist: seq<Transaction>)
    ensures Behavioral.Dated(hist) <= |hist|
    ensures Velocity.CountInside(hist, 0) == |hist| - Behavioral.Dated(hist) + NearYearOne(hist)
  {
    if |hist| == 0 {
    } else {
      RebuiltCount(hist[..|hist| - 1]);
    }
  }

  /** Training scores are not live scores: rebuilt without its time, a transaction fires
      the velocity detector if and only if more than four entries of the history are
      undated (or of the five minutes before year 1), it always falls on Monday 00:00
      for the behavioural detector, and it never fires the device detector. */
  lemma RebuiltSignals(hist: seq<Transaction>, c: Cases.CaseData, device: real)
    requires Signals.DeviceVerdict(hist, Reconstructed(c), device)
    ensures Velocity.FromCount(Velocity.CountInside(hist, Reconstructed(c).timestamp)) > 0.0
       <==> |hist| - Behavioral.Dated(hist) + NearYearOne(hist) > 4
    ensures Behavioral.WeekdayOf(Reconstructed(c).timestamp) == 1 && Behavioral.HourOf(Reconstructed(c).timestamp) == 0
    ensures device == 0.0
  {
    RebuiltCount(hist);
  }

  /** Step after step, each from where the last one ended. */
  function Stepped(exp: Exponential, pairs: seq<LabelledPair>, steps: nat, c: Coefficients): Coefficients
    requires |pairs| > 0
  {
    if steps == 0 then c else Stepped(exp, pairs, steps - 1, Descent(exp, pairs, 0.1, c))
  }

  lemma {:induction false} SteppedIsFitted(exp: Exponential, pairs: seq<LabelledPair>, steps: nat, done: nat)
    requires |pairs| > 0
    ensures Stepped(exp, pairs, steps, Fitted(exp, pairs, done, 0.1)) == Fitted(exp, pairs, done + steps, 0.1)
  {
    if steps == 0 {
    } else {
      SteppedIsFitted(exp, pairs, steps - 1, done + 1);
    }
  }

  /** The model is five hundred steps at a rate of a tenth away from slope 1, offset 0. */
  lemma ModelAfterSteps(exp: Exponential, score: Scorer, cases: seq<Cases.CaseData>)
    requires AllNumbers(PairsOf(score, cases)) && |PairsOf(score, cases)| > 0
    ensures |Numbers(PairsOf(score, cases))| > 0
    ensures Model(exp, score, cases) == Some(Stepped(exp, Numbers(PairsOf(score, cases)), 500, Coefficients(1.0, 0.0)))
  {
    NumbersKeepLength(PairsOf(score, cases));
    SteppedIsFitted(exp, Numbers(PairsOf(score, cases)), 500, 0);
  }

  /** A rebuilt transaction has lost its time and its device, and nothing else. */
  lemma RebuiltKeepsTheRest(c: Cases.CaseData)
    ensures Reconstructed(c).(timestamp := c.facts.tx.timestamp, deviceId := c.facts.tx.deviceId) == c.facts.tx
    ensures Reconstructed(c).timestamp == 0 && Reconstructed(c).deviceId == ""
  {
  }

  /** The training pairs are those of the confirmed and the cleared cases, in the order
      listed: the score of the rebuilt transaction, labelled fraud when confirmed. */
  lemma PairsInOrder(score: Scorer, cases: seq<Cases.CaseData>) returns (at: seq<nat>)
    ensures Picks(Labelled, cases, at) && |PairsOf(score, cases)| == |at|
    ensures forall k :: 0 <= k < |at| ==>
      && at[k] < |cases|
      && PairsOf(score, cases)[k].score == score(Reconstructed(cases[at[k]]))
      && (PairsOf(score, cases)[k].fraud <==> cases[at[k]].status == Cases.Confirmed)
  {
    at := FlatMapPicks(Labelled, (c: Cases.CaseData) => PairOf(score, c), PairIfLabelled(score), cases);
  }

  // ----- What the confusion counts count ------------------------------------------------

  function Confirmed(cases: seq<Cases.CaseData>): nat {
    if |cases| == 0 then 0
    else Confirmed(cases[..|cases| - 1]) + (if cases[|cases| - 1].status == Cases.Confirmed then 1 else 0)
  }

  function Cleared(cases: seq<Cases.CaseData>): nat {
    if |cases| == 0 then 0
    else Cleared(cases[..|cases| - 1]) + (if cases[|cases| - 1].status == Cases.FalsePositive then 1 else 0)
  }

  function FraudAt(pairs: seq<RawPair>): nat -> bool {
    (i: nat) => i < |pairs| && pairs[i].fraud
  }

  function FlaggedAt(pairs: seq<RawPair>): nat -> bool {
    (i: nat) => i < |pairs| && pairs[i].score.Some? && pairs[i].score.value >= 0.5
  }

  lemma {:induction false} TallyOfFirst(pairs: seq<RawPair>, n: nat)
    requires n <= |pairs|
    ensures CellsOf(TallyOf(pairs[..n]), n, FraudAt(pairs), FlaggedAt(pairs))
  {
    if n == 0 {
    } else {
      TallyOfFirst(pairs, n - 1);
      assert pairs[..n][..n - 1] == pairs[..n - 1];
      CellsCounting(TallyOf(pairs[..n - 1]), n - 1, FraudAt(pairs), FlaggedAt(pairs));
    }
  }

  /** Each cell holds as many pairs as carry its label and its answer at 0.5. */
  lemma TallyCells(pairs: seq<RawPair>)
    ensures CellsOf(TallyOf(pairs), |pairs|, FraudAt(pairs), FlaggedAt(pairs))
  {
    TallyOfFirst(pairs, |pairs|);
    assert pairs[..|pairs|] == pairs;
  }

  /** The confusion rows are the analysts' verdicts, whatever the scorer says. */
  lemma {:induction false} TallyFollowsVerdicts(score: Scorer, cases: seq<Cases.CaseData>)
    ensures var c := TallyOf(PairsOf(score, cases));
      c.tp + c.fn == Confirmed(cases) && c.fp + c.tn == Cleared(cases)
    ensures |PairsOf(score, cases)| == Confirmed(cases) + Cleared(cases)
  {
    if |cases| == 0 {
    } else {
      var n := |cases| - 1;
      TallyFollowsVerdicts(score, cases[..n]);
      var front := PairsOf(score, cases[..n]);
      if Labelled(cases[n]) {
        assert (front + [PairOf(score, cases[n])])[..|front|] == front;
      } else {
        assert PairsOf(score, cases) == front;
      }
    }
  }
}

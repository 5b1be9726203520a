/** The offline replay of a labelled dataset (`Evaluate` in internal/api/seed.go). */
module Evaluation {
  import opened Models
  import opened Metrics
  import M = MemStore

  /** The detector under evaluation; the number is the position of the transaction, on
      which a score may depend through the order its detectors walk Go maps. */
  type Scorer = (M.State, Transaction, nat) -> Float

  function Seeds(data: seq<Transaction>): (ops: seq<M.Op>)
    ensures |ops| == |data| && forall i :: 0 <= i < |data| ==> ops[i] == M.SeedOp(data[i])
  {
    seq(|data|, i requires 0 <= i < |data| => M.SeedOp(data[i]))
  }

  /** The store as transaction `i` finds it. */
  function Before(init: M.State, data: seq<Transaction>, i: nat): M.State
    requires i <= |data|
  {
    M.RunOps(init, Seeds(data[..i]))
  }

  predicate Flags(score: Scorer, init: M.State, data: seq<Transaction>, i: nat)
    requires i < |data|
  {
    AtLeast(score(Before(init, data, i), data[i], i), FLAG_THRESHOLD)
  }

  /** The confusion counts of the first `i` predictions. */
  function Tally(score: Scorer, init: M.State, data: seq<Transaction>, fraud: set<string>, i: nat): Confusion
    requires i <= |data|
  {
    if i == 0 then NONE
    else Tally(score, init, data, fraud, i - 1).Counting(data[i - 1].id in fraud, Flags(score, init, data, i - 1))
  }

  datatype EvalMetrics = EvalMetrics(
    total: nat, fraud: nat, normal: nat, counts: Confusion, recall: real, precision: real, f1: real, fpr: real)

  lemma BeforeStep(init: M.State, data: seq<Transaction>, i: nat)
    requires i < |data|
    ensures Before(init, data, i + 1) == M.Recorded(Before(init, data, i), data[i])
  {
    assert Seeds(data[..i + 1])[..i] == Seeds(data[..i]);
  }

  /** Each transaction is scored, counted and only then added to the store. */
  method Replay(score: Scorer, store: M.Store, data: seq<Transaction>, fraud: set<string>)
    returns (total: nat, counts: Confusion)
    modifies store
    ensures store.View() == Before(old(store.View()), data, |data|)
    ensures counts == Tally(score, old(store.View()), data, fraud, |data|)
    ensures total == |data| == counts.Total()
  {
    total := 0;
    var tp, fn, fp, tn := 0, 0, 0, 0;
    ghost var init := store.View();
    for i := 0 to |data|
      invariant store.View() == Before(init, data, i)
      invariant Confusion(tp, fp, fn, tn) == Tally(score, init, data, fraud, i)
      invariant total == i == tp + fp + fn + tn
    {
      var tx := data[i];
      var flagged := AtLeast(score(store.View(), tx, i), FLAG_THRESHOLD);
      var isFraud := tx.id in fraud;
      total := total + 1;
      if isFraud && flagged {
        tp := tp + 1;
      } else if isFraud && !flagged {
        fn := fn + 1;
      } else if !isFraud && flagged {
        fp := fp + 1;
      } else {
        tn := tn + 1;
      }
      store.Seed(tx);
      BeforeStep(init, data, i);
    }
    counts := Confusion(tp, fp, fn, tn);
  }

  method Summarise(total: nat, c: Confusion) returns (m: EvalMetrics)
    ensures m.counts == c && m.total == total
    ensures m.fraud == c.tp + c.fn && m.normal == c.tn + c.fp
    ensures m.recall == Recall(c) && m.precision == Precision(c)
    ensures m.f1 == F1(c) && m.fpr == FalsePositiveRate(c)
  {
    var frauds, normals := c.tp + c.fn, c.tn + c.fp;
    var recall, precision, f1, fpr := 0.0, 0.0, 0.0, 0.0;
    if frauds > 0 {
      recall := c.tp as real / frauds as real;
    }
    if c.tp + c.fp > 0 {
      precision := c.tp as real / (c.tp + c.fp) as real;
    }
    assert recall == Ratio(c.tp, frauds) && precision == Ratio(c.tp, c.tp + c.fp);
    if precision + recall > 0.0 {
      f1 := 2.0 * precision * recall / (precision + recall);
    }
    assert f1 == Harmonic(precision, recall);
    if normals > 0 {
      fpr := c.fp as real / normals as real;
    }
    assert fpr == Ratio(c.fp, normals);
    m := EvalMetrics(total, frauds, normals, c, recall, precision, f1, fpr);
  }

  method Evaluate(score: Scorer, store: M.Store, data: seq<Transaction>, fraud: set<string>) returns (m: EvalMetrics)
    modifies store
    ensures store.View() == Before(old(store.View()), data, |data|)
    ensures m.counts == Tally(score, old(store.View()), data, fraud, |data|)
    ensures m.total == |data| == m.counts.Total() == m.fraud + m.normal
    ensures m.recall == Recall(m.counts) && m.precision == Precision(m.counts)
    ensures m.f1 == F1(m.counts) && m.fpr == FalsePositiveRate(m.counts)
  {
    var total, counts := Replay(score, store, data, fraud);
    m := Summarise(total, counts);
  }

  /** One user's share of the dataset, in order. */
  function Projection(data: seq<Transaction>, userId: string): seq<Transaction> {
    if |data| == 0 then []
    else
      var n := |data| - 1;
      if data[n].userId == userId then Projection(data[..n], userId) + [data[n]] else Projection(data[..n], userId)
  }

  lemma {:induction false} SeedLogIsProjection(data: seq<Transaction>, userId: string)
    ensures M.UserLog(Seeds(data), userId) == Projection(data, userId)
  {
    if |data| == 0 {
    } else {
      var n := |data| - 1;
      SeedLogIsProjection(data[..n], userId);
      assert Seeds(data)[..n] == Seeds(data[..n]);
    }
  }

  lemma {:induction false} ProjectionMembers(data: seq<Transaction>, userId: string, h: Transaction)
    ensures h in Projection(data, userId) ==> exists j :: 0 <= j < |data| && data[j] == h
  {
    if |data| > 0 && h in Projection(data, userId) {
      var n := |data| - 1;
      if h != data[n] {
        ProjectionMembers(data[..n], userId, h);
        var j :| 0 <= j < n && data[..n][j] == h;
        assert data[j] == h;
      }
    }
  }

  /** No leakage: on an initially empty store, the history behind the score of
      transaction `i` is exactly the last hundred of that user's transactions among
      the first `i`; with distinct IDs the transaction itself is never part of it. */
  lemma NoLeakage(data: seq<Transaction>, i: nat, userId: string)
    requires i < |data|
    ensures M.HistoryOf(Before(M.EMPTY, data, i), userId) == M.Last(M.MAX_HISTORY, Projection(data[..i], userId))
    ensures (forall j, k :: 0 <= j < k < |data| ==> data[j].id != data[k].id) ==>
      data[i] !in M.HistoryOf(Before(M.EMPTY, data, i), userId)
  {
    SeedLogIsProjection(data[..i], userId);
    M.HistoryIsLogSuffix(Seeds(data[..i]), userId);
    var log := Projection(data[..i], userId);
    if data[i] in M.Last(M.MAX_HISTORY, log) {
      ProjectionMembers(data[..i], userId, data[i]);
      var j :| 0 <= j < i && data[..i][j] == data[i];
      assert data[j].id == data[i].id;
    }
  }

  /** Causality: what comes later in the dataset cannot change an earlier count. */
  lemma {:induction false} TallyIsCausal(
      score: Scorer, init: M.State, data: seq<Transaction>, later: seq<Transaction>, fraud: set<string>, i: nat)
    requires i <= |data|
    ensures Tally(score, init, data + later, fraud, i) == Tally(score, init, data, fraud, i)
  {
    if i == 0 {
    } else {
      TallyIsCausal(score, init, data, later, fraud, i - 1);
      assert (data + later)[..i - 1] == data[..i - 1];
    }
  }

  function FraudAt(data: seq<Transaction>, fraud: set<string>): nat -> bool {
    (i: nat) => i < |data| && data[i].id in fraud
  }

  /** The scorer, asked about transaction `i` on what came before it, says at least 0.5. */
  function FlaggedAt(score: Scorer, init: M.State, data: seq<Transaction>): nat -> bool {
    (i: nat) =>
      i < |data| &&
      var answer := score(Before(init, data, i), data[i], i);
      answer.Some? && answer.value >= 0.5
  }

  /** Each cell counts the transactions with its label and its answer. */
  lemma {:induction false} TallyCells(
      score: Scorer, init: M.State, data: seq<Transaction>, fraud: set<string>, i: nat)
    requires i <= |data|
    ensures CellsOf(Tally(score, init, data, fraud, i), i, FraudAt(data, fraud), FlaggedAt(score, init, data))
  {
    if i == 0 {
    } else {
      TallyCells(score, init, data, fraud, i - 1);
      CellsCounting(Tally(score, init, data, fraud, i - 1), i - 1, FraudAt(data, fraud), FlaggedAt(score, init, data));
    }
  }

  function Frauds(data: seq<Transaction>, fraud: set<string>): nat {
    if |data| == 0 then 0
    else Frauds(data[..|data| - 1], fraud) + (if data[|data| - 1].id in fraud then 1 else 0)
  }

  /** The fraud and normal totals are those of the labels: no scorer, and no prior
      content of the store, can change them. */
  lemma {:induction false} TotalsAreTheLabels(
      score: Scorer, init: M.State, data: seq<Transaction>, fraud: set<string>, i: nat)
    requires i <= |data|
    ensures var c := Tally(score, init, data, fraud, i);
      c.tp + c.fn == Frauds(data[..i], fraud) && c.fp + c.tn == i - Frauds(data[..i], fraud)
  {
    if i == 0 {
    } else {
      TotalsAreTheLabels(score, init, data, fraud, i - 1);
      assert data[..i][..i - 1] == data[..i - 1];
    }
  }

  /** A scorer that never says less flags at least as much: it misses no fraud the
      other caught and spares no normal transaction the other flagged. */
  lemma {:induction false} BolderScorerFlagsMore(
      score: Scorer, bolder: Scorer, init: M.State, data: seq<Transaction>, fraud: set<string>, i: nat)
    requires i <= |data|
    requires forall st, tx, k :: score(st, tx, k).Some? ==> NotAbove(score(st, tx, k), bolder(st, tx, k))
    ensures var c, d := Tally(score, init, data, fraud, i), Tally(bolder, init, data, fraud, i);
      c.tp <= d.tp && c.fp <= d.fp && c.fn >= d.fn && c.tn >= d.tn
  {
    if i == 0 {
    } else {
      BolderScorerFlagsMore(score, bolder, init, data, fraud, i - 1);
      assert Flags(score, init, data, i - 1) ==> Flags(bolder, init, data, i - 1);
    }
  }
}

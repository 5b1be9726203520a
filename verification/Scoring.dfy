/** `EnsembleDetector.Score` on a live store: the seven detectors vote, the ensemble
    combines (internal/detector/detector.go). */
module Scoring {
  import opened Models
  import opened RealSums
  import opened Selections
  import opened Statistics
  import opened Ensemble
  import opened EnsembleFacts
  import AmountDetectors
  import Behavioral
  import Population
  import Signals
  import Velocity
  import M = MemStore

  /** Library functions the detectors rely on. */
  datatype Library = Library(
    tr: Transcendental,
    sqrt: SquareRoot,
    distance: (string, string) -> real,
    containsFold: (string, string) -> bool)

  /** The user's amounts in the transaction's category. */
  function OwnAmounts(s: M.State, tx: Transaction): seq<real> {
    AmountsOf(M.HistoryOf(s, tx.userId), tx.category)
  }

  /** They are the amounts at the positions of the user's history in that category. */
  lemma OwnAmountsInOrder(s: M.State, tx: Transaction) returns (at: seq<nat>)
    ensures Picks((h: Transaction) => h.category == tx.category, M.HistoryOf(s, tx.userId), at)
    ensures |OwnAmounts(s, tx)| == |at|
    ensures forall k :: 0 <= k < |at| ==>
      at[k] < |M.HistoryOf(s, tx.userId)| && OwnAmounts(s, tx)[k] == M.HistoryOf(s, tx.userId)[at[k]].amount
  {
    var hist := M.HistoryOf(s, tx.userId);
    at := AmountsInOrder(hist, tx.category);
    SamePicks((h: Transaction) => InCategory(tx.category, h), (h: Transaction) => h.category == tx.category, hist, at);
  }

  /** The population baseline, users visited in the given order. */
  function BaselineIn(lib: Library, s: M.State, category: string, order: seq<string>): AmountDetectors.Baseline {
    var stats := Population.StatsOf(lib.sqrt, Population.Gathered(s.history, order, category));
    AmountDetectors.Baseline(stats.0, stats.1)
  }

  function QuartilesIn(s: M.State, category: string, order: seq<string>): (q: AmountDetectors.Quartiles)
    ensures q.q1 <= q.q3
  {
    var q := Population.QuartilesOf(Population.Gathered(s.history, order, category));
    AmountDetectors.Quartiles(q.0, q.1)
  }

  /** What the z-score detector says, whatever order the histories are visited in;
      `None` stands for not-a-number. */
  ghost predicate ZScoreVerdict(lib: Library, s: M.State, tx: Transaction, z: Option<real>) {
    forall order :: Population.Order(order, s.history.Keys) ==>
      z == AmountDetectors.ZScore(lib.sqrt, OwnAmounts(s, tx), BaselineIn(lib, s, tx.category, order), tx.amount)
  }

  ghost predicate IqrVerdict(s: M.State, tx: Transaction, score: real) {
    forall order :: Population.Order(order, s.history.Keys) ==>
      score == AmountDetectors.Iqr(OwnAmounts(s, tx), QuartilesIn(s, tx.category, order), tx.amount)
  }

  /** The verdicts of the five detectors that look at the user's history alone. */
  ghost predicate PatternVerdicts(lib: Library, hist: seq<Transaction>, tx: Transaction,
      velocity: real, geo: real, device: real, merchant: real, behaviour: real) {
    && velocity == Velocity.FromCount(Velocity.CountInside(hist, tx.timestamp))
    && Signals.GeoVerdict(hist, tx, lib.distance, geo)
    && Signals.DeviceVerdict(hist, tx, device)
    && Signals.MerchantVerdict(tx.merchant, lib.containsFold, merchant)
    && Behavioral.Judged(hist, tx, behaviour)
  }

  /** Seven votes in ensemble order, each the verdict of its detector on the store; only
      the first may not be a number. */
  ghost predicate CastBy(lib: Library, s: M.State, tx: Transaction, votes: seq<Float>) {
    && |votes| == 7
    && ZScoreVerdict(lib, s, tx, votes[0])
    && (forall i :: 1 <= i < 7 ==> votes[i].Some?)
    && IqrVerdict(s, tx, votes[1].value)
    && PatternVerdicts(lib, M.HistoryOf(s, tx.userId), tx,
         votes[2].value, votes[3].value, votes[4].value, votes[5].value, votes[6].value)
  }

  method ZScoreVote(lib: Library, store: M.Store, tx: Transaction) returns (z: Option<real>)
    ensures ZScoreVerdict(lib, store.View(), tx, z)
    ensures z.Some? ==> InRange(0, z.value)
  {
    var hist := store.GetUserHistory(tx.userId);
    var amounts := AmountsOfCategory(hist, tx.category);
    var mean, std := Population.GlobalCategoryStats(lib.sqrt, store.history, tx.category);
    z := AmountDetectors.ZScore(lib.sqrt, amounts, AmountDetectors.Baseline(mean, std), tx.amount);
    forall order | Population.Order(order, store.View().history.Keys)
      ensures BaselineIn(lib, store.View(), tx.category, order) == AmountDetectors.Baseline(mean, std)
    {
    }
  }

  method IqrVote(store: M.Store, tx: Transaction) returns (score: real)
    ensures IqrVerdict(store.View(), tx, score) && InRange(1, score)
  {
    var hist := store.GetUserHistory(tx.userId);
    var amounts := AmountsOfCategory(hist, tx.category);
    var q1, q3 := Population.GlobalCategoryQuartiles(store.history, tx.category);
    score := AmountDetectors.IqrScore(amounts, q1, q3, tx.amount);
    AmountDetectors.IqrRange(amounts, AmountDetectors.Quartiles(q1, q3), tx.amount);
    forall order | Population.Order(order, store.View().history.Keys)
      ensures QuartilesIn(store.View(), tx.category, order) == AmountDetectors.Quartiles(q1, q3)
    {
    }
  }

  method PatternVotes(lib: Library, store: M.Store, tx: Transaction)
    returns (velocity: real, geo: real, device: real, merchant: real, behaviour: real)
    ensures PatternVerdicts(lib, M.HistoryOf(store.View(), tx.userId), tx, velocity, geo, device, merchant, behaviour)
    ensures InRange(2, velocity) && InRange(3, geo) && InRange(4, device)
    ensures InRange(5, merchant) && InRange(6, behaviour)
  {
    var hist := store.GetUserHistory(tx.userId);
    velocity := Velocity.Score(hist, tx);
    geo := Signals.GeoScore(hist, tx, lib.distance);
    device := Signals.DeviceScore(hist, tx);
    merchant := Signals.MerchantScore(tx.merchant, lib.containsFold);
    behaviour := Behavioral.Score(hist, tx);
  }

  /** The votes as the loop over the detectors collects them. */
  method CastVotes(lib: Library, store: M.Store, tx: Transaction) returns (votes: seq<Float>)
    ensures CastBy(lib, store.View(), tx, votes)
    ensures Votes(Values(votes))
  {
    var z := ZScoreVote(lib, store, tx);
    var iqr := IqrVote(store, tx);
    var velocity, geo, device, merchant, behaviour := PatternVotes(lib, store, tx);
    votes := [z, Some(iqr), Some(velocity), Some(geo), Some(device), Some(merchant), Some(behaviour)];
    SevenInRange(votes);
  }

  lemma SevenInRange(votes: seq<Float>)
    requires |votes| == 7 && (forall i :: 1 <= i < 7 ==> votes[i].Some?)
    requires votes[0].Some? ==> InRange(0, votes[0].value)
    requires InRange(1, votes[1].value) && InRange(2, votes[2].value) && InRange(3, votes[3].value)
    requires InRange(4, votes[4].value) && InRange(5, votes[5].value) && InRange(6, votes[6].value)
    ensures Votes(Values(votes))
  {
    forall i | 0 <= i < 7
      ensures InRange(i, Values(votes)[i])
    {
      assert i == 0 || i == 1 || i == 2 || i == 3 || i == 4 || i == 5 || i == 6;
    }
  }

  /** One possible answer of the ensemble; where the home country or the matching
      merchant is not unique there are several. */
  ghost predicate Answers(lib: Library, s: M.State, tx: Transaction, score: Float)
    requires lib.tr.Lawful()
  {
    exists votes :: CastBy(lib, s, tx, votes) && score == CombinedScore(lib.tr, votes, Hundredths(WEIGHTS))
  }

  /** The production ensemble combines the seven detectors' own verdicts. */
  method ScoreTransaction(lib: Library, store: M.Store, tx: Transaction) returns (risk: RiskScore)
    requires lib.tr.Lawful()
    ensures Answers(lib, store.View(), tx, risk.score)
    ensures risk.severity == SeverityFromScore(risk.score)
  {
    var votes := CastVotes(lib, store, tx);
    var score, _ := Score(lib.tr, votes, Hundredths(WEIGHTS));
    risk := score;
  }

  lemma HundredthsPositive()
    ensures |Hundredths(WEIGHTS)| == 7 && forall i :: 0 <= i < 7 ==> Hundredths(WEIGHTS)[i] > 0.0
  {
    WeightsAreTheSources();
  }

  /** The user has one earlier amount in the category and the population, users visited
      in some order, has spread. */
  predicate LoneAmount(lib: Library, s: M.State, tx: Transaction, order: seq<string>) {
    |OwnAmounts(s, tx)| == 1 && BaselineIn(lib, s, tx.category, order).std != 0.0
  }

  /** Every vote but the first is a number, so the ensemble has none exactly when the
      z-score has none. */
  lemma SpoiledByZScoreOnly(votes: seq<Float>)
    requires |votes| == 7 && forall i :: 1 <= i < 7 ==> votes[i].Some?
    ensures |Hundredths(WEIGHTS)| == 7 && (Spoiled(votes, Hundredths(WEIGHTS)) <==> votes[0].None?)
  {
    HundredthsPositive();
    assert Hundredths(WEIGHTS)[0] > 0.0;
  }

  /** The ensemble has no answer exactly when the user has one earlier amount in the
      category and the population spread is not zero. */
  lemma NoAnswerIff(lib: Library, s: M.State, tx: Transaction, score: Float, order: seq<string>)
    requires lib.tr.Lawful() && Answers(lib, s, tx, score) && Population.Order(order, s.history.Keys)
    ensures score.None? <==> LoneAmount(lib, s, tx, order)
  {
    var votes :| CastBy(lib, s, tx, votes) && score == CombinedScore(lib.tr, votes, Hundredths(WEIGHTS));
    SpoiledByZScoreOnly(votes);
    assert votes[0]
        == AmountDetectors.ZScore(lib.sqrt, OwnAmounts(s, tx), BaselineIn(lib, s, tx.category, order), tx.amount);
  }

  lemma AnswersAreUnit(lib: Library, s: M.State, tx: Transaction, score: Float)
    requires lib.tr.Lawful() && Answers(lib, s, tx, score)
    ensures InUnit(score)
  {
  }

  /** Otherwise the answer is never below 0.1 nor as much as 1, and its severity is the
      one the exact power comparison gives; without an answer the severity is low. */
  lemma AnswerIsExact(lib: Library, votes: seq<Float>)
    requires lib.tr.Lawful() && |votes| == 7 && Votes(Values(votes)) && forall i :: 1 <= i < 7 ==> votes[i].Some?
    ensures |Hundredths(WEIGHTS)| == 7
    ensures var score := CombinedScore(lib.tr, votes, Hundredths(WEIGHTS));
      if votes[0].None? then score.None? && SeverityFromScore(score) == Low
      else score.Some? && 0.1 <= score.value < 1.0 && SeverityFromScore(score) == ExactSeverity(Values(votes))
  {
    SpoiledByZScoreOnly(votes);
    ProductionBounds(lib.tr, Values(votes));
    SeverityIsExact(lib.tr, Values(votes));
  }

  /** After a first purchase in a category is recorded, it is the user's one amount
      there. */
  lemma FirstPurchaseIsLone(s: M.State, tx: Transaction, risk: RiskScore)
    requires OwnAmounts(s, tx) == []
    ensures |OwnAmounts(M.Added(s, tx, risk), tx)| == 1
  {
    var h := M.HistoryOf(s, tx.userId);
    var k := if |h| + 1 <= M.MAX_HISTORY then 0 else |h| + 1 - M.MAX_HISTORY;
    assert M.Last(M.MAX_HISTORY, h + [tx]) == h[k..] + [tx];
    assert h == h[..k] + h[k..];
    AmountsConcat(h[..k], h[k..], tx.category);
    AmountsConcat(h[k..], [tx], tx.category);
    SingleAmount(tx);
  }

  lemma SingleAmount(tx: Transaction)
    ensures AmountsOf([tx], tx.category) == [tx.amount]
  {
    assert [tx][..0] == [];
  }

  /** A store that shows it: another user once spent 20 in the category, this one 10.
      Scoring this user there again gives no answer. */
  function TwoBuyers(u: string, v: string, category: string, risk: RiskScore): seq<M.Op> {
    [M.SeedOp(Purchase("1", v, 20.0, category)), M.AddOp(Purchase("2", u, 10.0, category), risk)]
  }

  function Purchase(id: string, userId: string, amount: real, category: string): Transaction {
    Transaction(id, userId, amount, "USD", "", category, 1, "", "")
  }

  lemma TwoBuyersState(u: string, v: string, category: string, risk: RiskScore)
    requires u != v
    ensures var s := M.RunOps(M.EMPTY, TwoBuyers(u, v, category, risk));
      && s.history.Keys == {v, u}
      && s.history[v] == [Purchase("1", v, 20.0, category)] && s.history[u] == [Purchase("2", u, 10.0, category)]
  {
    var ops := TwoBuyers(u, v, category, risk);
    assert ops[..1] == [ops[0]] && ops[..1][..0] == [];
    assert M.RunOps(M.EMPTY, ops[..1]) == M.Recorded(M.EMPTY, ops[0].tx);
  }

  /** Two users with known amounts, visited one after the other. */
  lemma GatheredFromTwo(h: Population.Histories, u: string, v: string, category: string, x: real, y: real)
    requires u != v && h.Keys == {v, u}
    requires AmountsOf(h[v], category) == [x] && AmountsOf(h[u], category) == [y]
    ensures Population.Order([v, u], h.Keys) && Population.Gathered(h, [v, u], category) == [x, y]
  {
    var f := Population.AmountsOfUser(h, category);
    assert [v, u] == [v] + [u];
    FlatMapConcat(f, [v], [u]);
    FlatMapOne(f, v);
    FlatMapOne(f, u);
  }

  lemma TwoBuyersAmounts(u: string, v: string, category: string, risk: RiskScore, tx: Transaction)
    requires u != v && tx.userId == u && tx.category == category
    ensures var s := M.RunOps(M.EMPTY, TwoBuyers(u, v, category, risk));
      && Population.Order([v, u], s.history.Keys)
      && Population.Gathered(s.history, [v, u], category) == [20.0, 10.0] && OwnAmounts(s, tx) == [10.0]
  {
    TwoBuyersState(u, v, category, risk);
    SingleAmount(Purchase("1", v, 20.0, category));
    SingleAmount(Purchase("2", u, 10.0, category));
    GatheredFromTwo(M.RunOps(M.EMPTY, TwoBuyers(u, v, category, risk)).history, u, v, category, 20.0, 10.0);
  }

  lemma TwoAmountsSpread(sqrt: SquareRoot)
    requires IsRoot(sqrt)
    ensures Population.StatsOf(sqrt, [20.0, 10.0]).1 != 0.0
  {
    NoSpreadIff(sqrt, [20.0, 10.0]);
    assert [20.0, 10.0][1] != [20.0, 10.0][0];
  }

  lemma TwoBuyersHaveNoAnswer(
      lib: Library, u: string, v: string, category: string, risk: RiskScore, tx: Transaction, score: Float)
    requires lib.tr.Lawful() && IsRoot(lib.sqrt) && u != v && tx.userId == u && tx.category == category
    requires Answers(lib, M.RunOps(M.EMPTY, TwoBuyers(u, v, category, risk)), tx, score)
    ensures score.None?
  {
    TwoBuyersAmounts(u, v, category, risk, tx);
    TwoAmountsSpread(lib.sqrt);
    NoAnswerIff(lib, M.RunOps(M.EMPTY, TwoBuyers(u, v, category, risk)), tx, score, [v, u]);
  }

  /** The two amount detectors leave no choice. */
  lemma AmountVerdictsAreUnique(
      lib: Library, s: M.State, tx: Transaction, z: Option<real>, z': Option<real>, i: real, i': real)
    requires ZScoreVerdict(lib, s, tx, z) && ZScoreVerdict(lib, s, tx, z')
    requires IqrVerdict(s, tx, i) && IqrVerdict(s, tx, i')
    ensures z == z' && i == i'
  {
    var order := Population.SomeOrder(s.history.Keys);
  }
}

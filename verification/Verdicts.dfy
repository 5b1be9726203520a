/** Steps 5 and 6 of `Process`: how an ensemble score and the matched rules
    become the final score and severity (internal/pipeline/pipeline.go). */
module Verdicts {
  import opened Floats
  import opened Models
  import opened RealSums
  import opened Rules
  import opened Powers

  datatype Verdict = Verdict(risk: RiskScore, blocked: bool, review: bool, ruleIds: seq<string>) {
    /** Step 8's condition for opening a case. */
    predicate OpensCase() {
      risk.IsFlagged() || review || blocked
    }
  }

  function RuleIds(matches: seq<RuleMatch>): seq<string> {
    FlatMap((m: RuleMatch) => [m.rule.id], matches)
  }

  /** The blend of step 5, with its cap at 1. */
  function Raise(score: real, weight: real): real {
    Cap(score + Mul(weight, 1.0 - score))
  }

  function RaisedScore(score: Float, weight: real): Float {
    if score.Some? then Some(Raise(score.value, weight)) else None
  }

  function RaisedRisk(ensemble: RiskScore, weight: real): RiskScore {
    if weight > 0.0 then
      var s := RaisedScore(ensemble.score, weight);
      RiskScore(s, SeverityFromScore(s))
    else ensemble
  }

  function Override(risk: RiskScore, blocked: bool): RiskScore {
    if blocked || risk.severity == Critical then RiskScore(Some(1.0), Critical) else risk
  }

  function FinalRisk(ensemble: RiskScore, weight: real, blocked: bool): RiskScore {
    Override(RaisedRisk(ensemble, weight), blocked)
  }

  function Decide(ensemble: RiskScore, matches: seq<RuleMatch>): Verdict {
    var blocked := HasAction(Block, matches);
    Verdict(FinalRisk(ensemble, FlagTotal(matches), blocked), blocked, HasAction(Review, matches), RuleIds(matches))
  }

  /** Steps 5 and 6, overwriting score and severity as the source does. */
  method Adjust(ensemble: RiskScore, flagWeight: real, blocked: bool) returns (risk: RiskScore)
    ensures risk == FinalRisk(ensemble, flagWeight, blocked)
  {
    var score, severity := ensemble.score, ensemble.severity;
    if flagWeight > 0.0 {
      score := Plus(score, Times(Some(flagWeight), Minus(Some(1.0), score)));
      if score.Some? && score.value > 1.0 {
        score := Some(1.0);
      }
      severity := SeverityFromScore(score);
    }
    if blocked || severity == Critical {
      score := Some(1.0);
      severity := Critical;
    }
    risk := RiskScore(score, severity);
  }

  /** Steps 4 to 6, with the rule IDs that step 8 records. */
  method Judge(ensemble: RiskScore, matches: seq<RuleMatch>) returns (v: Verdict)
    ensures v == Decide(ensemble, matches)
  {
    var blocked := FindAction(Block, matches);
    var review := FindAction(Review, matches);
    var flagWeight := FlagWeight(matches);
    var risk := Adjust(ensemble, flagWeight, blocked);
    var ids := [];
    for i := 0 to |matches|
      invariant ids == RuleIds(matches[..i])
    {
      assert matches[..i + 1][..i] == matches[..i];
      ids := ids + [matches[i].rule.id];
    }
    assert matches[..|matches|] == matches;
    v := Verdict(risk, blocked, review, ids);
  }

  /** What the ensemble hands over: a probability or not-a-number, and the severity
      it implies. */
  predicate WellFormed(r: RiskScore) {
    InUnit(r.score) && r.severity == SeverityFromScore(r.score)
  }

  lemma PartOf(w: real, x: real)
    requires 0.0 <= w <= 1.0 && 0.0 <= x
    ensures 0.0 <= Mul(w, x) <= x
  {
    MulLe(0.0, w, x);
    MulLe(w, 1.0, x);
  }

  lemma Complements(s: real, w: real)
    ensures 1.0 - (s + Mul(w, 1.0 - s)) == (1.0 - s) * (1.0 - w)
  {
  }

  lemma RaiseBounds(s: real, w: real)
    requires 0.0 <= s <= 1.0 && 0.0 <= w <= 1.0
    ensures s <= Raise(s, w) <= 1.0
    ensures 1.0 - Raise(s, w) == (1.0 - s) * (1.0 - w)
  {
    PartOf(w, 1.0 - s);
    Complements(s, w);
  }

  function PositivePart(w: real): real {
    if w > 0.0 then w else 0.0
  }

  /** The final severity is the one the final score calls for, critical means exactly
      1, and the scores from 0.85 up to 1 never occur. A real ensemble score only
      rises; one that is not a number stays so unless a rule blocks. */
  lemma FinalRiskIsConsistent(e: RiskScore, w: real, blocked: bool)
    requires WellFormed(e) && w <= 1.0
    ensures var r := FinalRisk(e, w, blocked);
      && WellFormed(r)
      && (e.score.Some? ==> NotAbove(e.score, r.score))
      && (r.score.None? <==> e.score.None? && !blocked)
      && (r.severity == Critical <==> r.score == Some(1.0))
      && (AtLeast(r.score, CRITICAL_THRESHOLD) ==> r.score == Some(1.0))
  {
    if w > 0.0 && e.score.Some? {
      RaiseBounds(e.score.value, w);
    }
  }

  /** A verdict is critical exactly when a rule blocks or the ensemble has a score and
      the two independent "innocence" factors multiply to at most 0.15. */
  lemma CriticalIff(e: RiskScore, w: real, blocked: bool)
    requires WellFormed(e) && w <= 1.0
    ensures FinalRisk(e, w, blocked).severity == Critical
      <==> blocked || (e.score.Some? && (1.0 - e.score.value) * (1.0 - PositivePart(w)) <= 0.15)
  {
    if w > 0.0 && e.score.Some? {
      RaiseBounds(e.score.value, w);
    }
  }

  /** Without an ensemble score no flag weight counts: only a block or a review rule
      opens a case, and only a block gives a score. */
  lemma NoScoreSilencesFlags(e: RiskScore, matches: seq<RuleMatch>)
    requires WellFormed(e) && e.score.None?
    ensures var v := Decide(e, matches);
      && (v.OpensCase() <==> HasAction(Block, matches) || HasAction(Review, matches))
      && v.risk == if HasAction(Block, matches) then RiskScore(Some(1.0), Critical) else RiskScore(None, Low)
  {
  }

  lemma {:induction false} RuleIdsInOrder(matches: seq<RuleMatch>)
    ensures |RuleIds(matches)| == |matches|
    ensures forall k :: 0 <= k < |matches| ==> RuleIds(matches)[k] == matches[k].rule.id
  {
    if |matches| == 0 {
    } else {
      RuleIdsInOrder(matches[..|matches| - 1]);
    }
  }

  /** A score of `s` raised by flag weights that add up to `w`: the innocence factors
      multiply, and a product of at most 0.15 is as good as certainty. */
  predicate RaisedTo(s: real, w: real, final: real) {
    && (w <= 0.0 ==> final == if s >= 0.85 then 1.0 else s)
    && (0.0 < w <= 1.0 ==> 1.0 - final == if (1.0 - s) * (1.0 - w) <= 0.15 then 0.0 else (1.0 - s) * (1.0 - w))
    && (w > 1.0 ==> final == 1.0)
  }

  lemma FinalScore(e: RiskScore, w: real)
    requires WellFormed(e) && e.score.Some?
    ensures FinalRisk(e, Cap(w), false).score.Some?
    ensures RaisedTo(e.score.value, w, FinalRisk(e, Cap(w), false).score.value)
  {
    if w > 0.0 {
      RaiseBounds(e.score.value, Cap(w));
    }
  }

  /** The whole verdict on given matches: any block is final, otherwise the flag matches
      raise the score by the sum of their weights and no other match counts. */
  lemma VerdictOnMatches(e: RiskScore, matches: seq<RuleMatch>)
    requires WellFormed(e)
    ensures var v := Decide(e, matches);
      && (v.blocked <==> exists i :: 0 <= i < |matches| && matches[i].action == Block)
      && (v.review <==> exists i :: 0 <= i < |matches| && matches[i].action == Review)
      && |v.ruleIds| == |matches| && (forall k :: 0 <= k < |matches| ==> v.ruleIds[k] == matches[k].rule.id)
      && v.risk.severity == SeverityFromScore(v.risk.score)
      && (v.blocked ==> v.risk.score == Some(1.0))
      && (!v.blocked && e.score.None? ==> v.risk.score.None?)
      && (!v.blocked && e.score.Some? ==>
            v.risk.score.Some? && RaisedTo(e.score.value, FlagSum(matches), v.risk.score.value))
  {
    RuleIdsInOrder(matches);
    FlagTotalIsFlagSum(matches);
    FinalRiskIsConsistent(e, FlagTotal(matches), HasAction(Block, matches));
    if e.score.Some? {
      FinalScore(e, FlagSum(matches));
    }
  }

  /** A match that neither blocks nor flags leaves score and severity alone. */
  lemma OtherMatchesLeaveScore(e: RiskScore, before: seq<RuleMatch>, m: RuleMatch, after: seq<RuleMatch>)
    requires m.action != Block && m.action != Flag
    ensures Decide(e, before + [m] + after).risk == Decide(e, before + after).risk
  {
    SumByMiddle(FlagTerm, before, m, after);
    forall i | 0 <= i < |before + after|
      ensures (before + after)[i] in before + [m] + after
    {
      assert i < |before| ==> (before + after)[i] == (before + [m] + after)[i];
      assert i >= |before| ==> (before + after)[i] == (before + [m] + after)[i + 1];
    }
    SameBlocks(before + after, before + [m] + after, m);
  }

  lemma SameBlocks(few: seq<RuleMatch>, many: seq<RuleMatch>, m: RuleMatch)
    requires m.action != Block
    requires forall x :: x in few ==> x in many
    requires forall x :: x in many ==> x in few || x == m
    ensures HasAction(Block, few) <==> HasAction(Block, many)
  {
    if i :| 0 <= i < |few| && few[i].action == Block {
      assert few[i] in many;
    }
    if i :| 0 <= i < |many| && many[i].action == Block {
      assert many[i] in few;
    }
  }

  lemma RaiseMonotone(s: real, s': real, w: real, w': real)
    requires 0.0 <= s <= s' <= 1.0 && 0.0 <= w <= w' <= 1.0
    ensures Raise(s, w) <= Raise(s', w')
  {
    RaiseBounds(s, w);
    RaiseBounds(s', w');
    ProductLe(1.0 - s', 1.0 - s, 1.0 - w', 1.0 - w);
  }

  /** Raising the ensemble score, the flag weight or adding a block never lowers
      the final score. */
  lemma FinalRiskMonotone(e: RiskScore, e': RiskScore, w: real, w': real, b: bool, b': bool)
    requires WellFormed(e) && WellFormed(e') && w <= w' <= 1.0
    requires NotAbove(e.score, e'.score) && (b ==> b')
    ensures NotAbove(FinalRisk(e, w, b).score, FinalRisk(e', w', b').score)
  {
    FinalRiskIsConsistent(e, w, b);
    FinalRiskIsConsistent(e', w', b');
    var s, s', p, p' := e.score.value, e'.score.value, PositivePart(w), PositivePart(w');
    RaiseMonotone(s, s', p, p');
    RaiseBounds(s, p);
    RaiseBounds(s', p');
    assert RaisedRisk(e, w).score == Some(Raise(s, p));
    assert RaisedRisk(e', w').score == Some(Raise(s', p'));
  }

  /** Reordering the rules changes nothing but the order of the recorded IDs. */
  lemma VerdictIgnoresRuleOrder(m: Matcher, rules: seq<Rule>, rules': seq<Rule>, tx: Transaction, e: RiskScore)
    requires multiset(rules) == multiset(rules')
    ensures var v, v' := Decide(e, Fired(m, rules, tx)), Decide(e, Fired(m, rules', tx));
      && v.risk == v'.risk && v.blocked == v'.blocked && v.review == v'.review
      && multiset(v.ruleIds) == multiset(v'.ruleIds)
  {
    var ms, ms' := Fired(m, rules, tx), Fired(m, rules', tx);
    FiredPermutes(m, rules, rules', tx);
    HasActionPermutes(Block, ms, ms');
    HasActionPermutes(Review, ms, ms');
    SumByPermutes(FlagTerm, ms, ms');
    FlatMapPermutes((m: RuleMatch) => [m.rule.id], ms, ms');
  }

  /** A block always flags, so a case is opened exactly for a flagged score or a
      review match. */
  lemma OpensCaseIff(e: RiskScore, matches: seq<RuleMatch>)
    requires WellFormed(e)
    ensures var v := Decide(e, matches);
      v.OpensCase() <==> v.risk.IsFlagged() || HasAction(Review, matches)
  {
    FinalRiskIsConsistent(e, FlagTotal(matches), HasAction(Block, matches));
  }
}

/** The scoring transaction `Pipeline.Process` and streams of such transactions
    (internal/pipeline/pipeline.go). */
module Pipeline {
  import opened Models
  import opened Rules
  import opened Verdicts
  import MemStore
  import Cases

  /** The ensemble on a store. Its detectors walk Go maps in an arbitrary order, so two
      calls on one store may differ; the number stands for the walk a call happens to
      take. */
  type Scorer = (MemStore.State, Transaction, nat) -> Float

  /** What the pipeline consults but does not change. */
  datatype Environment = Environment(
    scorer: Scorer,
    calibrate: Float -> Float,
    matcher: Matcher)

  datatype System = System(store: MemStore.State, ledger: Cases.Ledger)

  /** One call; `cancelled` is what `ctx.Err()` reports after the duplicate check, and
      `rules` are those loaded when it evaluates them: an administrator may reload them
      between two calls. */
  datatype Call = Call(tx: Transaction, cancelled: bool, walk: nat, rules: seq<Rule>)

  datatype Outcome =
    | Duplicate
    | Cancelled
    | Scored(verdict: Verdict, calibrated: Float, caseId: Option<string>)

  function EnsembleRisk(env: Environment, s: System, call: Call): RiskScore {
    var score := env.scorer(s.store, call.tx, call.walk);
    RiskScore(score, SeverityFromScore(score))
  }

  function VerdictOn(env: Environment, s: System, call: Call): Verdict {
    Decide(EnsembleRisk(env, s, call), Fired(env.matcher, call.rules, call.tx))
  }

  /** Steps 7 and 8: persist, then open a case if the verdict asks for one. */
  function Concluded(s: System, tx: Transaction, v: Verdict): System {
    System(MemStore.Added(s.store, tx, v.risk),
           if v.OpensCase() then Cases.Opened(s.ledger, tx, v.risk, v.ruleIds) else s.ledger)
  }

  function OutcomeOf(env: Environment, s: System, call: Call): Outcome {
    if MemStore.SeenBefore(s.store, call.tx.id) then Duplicate
    else if call.cancelled then Cancelled
    else
      var v := VerdictOn(env, s, call);
      Scored(v, env.calibrate(EnsembleRisk(env, s, call).score),
             if v.OpensCase() then Some(Cases.CaseKey(call.tx.id)) else None)
  }

  function Processed(env: Environment, s: System, call: Call): System {
    if OutcomeOf(env, s, call).Scored? then Concluded(s, call.tx, VerdictOn(env, s, call)) else s
  }

  /** The verdict by the loaded rules: the ensemble scores the store as the call finds it,
      a block rule that applies is final, and otherwise the applying flag rules raise
      the score by the sum of their weights. */
  lemma VerdictByRules(env: Environment, s: System, call: Call)
    requires InUnit(env.scorer(s.store, call.tx, call.walk))
    ensures var raw := env.scorer(s.store, call.tx, call.walk);
      var v := VerdictOn(env, s, call);
      && (v.blocked <==> SomeApplies(env.matcher, call.rules, call.tx, Block))
      && (v.review <==> SomeApplies(env.matcher, call.rules, call.tx, Review))
      && v.risk.severity == SeverityFromScore(v.risk.score)
      && (v.blocked ==> v.risk.score == Some(1.0))
      && (!v.blocked && raw.None? ==> v.risk.score.None?)
      && (!v.blocked && raw.Some? ==>
            && v.risk.score.Some?
            && RaisedTo(raw.value, FlagRuleSum(env.matcher, call.rules, call.tx), v.risk.score.value))
  {
    var ms := Fired(env.matcher, call.rules, call.tx);
    VerdictOnMatches(EnsembleRisk(env, s, call), ms);
    HasActionIffApplies(env.matcher, call.rules, call.tx, Block);
    HasActionIffApplies(env.matcher, call.rules, call.tx, Review);
    FlagSumIsOfRules(env.matcher, call.rules, call.tx);
  }

  /** What a call answers: a recorded ID is a duplicate even when the call is cancelled;
      a scored call reports the calibration of the ensemble's own score, whatever the
      rules made of it, and the case that was opened. */
  lemma AnswerOf(env: Environment, s: System, call: Call)
    ensures var o := OutcomeOf(env, s, call);
      && (o.Duplicate? <==> call.tx.id != "" && call.tx.id in s.store.seen)
      && (o.Cancelled? <==> call.cancelled && !(call.tx.id != "" && call.tx.id in s.store.seen))
      && (o.Scored? ==>
            && o.calibrated == env.calibrate(env.scorer(s.store, call.tx, call.walk))
            && o.verdict == VerdictOn(env, s, call)
            && (o.caseId.Some? <==> o.verdict.risk.IsFlagged() || o.verdict.review || o.verdict.blocked)
            && (o.caseId.Some? ==> o.caseId.value == "case-" + call.tx.id))
  {
  }

  class Pipeline {
    const store: MemStore.Store
    const manager: Cases.Manager
    const engine: Engine
    const matcher: Matcher
    const scorer: Scorer
    const calibrate: Float -> Float

    constructor (store: MemStore.Store, manager: Cases.Manager, engine: Engine, matcher: Matcher,
                 scorer: Scorer, calibrate: Float -> Float)
      ensures this.store == store && this.manager == manager && this.engine == engine
      ensures this.matcher == matcher && this.scorer == scorer && this.calibrate == calibrate
    {
      this.store, this.manager, this.engine := store, manager, engine;
      this.matcher, this.scorer, this.calibrate := matcher, scorer, calibrate;
    }

    ghost function View(): System
      reads store, manager, manager.cases.Values
    {
      System(store.View(), manager.View())
    }

    function Env(): Environment {
      Environment(scorer, calibrate, matcher)
    }

    method Process(tx: Transaction, cancelled: bool, walk: nat) returns (result: Outcome)
      requires manager.Valid()
      modifies store, manager`cases
      ensures manager.Valid()
      ensures result == OutcomeOf(Env(), old(View()), Call(tx, cancelled, walk, engine.rules))
      ensures View() == Processed(Env(), old(View()), Call(tx, cancelled, walk, engine.rules))
    {
      var seen := store.HasSeen(tx.id);
      if seen {
        return Duplicate;
      }
      if cancelled {
        return Cancelled;
      }
      var raw := scorer(store.View(), tx, walk);
      var calibrated := calibrate(raw);
      var verdict := Assess(raw, tx);
      var caseId := Conclude(tx, verdict);
      result := Scored(verdict, calibrated, caseId);
    }

    /** Steps 4 to 6. */
    method Assess(raw: Float, tx: Transaction) returns (verdict: Verdict)
      ensures verdict == Decide(RiskScore(raw, SeverityFromScore(raw)), Fired(matcher, engine.rules, tx))
    {
      var matches := engine.Evaluate(matcher, tx);
      verdict := Judge(RiskScore(raw, SeverityFromScore(raw)), matches);
    }

    /** Steps 7 and 8. */
    method Conclude(tx: Transaction, verdict: Verdict) returns (caseId: Option<string>)
      requires manager.Valid()
      modifies store, manager`cases
      ensures manager.Valid()
      ensures View() == Concluded(old(View()), tx, verdict)
      ensures caseId == if verdict.OpensCase() then Some(Cases.CaseKey(tx.id)) else None
    {
      store.Add(tx, verdict.risk);
      caseId := None;
      if verdict.risk.IsFlagged() || verdict.review || verdict.blocked {
        var id := manager.Create(tx, verdict.risk, verdict.ruleIds);
        caseId := Some(id);
      }
    }
  }

  // ----- Streams of calls ---------------------------------------------------------

  function RunStream(env: Environment, s: System, calls: seq<Call>): System {
    if |calls| == 0 then s
    else Processed(env, RunStream(env, s, calls[..|calls| - 1]), calls[|calls| - 1])
  }

  lemma RunSnoc(env: Environment, s: System, calls: seq<Call>, last: Call)
    ensures RunStream(env, s, calls + [last]) == Processed(env, RunStream(env, s, calls), last)
  {
    assert (calls + [last])[..|calls|] == calls;
  }

  /** Call `i` is the first one with its ID to complete. An empty ID is never
      remembered, so each such call counts as a first. */
  predicate FirstCompletion(s: System, calls: seq<Call>, i: nat)
    requires i < |calls|
  {
    && !calls[i].cancelled
    && (calls[i].tx.id == "" ||
        (calls[i].tx.id !in s.store.seen && !CompletedIn(calls[..i], calls[i].tx.id)))
  }

  predicate CompletedIn(calls: seq<Call>, id: string) {
    exists j :: 0 <= j < |calls| && calls[j].tx.id == id && !calls[j].cancelled
  }

  function FirstCompletions(s: System, calls: seq<Call>): seq<Call> {
    if |calls| == 0 then []
    else
      var n := |calls| - 1;
      FirstCompletions(s, calls[..n]) + (if FirstCompletion(s, calls, n) then [calls[n]] else [])
  }

  /** The seen set after a stream: what was there plus every completed ID, however
      long ago its transaction fell out of the bounded history. */
  lemma {:induction false} SeenAfterStream(env: Environment, s: System, calls: seq<Call>, id: string)
    requires id != ""
    ensures MemStore.SeenBefore(RunStream(env, s, calls).store, id)
      <==> MemStore.SeenBefore(s.store, id) || CompletedIn(calls, id)
  {
    if |calls| == 0 {
    } else {
      var n := |calls| - 1;
      SeenAfterStream(env, s, calls[..n], id);
    }
  }

  /** Duplicates and cancelled calls leave no trace: the whole state after a stream is
      the state after its first completions alone, each with the walk it took and the
      rules it met. */
  lemma {:induction false} DuplicatesLeaveNoTrace(env: Environment, s: System, calls: seq<Call>)
    ensures RunStream(env, s, calls) == RunStream(env, s, FirstCompletions(s, calls))
  {
    if |calls| == 0 {
    } else {
      var n := |calls| - 1;
      DuplicatesLeaveNoTrace(env, s, calls[..n]);
      var kept := FirstCompletions(s, calls[..n]);
      if calls[n].tx.id != "" {
        SeenAfterStream(env, s, calls[..n], calls[n].tx.id);
      }
      if FirstCompletion(s, calls, n) {
        RunSnoc(env, s, kept, calls[n]);
      } else {
        assert kept + [] == kept;
      }
    }
  }

  /** At-least-once delivery is harmless: replaying calls whose IDs have already
      completed changes nothing at all. */
  lemma {:induction false} RedeliveryIsIdempotent(env: Environment, s: System, calls: seq<Call>, again: seq<Call>)
    requires forall i :: 0 <= i < |again| ==> again[i].tx.id != "" && CompletedIn(calls, again[i].tx.id)
    ensures RunStream(env, s, calls + again) == RunStream(env, s, calls)
  {
    if |again| == 0 {
      assert calls + again == calls;
    } else {
      var n := |again| - 1;
      RedeliveryIsIdempotent(env, s, calls, again[..n]);
      assert calls + again == (calls + again[..n]) + [again[n]];
      RunSnoc(env, s, calls + again[..n], again[n]);
      SeenAfterStream(env, s, calls, again[n].tx.id);
    }
  }

  /** Every first completion is scored once; nothing else is counted. */
  lemma {:induction false} TotalScoredCountsFirsts(env: Environment, s: System, calls: seq<Call>)
    ensures RunStream(env, s, calls).store.totalScored == s.store.totalScored + |FirstCompletions(s, calls)|
  {
    if |calls| == 0 {
    } else {
      var n := |calls| - 1;
      TotalScoredCountsFirsts(env, s, calls[..n]);
      if calls[n].tx.id != "" {
        SeenAfterStream(env, s, calls[..n], calls[n].tx.id);
      }
    }
  }

  // ----- Conservation over streams ------------------------------------------------

  /** The ensemble returns a probability or not-a-number. */
  ghost predicate Probability(env: Environment) {
    forall st, tx, walk :: InUnit(env.scorer(st, tx, walk))
  }

  lemma VerdictIsConsistent(env: Environment, s: System, call: Call)
    requires Probability(env)
    ensures var e, r := EnsembleRisk(env, s, call), VerdictOn(env, s, call).risk;
      && WellFormed(r) && MemStore.Consistent(r)
      && (e.score.Some? ==> NotAbove(e.score, r.score))
      && (r.severity == Critical <==> r.score == Some(1.0))
      && (AtLeast(r.score, CRITICAL_THRESHOLD) ==> r.score == Some(1.0))
  {
    var ms := Fired(env.matcher, call.rules, call.tx);
    FinalRiskIsConsistent(EnsembleRisk(env, s, call), FlagTotal(ms), HasAction(Block, ms));
  }

  lemma {:induction false} StreamConserves(env: Environment, s: System, calls: seq<Call>)
    requires Probability(env) && MemStore.Conserved(s.store)
    ensures MemStore.Conserved(RunStream(env, s, calls).store)
  {
    if |calls| == 0 {
    } else {
      var n := |calls| - 1;
      StreamConserves(env, s, calls[..n]);
      var before := RunStream(env, s, calls[..n]);
      VerdictIsConsistent(env, before, calls[n]);
      MemStore.AddConserves(before.store, calls[n].tx, VerdictOn(env, before, calls[n]).risk);
    }
  }

  /** What the first completions of a stream record: each its transaction, with the risk
      of its final verdict. */
  function AddsOf(env: Environment, s: System, calls: seq<Call>): seq<MemStore.Op> {
    if |calls| == 0 then []
    else
      var n := |calls| - 1;
      AddsOf(env, s, calls[..n]) +
      (if FirstCompletion(s, calls, n) then [MemStore.AddOp(calls[n].tx, VerdictAt(env, s, calls, n).risk)] else [])
  }

  /** The store after a stream is what those Adds make of it: histories, seen set and
      all three counters. */
  lemma {:induction false} StreamIsAdds(env: Environment, s: System, calls: seq<Call>)
    ensures RunStream(env, s, calls).store == MemStore.RunOps(s.store, AddsOf(env, s, calls))
  {
    if |calls| == 0 {
    } else {
      var n := |calls| - 1;
      StreamIsAdds(env, s, calls[..n]);
      if calls[n].tx.id != "" {
        SeenAfterStream(env, s, calls[..n], calls[n].tx.id);
      }
      var front := AddsOf(env, s, calls[..n]);
      if FirstCompletion(s, calls, n) {
        var op := MemStore.AddOp(calls[n].tx, VerdictAt(env, s, calls, n).risk);
        assert (front + [op])[..|front|] == front;
      } else {
        assert front + [] == front;
      }
    }
  }

  // ----- Which cases a stream opens -------------------------------------------------

  /** Call `i` is the first completion of `id` and its verdict asks for a case. */
  ghost predicate OpensAt(env: Environment, s: System, calls: seq<Call>, i: nat, id: string)
    requires i < |calls|
  {
    FirstCompletion(s, calls, i) && calls[i].tx.id == id && VerdictAt(env, s, calls, i).OpensCase()
  }

  function VerdictAt(env: Environment, s: System, calls: seq<Call>, i: nat): Verdict
    requires i < |calls|
  {
    VerdictOn(env, RunStream(env, s, calls[..i]), calls[i])
  }

  function NewCase(tx: Transaction, v: Verdict): Cases.CaseData {
    var priority := Cases.PriorityFromSeverity(v.risk.severity);
    Cases.CaseData(Cases.Facts(tx, v.risk, v.ruleIds, priority), Cases.Open, "", None, [])
  }

  predicate CaseIs(l: Cases.Ledger, id: string, c: Cases.CaseData) {
    Cases.CaseKey(id) in l.cases && l.cases[Cases.CaseKey(id)] == c
  }

  /** The last call touches the case of `id` exactly when it opens it. */
  lemma LastCall(env: Environment, s: System, calls: seq<Call>, id: string)
    requires |calls| > 0 && id != "" && !MemStore.SeenBefore(s.store, id)
    ensures var n, key := |calls| - 1, Cases.CaseKey(id);
      var l, l' := RunStream(env, s, calls[..n]).ledger, RunStream(env, s, calls).ledger;
      if OpensAt(env, s, calls, n, id) then CaseIs(l', id, NewCase(calls[n].tx, VerdictAt(env, s, calls, n)))
      else (key in l'.cases <==> key in l.cases) && (key in l.cases ==> l'.cases[key] == l.cases[key])
  {
    var n := |calls| - 1;
    SeenAfterStream(env, s, calls[..n], id);
    if calls[n].tx.id != id && Cases.CaseKey(calls[n].tx.id) == Cases.CaseKey(id) {
      Cases.CaseKeyInjective(calls[n].tx.id, id);
    }
  }

  /** Openings among the earlier calls are openings of the shorter stream. */
  lemma OpensAtPrefix(env: Environment, s: System, calls: seq<Call>, i: nat, id: string)
    requires i + 1 < |calls|
    ensures OpensAt(env, s, calls, i, id) <==> OpensAt(env, s, calls[..|calls| - 1], i, id)
    ensures VerdictAt(env, s, calls, i) == VerdictAt(env, s, calls[..|calls| - 1], i)
    ensures OpensAt(env, s, calls, i, id) ==> CompletedIn(calls[..|calls| - 1], id)
  {
    var front := calls[..|calls| - 1];
    assert front[..i] == calls[..i] && front[i] == calls[i];
  }

  lemma {:induction false} OpeningLasts(env: Environment, s: System, calls: seq<Call>, i: nat, id: string)
    requires id != "" && !MemStore.SeenBefore(s.store, id)
    requires i < |calls| && OpensAt(env, s, calls, i, id)
    ensures CaseIs(RunStream(env, s, calls).ledger, id, NewCase(calls[i].tx, VerdictAt(env, s, calls, i)))
  {
    var n := |calls| - 1;
    LastCall(env, s, calls, id);
    if i < n {
      OpensAtPrefix(env, s, calls, i, id);
      OpeningLasts(env, s, calls[..n], i, id);
    }
  }

  lemma {:induction false} CaseWasOpened(env: Environment, s: System, calls: seq<Call>, id: string) returns (i: nat)
    requires id != "" && !MemStore.SeenBefore(s.store, id) && Cases.CaseKey(id) !in s.ledger.cases
    requires Cases.CaseKey(id) in RunStream(env, s, calls).ledger.cases
    ensures i < |calls| && OpensAt(env, s, calls, i, id)
  {
    var n := |calls| - 1;
    LastCall(env, s, calls, id);
    if OpensAt(env, s, calls, n, id) {
      i := n;
    } else {
      i := CaseWasOpened(env, s, calls[..n], id);
      OpensAtPrefix(env, s, calls, i, id);
    }
  }

  /** A transaction unknown at the start ends with a case exactly when its first
      completed call was judged to deserve one, and that case records that verdict. */
  lemma CaseIffVerdict(env: Environment, s: System, calls: seq<Call>, id: string)
    requires id != "" && !MemStore.SeenBefore(s.store, id) && Cases.CaseKey(id) !in s.ledger.cases
    ensures Cases.CaseKey(id) in RunStream(env, s, calls).ledger.cases
      <==> (exists i :: 0 <= i < |calls| && OpensAt(env, s, calls, i, id))
    ensures forall i :: 0 <= i < |calls| && OpensAt(env, s, calls, i, id) ==>
      CaseIs(RunStream(env, s, calls).ledger, id, NewCase(calls[i].tx, VerdictAt(env, s, calls, i)))
  {
    if Cases.CaseKey(id) in RunStream(env, s, calls).ledger.cases {
      var i := CaseWasOpened(env, s, calls, id);
    }
    forall i | 0 <= i < |calls| && OpensAt(env, s, calls, i, id)
      ensures CaseIs(RunStream(env, s, calls).ledger, id, NewCase(calls[i].tx, VerdictAt(env, s, calls, i)))
    {
      OpeningLasts(env, s, calls, i, id);
    }
  }

  /** The priority of a case tells its score: critical is 1, high at least 0.7, medium
      at least 0.5, and low was not flagged. */
  lemma PriorityTellsScore(env: Environment, s: System, call: Call)
    requires Probability(env)
    ensures var c := NewCase(call.tx, VerdictOn(env, s, call)).facts;
      && (c.priority == Cases.CriticalPriority <==> c.risk.score == Some(1.0))
      && (c.priority == Cases.HighPriority <==> c.risk.score.Some? && 0.7 <= c.risk.score.value < 1.0)
      && (c.priority == Cases.MediumPriority <==> c.risk.score.Some? && 0.5 <= c.risk.score.value < 0.7)
      && (c.priority == Cases.LowPriority <==> !c.risk.IsFlagged())
  {
    VerdictIsConsistent(env, s, call);
  }
}

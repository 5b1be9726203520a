/** When a `Process` call can put a fresh case in the place of an existing one, and an
    analyst's verdict is lost (internal/pipeline/pipeline.go, internal/cases/cases.go). */
module Replacement {
  import opened Models
  import opened FiniteSets
  import opened Concurrency
  import opened Overlaps
  import MemStore
  import Cases

  /** What `id` has in store: the calls that can still open its case, and the case. */
  ghost function Claims(w: World, id: string): nat {
    |Openers(w, id)| + (if Cases.CaseKey(id) in w.ledger.cases then 1 else 0)
  }

  lemma OpenersOnlyLeave(w: World, step: Step, id: string)
    requires Enabled(w, step) && !step.Begin?
    ensures Openers(Next(w, step), id) <= Openers(w, id)
    ensures step.OpenCase? ==> step.c !in Openers(Next(w, step), id)
  {
    var w' := Next(w, step);
    forall c | c in Openers(w', id)
      ensures c in Openers(w, id)
    {
      assert c in w.flights && CanOpen(w, c, id);
    }
  }

  /** Without new calls the claims on a case never grow. */
  lemma ClaimsShrink(w: World, step: Step, id: string)
    requires Enabled(w, step) && !step.Begin?
    ensures Claims(Next(w, step), id) <= Claims(w, id)
  {
    var w' := Next(w, step);
    var key := Cases.CaseKey(id);
    OpenersOnlyLeave(w, step, id);
    if key in w'.ledger.cases && key !in w.ledger.cases {
      assert step.OpenCase?;
      Cases.CaseKeyInjective(w.flights[step.c].tx.id, id);
      assert step.c in Openers(w, id);
      SubsetIsSmaller(Openers(w', id), Openers(w, id) - {step.c});
    } else {
      SubsetIsSmaller(Openers(w', id), Openers(w, id));
    }
  }

  lemma {:induction false} ClaimsBounded(w: World, steps: seq<Step>, id: string)
    requires Runs(w, steps) && NoBegin(steps)
    ensures Claims(After(w, steps), id) <= Claims(w, id)
  {
    if |steps| == 0 {
    } else {
      var n := |steps| - 1;
      ClaimsBounded(w, steps[..n], id);
      ClaimsShrink(After(w, steps[..n]), steps[n], id);
    }
  }

  /** The next step of call `c` puts a fresh case in the place of an existing one. */
  predicate AboutToReplace(w: World, c: nat, id: string) {
    && Enabled(w, OpenCase(c))
    && w.flights[c].tx.id == id && w.flights[c].phase.v.OpensCase()
    && Cases.CaseKey(id) in w.ledger.cases
  }

  /** And the existing one carries an analyst's verdict. */
  predicate AboutToLoseVerdict(w: World, c: nat, id: string) {
    AboutToReplace(w, c, id) && Cases.IsVerdict(w.ledger.cases[Cases.CaseKey(id)].status)
  }

  ghost predicate CanReplace(w: World, id: string) {
    exists steps, c: nat :: Runs(w, steps) && NoBegin(steps) && AboutToReplace(After(w, steps), c, id)
  }

  ghost predicate CanLoseVerdict(w: World, id: string) {
    exists steps, c: nat :: Runs(w, steps) && NoBegin(steps) && AboutToLoseVerdict(After(w, steps), c, id)
  }

  /** The step an analyst takes to confirm the case of `id`. */
  function Confirm(id: string): Step {
    Analyst(Cases.Resolve(Cases.CaseKey(id), Cases.Confirmed, "analyst", "", 0))
  }

  /** A judged opener records its transaction; the others keep waiting. */
  lemma BringToDoor(w: World, c: nat, id: string) returns (steps: seq<Step>)
    requires Unscored(w, id) == {} && c in Openers(w, id)
    ensures Runs(w, steps) && NoBegin(steps)
    ensures var w' := After(w, steps);
      && w'.ledger == w.ledger && Openers(w', id) == Openers(w, id) && Unscored(w', id) == {}
      && c in w'.flights && w'.flights[c].phase.Recorded?
  {
    forall d | d in Openers(w, id)
      ensures w.flights[d].phase.Judged? || w.flights[d].phase.Recorded?
    {
      assert d !in Unscored(w, id);
    }
    if w.flights[c].phase.Judged? {
      steps := OneStep(w, Persist(c));
      var w' := Next(w, Persist(c));
      assert Openers(w', id) == Openers(w, id);
      assert Unscored(w', id) <= Unscored(w, id);
    } else {
      steps := [];
    }
  }

  /** What can be lost after some steps can be lost. */
  lemma CanLoseLater(w: World, steps: seq<Step>, id: string)
    requires Runs(w, steps) && NoBegin(steps) && CanLoseVerdict(After(w, steps), id)
    ensures CanLoseVerdict(w, id)
  {
    var later, c: nat :| Runs(After(w, steps), later) && NoBegin(later)
      && AboutToLoseVerdict(After(After(w, steps), later), c, id);
    RunsConcat(w, steps, later);
    assert AboutToLoseVerdict(After(w, steps + later), c, id);
  }

  /** The analyst confirms the case, then a call that can still open it comes in. */
  lemma ConfirmThenReplace(w: World, id: string)
    requires Unscored(w, id) == {} && Openers(w, id) != {} && Cases.CaseKey(id) in w.ledger.cases
    ensures CanLoseVerdict(w, id)
  {
    var confirm := OneStep(w, Confirm(id));
    var w' := After(w, confirm);
    assert Openers(w', id) == Openers(w, id) && Unscored(w', id) == Unscored(w, id);
    var c :| c in Openers(w', id);
    var steps := BringToDoor(w', c, id);
    assert AboutToLoseVerdict(After(w', steps), c, id);
    CanLoseLater(w, confirm, id);
  }

  /** With two claims on a case, let one come true, have the analyst confirm it, and
      send in the other. */
  lemma TwoClaimsLoseVerdict(w: World, id: string)
    requires Claims(w, id) >= 2
    ensures CanLoseVerdict(w, id)
  {
    var judged := ScoreAll(w, id);
    var w' := After(w, judged);
    if Cases.CaseKey(id) in w'.ledger.cases {
      ConfirmThenReplace(w', id);
    } else {
      var first := OpenOne(w', id);
      ConfirmThenReplace(After(w', first), id);
      CanLoseLater(w', first, id);
    }
    CanLoseLater(w, judged, id);
  }

  lemma OpenOne(w: World, id: string) returns (steps: seq<Step>)
    requires Unscored(w, id) == {} && |Openers(w, id)| >= 2
    ensures Runs(w, steps) && NoBegin(steps)
    ensures var w' := After(w, steps);
      Cases.CaseKey(id) in w'.ledger.cases && Openers(w', id) != {} && Unscored(w', id) == {}
  {
    var c :| c in Openers(w, id);
    var front := BringToDoor(w, c, id);
    var w1 := After(w, front);
    var last := OneStep(w1, OpenCase(c));
    RunsConcat(w, front, last);
    var w2 := Next(w1, OpenCase(c));
    assert Openers(w2, id) == Openers(w1, id) - {c};
    assert |Openers(w1, id) - {c}| == |Openers(w1, id)| - 1;
    assert Unscored(w2, id) == Unscored(w1, id);
    steps := front + last;
  }

  /** Exactly when a case can be replaced by the calls in flight, and then also one an
      analyst has resolved: when at least two of these claim its key - calls that can
      still open it, and the case itself. */
  lemma ReplacementIff(w: World, id: string)
    ensures CanReplace(w, id) <==> Claims(w, id) >= 2
    ensures CanLoseVerdict(w, id) <==> Claims(w, id) >= 2
  {
    if Claims(w, id) >= 2 {
      TwoClaimsLoseVerdict(w, id);
      var steps, c: nat :| Runs(w, steps) && NoBegin(steps) && AboutToLoseVerdict(After(w, steps), c, id);
      assert AboutToReplace(After(w, steps), c, id);
    }
    if CanReplace(w, id) {
      var steps, c: nat :| Runs(w, steps) && NoBegin(steps) && AboutToReplace(After(w, steps), c, id);
      ClaimsBounded(w, steps, id);
      var now := After(w, steps);
      assert c in Openers(now, id);
      SubsetIsSmaller({c}, Openers(now, id));
    }
    if CanLoseVerdict(w, id) {
      var steps, c: nat :| Runs(w, steps) && NoBegin(steps) && AboutToLoseVerdict(After(w, steps), c, id);
      assert AboutToReplace(After(w, steps), c, id);
    }
  }

  /** What the replacement does to the case: open again, undated and without notes. */
  lemma ReplacedCaseIsBlank(w: World, c: nat, id: string)
    requires AboutToReplace(w, c, id)
    ensures var l := Next(w, OpenCase(c)).ledger;
      && Cases.CaseKey(id) in l.cases
      && l.cases[Cases.CaseKey(id)].status == Cases.Open
      && l.cases[Cases.CaseKey(id)].resolvedAt == None && l.cases[Cases.CaseKey(id)].notes == []
  {
  }

  // ----- And with new calls arriving ---------------------------------------------------

  ghost predicate CanEverReplace(w: World, id: string) {
    exists steps, c: nat :: Runs(w, steps) && AboutToReplace(After(w, steps), c, id)
  }

  /** Once its transaction is recorded no step at all, new calls included, adds a claim. */
  lemma RecordedClaimsShrink(w: World, step: Step, id: string)
    requires Enabled(w, step) && MemStore.SeenBefore(w.store, id)
    ensures Claims(Next(w, step), id) <= Claims(w, id) && MemStore.SeenBefore(Next(w, step).store, id)
  {
    if step.Begin? {
      assert Openers(Next(w, step), id) == Openers(w, id);
    } else {
      ClaimsShrink(w, step, id);
    }
  }

  lemma {:induction false} RecordedClaimsBounded(w: World, steps: seq<Step>, id: string)
    requires Runs(w, steps) && MemStore.SeenBefore(w.store, id)
    ensures Claims(After(w, steps), id) <= Claims(w, id) && MemStore.SeenBefore(After(w, steps).store, id)
  {
    if |steps| == 0 {
    } else {
      var n := |steps| - 1;
      RecordedClaimsBounded(w, steps[..n], id);
      RecordedClaimsShrink(After(w, steps[..n]), steps[n], id);
    }
  }

  /** Two deliveries of a transaction not yet recorded can lose a verdict, from every
      state, an empty one included. */
  lemma DeliveriesCanLoseVerdict(w: World, c: nat, d: nat, tx: Transaction)
    requires c != d && c !in w.flights && d !in w.flights && !MemStore.SeenBefore(w.store, tx.id)
    ensures Runs(w, TwoDeliveries(c, d, tx))
    ensures CanLoseVerdict(After(w, TwoDeliveries(c, d, tx)), tx.id)
  {
    TwoDeliveriesRun(w, c, d, tx);
    var w2 := After(w, TwoDeliveries(c, d, tx));
    assert {c, d} <= Openers(w2, tx.id);
    SubsetIsSmaller({c, d}, Openers(w2, tx.id));
    ReplacementIff(w2, tx.id);
  }

  lemma UnrecordedCanBeReplaced(w: World, id: string)
    requires !MemStore.SeenBefore(w.store, id)
    ensures CanEverReplace(w, id)
  {
    var n := SomeBound(w.flights.Keys);
    var two := TwoDeliveries(n, n + 1, Delivery(id));
    DeliveriesCanLoseVerdict(w, n, n + 1, Delivery(id));
    var w' := After(w, two);
    var steps, c: nat :| Runs(w', steps) && NoBegin(steps) && AboutToLoseVerdict(After(w', steps), c, id);
    RunsConcat(w, two, steps);
    assert AboutToReplace(After(w, two + steps), c, id);
  }

  lemma RecordedNeedsTwoClaims(w: World, id: string)
    requires MemStore.SeenBefore(w.store, id) && CanEverReplace(w, id)
    ensures Claims(w, id) >= 2
  {
    var steps, c: nat :| Runs(w, steps) && AboutToReplace(After(w, steps), c, id);
    RecordedClaimsBounded(w, steps, id);
    assert c in Openers(After(w, steps), id);
    SubsetIsSmaller({c}, Openers(After(w, steps), id));
  }

  /** A case is safe for good exactly when its transaction is recorded and at most one
      claim is left. */
  lemma EverReplacedIff(w: World, id: string)
    ensures CanEverReplace(w, id) <==> Claims(w, id) >= 2 || !MemStore.SeenBefore(w.store, id)
  {
    ReplacementIff(w, id);
    if Claims(w, id) >= 2 {
      var steps, c: nat :| Runs(w, steps) && NoBegin(steps) && AboutToReplace(After(w, steps), c, id);
    } else if !MemStore.SeenBefore(w.store, id) {
      UnrecordedCanBeReplaced(w, id);
    } else if CanEverReplace(w, id) {
      RecordedNeedsTwoClaims(w, id);
    }
  }
}
/** Overlapping `Process` calls with one ID: how often they can add it
    (internal/pipeline/pipeline.go, internal/storage/storage.go). */
module Overlaps {
  import opened Models
  import opened FiniteSets
  import opened Concurrency
  import MemStore

  /** The calls in flight that can still add `id`. */
  ghost function Live(w: World, id: string): set<nat> {
    set c | c in w.flights && CanAdd(w, c, id)
  }

  predicate CanAdd(w: World, c: nat, id: string)
    requires c in w.flights
  {
    var f := w.flights[c];
    f.tx.id == id &&
    (f.phase.Passed? || f.phase.Judged? || (f.phase.Started? && !MemStore.SeenBefore(w.store, id)))
  }

  predicate NoBegin(steps: seq<Step>) {
    forall i :: 0 <= i < |steps| ==> !steps[i].Begin?
  }

  lemma LiveOnlyLeave(w: World, step: Step, id: string)
    requires Enabled(w, step) && !step.Begin?
    ensures Live(Next(w, step), id) <= Live(w, id)
    ensures step.Persist? ==> step.c !in Live(Next(w, step), id)
  {
    var w' := Next(w, step);
    forall c | c in Live(w', id)
      ensures c in Live(w, id)
    {
      assert c in w.flights && CanAdd(w, c, id);
    }
  }

  lemma LiveShrinks(w: World, step: Step, id: string)
    requires Enabled(w, step) && !step.Begin?
    ensures Occurrences(id, Next(w, step).adds) + |Live(Next(w, step), id)|
         <= Occurrences(id, w.adds) + |Live(w, id)|
  {
    var w' := Next(w, step);
    LiveOnlyLeave(w, step, id);
    if step.Persist? && w.flights[step.c].tx.id == id {
      SubsetIsSmaller(Live(w', id), Live(w, id) - {step.c});
    } else {
      SubsetIsSmaller(Live(w', id), Live(w, id));
    }
  }

  lemma {:induction false} AddsBoundedByLive(w: World, steps: seq<Step>, id: string)
    requires Runs(w, steps) && NoBegin(steps)
    ensures Occurrences(id, After(w, steps).adds) + |Live(After(w, steps), id)|
         <= Occurrences(id, w.adds) + |Live(w, id)|
  {
    if |steps| == 0 {
    } else {
      var n := |steps| - 1;
      AddsBoundedByLive(w, steps[..n], id);
      LiveShrinks(After(w, steps[..n]), steps[n], id);
    }
  }

  lemma {:induction false} RunsConcat(w: World, a: seq<Step>, b: seq<Step>)
    requires Runs(w, a) && Runs(After(w, a), b)
    ensures Runs(w, a + b) && After(w, a + b) == After(After(w, a), b)
  {
    if |b| == 0 {
      assert a + b == a;
    } else {
      var n := |b| - 1;
      RunsConcat(w, a, b[..n]);
      assert (a + b)[..|a| + n] == a + b[..n];
    }
  }

  lemma PrependStep(w: World, step: Step, rest: seq<Step>)
    requires Enabled(w, step) && Runs(Next(w, step), rest)
    ensures Runs(w, [step] + rest) && After(w, [step] + rest) == After(Next(w, step), rest)
  {
    var one := OneStep(w, step);
    RunsConcat(w, one, rest);
  }

  lemma OneStep(w: World, step: Step) returns (steps: seq<Step>)
    requires Enabled(w, step)
    ensures steps == [step] && Runs(w, steps) && After(w, steps) == Next(w, step)
  {
    steps := [step];
    AfterOne(w, [], step);
    assert [] + [step] == [step];
  }

  /** Those of the live calls that have not been scored yet. */
  ghost function Unscored(w: World, id: string): set<nat> {
    set c | c in Live(w, id) && !w.flights[c].phase.Judged?
  }

  ghost function Unchecked(w: World, id: string): set<nat> {
    set c | c in Unscored(w, id) && w.flights[c].phase.Started?
  }

  /** The calls in flight that can still open the case of `id`: those not yet judged,
      and those judged to deserve one. */
  ghost function Openers(w: World, id: string): set<nat> {
    set c | c in w.flights && CanOpen(w, c, id)
  }

  predicate CanOpen(w: World, c: nat, id: string)
    requires c in w.flights
  {
    var f := w.flights[c];
    f.tx.id == id &&
    match f.phase
    case Started => !MemStore.SeenBefore(w.store, id)
    case Passed => true
    case Judged(v) => v.OpensCase()
    case Recorded(v) => v.OpensCase()
    case TurnedAway => false
    case Completed => false
  }

  /** The next step towards a verdict that asks for a case. */
  function TowardsVerdict(w: World, c: nat): Step
    requires c in w.flights
  {
    if w.flights[c].phase.Started? then Check(c) else Score(c, Some(1.0), [])
  }

  lemma TowardsVerdictKeeps(w: World, c: nat, id: string)
    requires c in Unscored(w, id)
    ensures Enabled(w, TowardsVerdict(w, c)) && !TowardsVerdict(w, c).Begin?
    ensures var w' := Next(w, TowardsVerdict(w, c));
      && w'.adds == w.adds && w'.ledger == w.ledger
      && Live(w', id) == Live(w, id) && Openers(w', id) == Openers(w, id)
      && (w.flights[c].phase.Started? ==>
            Unscored(w', id) == Unscored(w, id) && Unchecked(w', id) == Unchecked(w, id) - {c})
      && (!w.flights[c].phase.Started? ==> Unscored(w', id) == Unscored(w, id) - {c})
  {
  }

  /** Let every live call pass its check and be scored before any of them adds. */
  lemma {:induction false} ScoreAll(w: World, id: string) returns (steps: seq<Step>)
    ensures Runs(w, steps) && NoBegin(steps)
    ensures var w' := After(w, steps);
      && w'.adds == w.adds && w'.ledger == w.ledger
      && Live(w', id) == Live(w, id) && Openers(w', id) == Openers(w, id) && Unscored(w', id) == {}
    decreases Unscored(w, id), Unchecked(w, id)
  {
    if Unscored(w, id) == {} {
      steps := [];
    } else {
      var c :| c in Unscored(w, id);
      var step := TowardsVerdict(w, c);
      TowardsVerdictKeeps(w, c, id);
      var rest := ScoreAll(Next(w, step), id);
      PrependStep(w, step, rest);
      steps := [step] + rest;
    }
  }

  /** Once scored, no call looks at the seen set again: they all add. */
  lemma {:induction false} PersistAll(w: World, id: string) returns (steps: seq<Step>)
    requires Unscored(w, id) == {}
    ensures Runs(w, steps) && NoBegin(steps)
    ensures Occurrences(id, After(w, steps).adds) == Occurrences(id, w.adds) + |Live(w, id)|
    decreases |Live(w, id)|
  {
    if Live(w, id) == {} {
      steps := [];
    } else {
      var c :| c in Live(w, id);
      assert c !in Unscored(w, id);
      var w' := Next(w, Persist(c));
      assert forall d :: d in Live(w, id) ==> d !in Unscored(w, id) && w.flights[d].phase.Judged?;
      assert Live(w', id) == Live(w, id) - {c};
      assert Unscored(w', id) == {};
      var rest := PersistAll(w', id);
      PrependStep(w, Persist(c), rest);
      steps := [Persist(c)] + rest;
    }
  }

  lemma AllLiveCanAdd(w: World, id: string) returns (steps: seq<Step>)
    ensures Runs(w, steps) && NoBegin(steps)
    ensures Occurrences(id, After(w, steps).adds) == Occurrences(id, w.adds) + |Live(w, id)|
  {
    var a := ScoreAll(w, id);
    var b := PersistAll(After(w, a), id);
    RunsConcat(w, a, b);
    steps := a + b;
  }

  /** Exactly when overlapping calls break idempotency: the calls in flight can add
      `id` more than once if and only if two of them have yet to be turned away. */
  lemma AtMostOnceIff(w: World, id: string)
    ensures (forall steps :: Runs(w, steps) && NoBegin(steps) ==>
               Occurrences(id, After(w, steps).adds) <= Occurrences(id, w.adds) + 1)
       <==> |Live(w, id)| <= 1
  {
    forall steps | Runs(w, steps) && NoBegin(steps)
      ensures Occurrences(id, After(w, steps).adds) <= Occurrences(id, w.adds) + |Live(w, id)|
    {
      AddsBoundedByLive(w, steps, id);
    }
    var steps := AllLiveCanAdd(w, id);
  }

  // ----- And with new calls arriving ---------------------------------------------------

  /** Two deliveries of one transaction. */
  function TwoDeliveries(c: nat, d: nat, tx: Transaction): seq<Step> {
    [Begin(c, tx), Begin(d, tx)]
  }

  function Delivery(id: string): Transaction {
    Transaction(id, "", 0.0, "", "", "", 0, "", "")
  }

  lemma TwoDeliveriesRun(w: World, c: nat, d: nat, tx: Transaction)
    requires c != d && c !in w.flights && d !in w.flights
    ensures Runs(w, TwoDeliveries(c, d, tx))
    ensures After(w, TwoDeliveries(c, d, tx)) == Next(Next(w, Begin(c, tx)), Begin(d, tx))
  {
    var one := OneStep(w, Begin(c, tx));
    var two := OneStep(Next(w, Begin(c, tx)), Begin(d, tx));
    RunsConcat(w, one, two);
    assert one + two == TwoDeliveries(c, d, tx);
  }

  /** Once `id` is recorded no step at all, new calls included, makes room for an add. */
  lemma RecordedLiveShrinks(w: World, step: Step, id: string)
    requires Enabled(w, step) && MemStore.SeenBefore(w.store, id)
    ensures MemStore.SeenBefore(Next(w, step).store, id)
    ensures Occurrences(id, Next(w, step).adds) + |Live(Next(w, step), id)|
         <= Occurrences(id, w.adds) + |Live(w, id)|
  {
    if step.Begin? {
      assert Live(Next(w, step), id) == Live(w, id);
    } else {
      LiveShrinks(w, step, id);
    }
  }

  lemma {:induction false} RecordedAddsBounded(w: World, steps: seq<Step>, id: string)
    requires Runs(w, steps) && MemStore.SeenBefore(w.store, id)
    ensures MemStore.SeenBefore(After(w, steps).store, id)
    ensures Occurrences(id, After(w, steps).adds) + |Live(After(w, steps), id)|
         <= Occurrences(id, w.adds) + |Live(w, id)|
  {
    if |steps| == 0 {
    } else {
      var n := |steps| - 1;
      RecordedAddsBounded(w, steps[..n], id);
      RecordedLiveShrinks(After(w, steps[..n]), steps[n], id);
    }
  }

  lemma UnrecordedCanAddTwice(w: World, id: string) returns (steps: seq<Step>)
    requires !MemStore.SeenBefore(w.store, id)
    ensures Runs(w, steps) && Occurrences(id, After(w, steps).adds) >= Occurrences(id, w.adds) + 2
  {
    var n := SomeBound(w.flights.Keys);
    var two := TwoDeliveries(n, n + 1, Delivery(id));
    TwoDeliveriesRun(w, n, n + 1, Delivery(id));
    var w' := After(w, two);
    assert {n, n + 1} <= Live(w', id);
    SubsetIsSmaller({n, n + 1}, Live(w', id));
    var rest := AllLiveCanAdd(w', id);
    RunsConcat(w, two, rest);
    steps := two + rest;
  }

  /** `Process` is idempotent on an ID for good, whatever calls still arrive, exactly
      when the ID is recorded and at most one call in flight has yet to be turned away. */
  lemma EverAtMostOnceIff(w: World, id: string)
    ensures (forall steps :: Runs(w, steps) ==> Occurrences(id, After(w, steps).adds) <= Occurrences(id, w.adds) + 1)
       <==> MemStore.SeenBefore(w.store, id) && |Live(w, id)| <= 1
  {
    if !MemStore.SeenBefore(w.store, id) {
      var steps := UnrecordedCanAddTwice(w, id);
    } else {
      forall steps | Runs(w, steps)
        ensures Occurrences(id, After(w, steps).adds) <= Occurrences(id, w.adds) + |Live(w, id)|
      {
        RecordedAddsBounded(w, steps, id);
      }
      var steps := AllLiveCanAdd(w, id);
    }
  }
}

/** Many `Process` calls in flight at once. `SeenBefore`, `Add` and `Create` lock
    separately (internal/storage/storage.go, internal/cases/cases.go), so other
    calls and analysts may act between any two of them. Each critical section is
    one step here; scores and matched rules are arbitrary. */
module Concurrency {
  import opened Models
  import opened Rules
  import opened Verdicts
  import MemStore
  import Cases
  import P = Pipeline

  /** Where a call stands between its critical sections. */
  datatype Phase =
    | Started              // before SeenBefore
    | Passed               // not a duplicate; about to score
    | Judged(v: Verdict)   // scored; about to Add
    | Recorded(v: Verdict) // added; about to open a case if the verdict asks for one
    | TurnedAway           // duplicate or cancelled
    | Completed

  datatype Flight = Flight(tx: Transaction, phase: Phase)

  /** `adds` and `opens` log the transaction IDs of every Add and Create made by a
      call, in order. */
  datatype World = World(
    store: MemStore.State,
    ledger: Cases.Ledger,
    flights: map<nat, Flight>,
    adds: seq<string>,
    opens: seq<string>)

  datatype Step =
    | Begin(c: nat, tx: Transaction)
    | Check(c: nat)
    | Abort(c: nat)
    | Score(c: nat, raw: Float, matches: seq<RuleMatch>)
    | Persist(c: nat)
    | OpenCase(c: nat)
    | Analyst(op: Cases.Op)

  predicate Enabled(w: World, step: Step) {
    match step
    case Begin(c, tx) => c !in w.flights
    case Check(c) => c in w.flights && w.flights[c].phase.Started?
    case Abort(c) => c in w.flights && w.flights[c].phase.Passed?
    case Score(c, raw, matches) => c in w.flights && w.flights[c].phase.Passed? && InUnit(raw)
    case Persist(c) => c in w.flights && w.flights[c].phase.Judged?
    case OpenCase(c) => c in w.flights && w.flights[c].phase.Recorded?
    case Analyst(op) => !op.Create?
  }

  function Advance(w: World, c: nat, p: Phase): map<nat, Flight>
    requires c in w.flights
  {
    w.flights[c := w.flights[c].(phase := p)]
  }

  function Next(w: World, step: Step): World
    requires Enabled(w, step)
  {
    match step
    case Begin(c, tx) => w.(flights := w.flights[c := Flight(tx, Started)])
    case Check(c) =>
      var seen := MemStore.SeenBefore(w.store, w.flights[c].tx.id);
      w.(flights := Advance(w, c, if seen then TurnedAway else Passed))
    case Abort(c) => w.(flights := Advance(w, c, TurnedAway))
    case Score(c, raw, matches) =>
      w.(flights := Advance(w, c, Judged(Decide(RiskScore(raw, SeverityFromScore(raw)), matches))))
    case Persist(c) =>
      var f := w.flights[c];
      w.(store := MemStore.Added(w.store, f.tx, f.phase.v.risk),
         flights := Advance(w, c, Recorded(f.phase.v)),
         adds := w.adds + [f.tx.id])
    case OpenCase(c) =>
      var f := w.flights[c];
      if f.phase.v.OpensCase() then
        w.(ledger := Cases.Opened(w.ledger, f.tx, f.phase.v.risk, f.phase.v.ruleIds),
           flights := Advance(w, c, Completed),
           opens := w.opens + [f.tx.id])
      else
        w.(flights := Advance(w, c, Completed))
    case Analyst(op) => w.(ledger := Cases.Apply(w.ledger, op))
  }

  ghost predicate Runs(w: World, steps: seq<Step>) {
    if |steps| == 0 then true
    else
      var n := |steps| - 1;
      Runs(w, steps[..n]) && Enabled(After(w, steps[..n]), steps[n])
  }

  ghost function After(w: World, steps: seq<Step>): World {
    if |steps| == 0 then w
    else
      var n := |steps| - 1;
      var before := After(w, steps[..n]);
      if Enabled(before, steps[n]) then Next(before, steps[n]) else before
  }

  function Occurrences(id: string, log: seq<string>): nat {
    multiset(log)[id]
  }

  // ----- A call alone is `Process` ------------------------------------------------

  /** The critical sections of one call run back to back. */
  function Solo(env: P.Environment, w: World, c: nat, call: P.Call): seq<Step> {
    if MemStore.SeenBefore(w.store, call.tx.id) then [Begin(c, call.tx), Check(c)]
    else if call.cancelled then [Begin(c, call.tx), Check(c), Abort(c)]
    else
      [Begin(c, call.tx), Check(c),
       Score(c, env.scorer(w.store, call.tx, call.walk), Fired(env.matcher, call.rules, call.tx)),
       Persist(c), OpenCase(c)]
  }

  lemma AfterOne(w: World, steps: seq<Step>, step: Step)
    requires Runs(w, steps) && Enabled(After(w, steps), step)
    ensures Runs(w, steps + [step]) && After(w, steps + [step]) == Next(After(w, steps), step)
  {
    assert (steps + [step])[..|steps|] == steps;
  }

  lemma SoloBegins(w: World, c: nat, tx: Transaction)
    requires c !in w.flights
    ensures var two := [Begin(c, tx), Check(c)];
      Runs(w, two) && After(w, two) == Next(Next(w, Begin(c, tx)), Check(c))
  {
    AfterOne(w, [], Begin(c, tx));
    assert [] + [Begin(c, tx)] == [Begin(c, tx)];
    AfterOne(w, [Begin(c, tx)], Check(c));
    assert [Begin(c, tx)] + [Check(c)] == [Begin(c, tx), Check(c)];
  }

  lemma SoloScored(env: P.Environment, w: World, c: nat, call: P.Call)
    requires P.Probability(env) && c !in w.flights
    requires !MemStore.SeenBefore(w.store, call.tx.id) && !call.cancelled
    ensures Runs(w, Solo(env, w, c, call))
    ensures var w' := After(w, Solo(env, w, c, call));
      var v := P.VerdictOn(env, P.System(w.store, w.ledger), call);
      P.System(w'.store, w'.ledger) == P.Concluded(P.System(w.store, w.ledger), call.tx, v)
  {
    var tx, two := call.tx, [Begin(c, call.tx), Check(c)];
    SoloBegins(w, c, tx);
    var score := Score(c, env.scorer(w.store, tx, call.walk), Fired(env.matcher, call.rules, tx));
    AfterOne(w, two, score);
    AfterOne(w, two + [score], Persist(c));
    AfterOne(w, two + [score] + [Persist(c)], OpenCase(c));
    assert two + [score] + [Persist(c)] + [OpenCase(c)] == Solo(env, w, c, call);
  }

  /** Uninterrupted, the steps of a call are exactly the sequential `Process`. */
  lemma SoloIsProcess(env: P.Environment, w: World, c: nat, call: P.Call)
    requires P.Probability(env) && c !in w.flights
    ensures Runs(w, Solo(env, w, c, call))
    ensures var w' := After(w, Solo(env, w, c, call));
      P.System(w'.store, w'.ledger) == P.Processed(env, P.System(w.store, w.ledger), call)
  {
    SoloBegins(w, c, call.tx);
    if !MemStore.SeenBefore(w.store, call.tx.id) {
      if call.cancelled {
        var two := [Begin(c, call.tx), Check(c)];
        AfterOne(w, two, Abort(c));
        assert two + [Abort(c)] == Solo(env, w, c, call);
      } else {
        SoloScored(env, w, c, call);
      }
    }
  }
}

/** What every interleaving of calls and analysts keeps, and exactly-once processing when
    calls with one ID do not overlap (internal/pipeline/pipeline.go,
    internal/storage/storage.go, internal/cases/cases.go). */
module Interleavings {
  import opened Models
  import opened Rules
  import opened Verdicts
  import opened Concurrency
  import MemStore
  import Cases

  predicate Fresh(w: World) {
    w.flights == map[] && w.adds == [] && w.opens == [] && w.ledger.cases == map[]
  }

  /** Holds with no assumption on overlapping calls. */
  ghost predicate Inv(w: World) {
    && (forall c :: c in w.flights && w.flights[c].phase.Judged? ==>
          WellFormed(w.flights[c].phase.v.risk))
    && (forall c :: c in w.flights && w.flights[c].phase.Recorded? && w.flights[c].tx.id != "" ==>
          w.flights[c].tx.id in w.store.seen)
    && (forall id :: id in w.opens && id != "" ==> id in w.store.seen)
    && (forall id :: id in w.adds && id != "" ==> id in w.store.seen)
    && (forall key :: key in w.ledger.cases ==> exists id :: id in w.opens && key == Cases.CaseKey(id))
    && Cases.VerdictsDated(w.ledger)
    && MemStore.Conserved(w.store)
  }

  lemma JudgedIsWellFormed(raw: Float, matches: seq<RuleMatch>)
    requires InUnit(raw)
    ensures WellFormed(Decide(RiskScore(raw, SeverityFromScore(raw)), matches).risk)
  {
    FinalRiskIsConsistent(RiskScore(raw, SeverityFromScore(raw)), FlagTotal(matches), HasAction(Block, matches));
  }

  lemma InvPersist(w: World, c: nat)
    requires Inv(w) && Enabled(w, Persist(c))
    ensures Inv(Next(w, Persist(c)))
  {
    MemStore.AddConserves(w.store, w.flights[c].tx, w.flights[c].phase.v.risk);
  }

  lemma InvOpenCase(w: World, c: nat)
    requires Inv(w) && Enabled(w, OpenCase(c))
    ensures Inv(Next(w, OpenCase(c)))
  {
    var w' := Next(w, OpenCase(c));
    forall key | key in w'.ledger.cases
      ensures exists id :: id in w'.opens && key == Cases.CaseKey(id)
    {
      if key in w.ledger.cases {
        var id :| id in w.opens && key == Cases.CaseKey(id);
        assert id in w'.opens;
      } else {
        assert w.flights[c].tx.id in w'.opens;
      }
    }
  }

  lemma InvStep(w: World, step: Step)
    requires Inv(w) && Enabled(w, step)
    ensures Inv(Next(w, step))
  {
    match step
    case Score(c, raw, matches) =>
      JudgedIsWellFormed(raw, matches);
    case Persist(c) =>
      InvPersist(w, c);
    case OpenCase(c) =>
      InvOpenCase(w, c);
    case _ =>
  }

  /** In every reachable state of every interleaving: each case the pipeline opened
      belongs to a recorded transaction, each verdict is dated, and the counters
      agree. */
  lemma {:induction false} EveryRunKeepsInv(w: World, steps: seq<Step>)
    requires Fresh(w) && MemStore.Conserved(w.store) && Runs(w, steps)
    ensures Inv(After(w, steps))
  {
    if |steps| == 0 {
    } else {
      var n := |steps| - 1;
      EveryRunKeepsInv(w, steps[..n]);
      InvStep(After(w, steps[..n]), steps[n]);
    }
  }

  lemma CasesBelongToRecordedTransactions(w: World, steps: seq<Step>, id: string)
    requires Fresh(w) && MemStore.Conserved(w.store) && Runs(w, steps) && id != ""
    ensures Cases.CaseKey(id) in After(w, steps).ledger.cases ==> MemStore.SeenBefore(After(w, steps).store, id)
    ensures id in After(w, steps).opens ==> MemStore.SeenBefore(After(w, steps).store, id)
  {
    EveryRunKeepsInv(w, steps);
    var w' := After(w, steps);
    if Cases.CaseKey(id) in w'.ledger.cases {
      var id' :| id' in w'.opens && Cases.CaseKey(id) == Cases.CaseKey(id');
      Cases.CaseKeyInjective(id, id');
    }
  }

  // ----- Exactly once, when calls with one ID do not overlap ------------------------

  predicate Active(p: Phase) {
    !p.TurnedAway? && !p.Completed?
  }

  /** No two calls in flight carry the same nonempty ID. */
  predicate Apart(w: World) {
    forall c, d :: c in w.flights && d in w.flights && c != d
      && Active(w.flights[c].phase) && Active(w.flights[d].phase) && w.flights[c].tx.id != ""
      ==> w.flights[c].tx.id != w.flights[d].tx.id
  }

  ghost predicate AlwaysApart(w: World, steps: seq<Step>) {
    if |steps| == 0 then Apart(w)
    else AlwaysApart(w, steps[..|steps| - 1]) && Apart(After(w, steps))
  }

  /** `init` is the seen set the run started from. */
  ghost predicate Once(w: World, init: set<string>) {
    && (forall id :: id != "" ==> LoggedOnce(w, init, id))
    && (forall c :: c in w.flights && w.flights[c].tx.id != "" ==> FlightAgrees(w, w.flights[c]))
  }

  /** One add and one opening at most; seen exactly when known before or added. */
  ghost predicate LoggedOnce(w: World, init: set<string>, id: string) {
    && Occurrences(id, w.adds) <= 1 && Occurrences(id, w.opens) <= Occurrences(id, w.adds)
    && (id in w.store.seen <==> id in init || Occurrences(id, w.adds) == 1)
    && (id in init ==> Occurrences(id, w.adds) == 0)
  }

  /** The logs say of a call's transaction what its phase implies. */
  ghost predicate FlightAgrees(w: World, f: Flight) {
    && (f.phase.Passed? || f.phase.Judged? ==> f.tx.id !in w.store.seen)
    && (f.phase.Recorded? ==> Occurrences(f.tx.id, w.adds) == 1 && Occurrences(f.tx.id, w.opens) == 0)
    && (f.phase.Completed? ==> Occurrences(f.tx.id, w.adds) == 1)
  }

  lemma OnceStep(w: World, step: Step, init: set<string>)
    requires Once(w, init) && Apart(w) && Enabled(w, step)
    ensures Once(Next(w, step), init)
  {
    if step.Persist? {
      OncePersist(w, step.c, init);
    } else if step.OpenCase? {
      OnceOpen(w, step.c, init);
    } else {
      var w' := Next(w, step);
      forall x | x != ""
        ensures LoggedOnce(w', init, x)
      {
        assert LoggedOnce(w, init, x);
      }
      forall d | d in w'.flights && w'.flights[d].tx.id != ""
        ensures FlightAgrees(w', w'.flights[d])
      {
        assert d in w.flights ==> w.flights[d].tx.id == w'.flights[d].tx.id && FlightAgrees(w, w.flights[d]);
      }
    }
  }

  lemma OncePersist(w: World, c: nat, init: set<string>)
    requires Once(w, init) && Apart(w) && Enabled(w, Persist(c))
    ensures Once(Next(w, Persist(c)), init)
  {
    var w' := Next(w, Persist(c));
    var id := w.flights[c].tx.id;
    forall x | x != ""
      ensures LoggedOnce(w', init, x)
    {
      assert LoggedOnce(w, init, x);
      Appended(x, w.adds, id);
    }
    forall d | d in w'.flights && w'.flights[d].tx.id != ""
      ensures FlightAgrees(w', w'.flights[d])
    {
      assert FlightAgrees(w, w.flights[d]) && LoggedOnce(w, init, w.flights[d].tx.id);
      Appended(w.flights[d].tx.id, w.adds, id);
    }
  }

  lemma OnceOpen(w: World, c: nat, init: set<string>)
    requires Once(w, init) && Apart(w) && Enabled(w, OpenCase(c))
    ensures Once(Next(w, OpenCase(c)), init)
  {
    var w' := Next(w, OpenCase(c));
    var id := w.flights[c].tx.id;
    assert id != "" ==> FlightAgrees(w, w.flights[c]);
    forall x | x != ""
      ensures LoggedOnce(w', init, x)
    {
      assert LoggedOnce(w, init, x);
      Appended(x, w.opens, id);
    }
    forall d | d in w'.flights && w'.flights[d].tx.id != ""
      ensures FlightAgrees(w', w'.flights[d])
    {
      assert FlightAgrees(w, w.flights[d]);
      Appended(w.flights[d].tx.id, w.opens, id);
    }
  }

  lemma Appended(x: string, log: seq<string>, id: string)
    ensures Occurrences(x, log + [id]) == Occurrences(x, log) + (if x == id then 1 else 0)
  {
  }

  /** Exactly once: whatever the interleaving, if calls with one ID never overlap
      then each nonempty ID is added at most once and its case opened at most once;
      an ID is seen exactly when it was known at the start or added once; and a
      completed call's ID has been added. */
  lemma {:induction false} ExactlyOnce(w: World, steps: seq<Step>)
    requires Fresh(w) && Runs(w, steps) && AlwaysApart(w, steps)
    ensures Once(After(w, steps), w.store.seen)
  {
    if |steps| == 0 {
    } else {
      var n := |steps| - 1;
      ExactlyOnce(w, steps[..n]);
      ApartBefore(w, steps);
      OnceStep(After(w, steps[..n]), steps[n], w.store.seen);
    }
  }

  lemma ApartBefore(w: World, steps: seq<Step>)
    requires |steps| > 0 && AlwaysApart(w, steps)
    ensures Apart(After(w, steps[..|steps| - 1]))
  {
    if |steps| > 1 {
      assert steps[..|steps| - 1][..|steps| - 2] == steps[..|steps| - 2];
    }
  }

  /** No step of a call ever touches a case that already exists: an analyst's
      verdict is never reset. */
  lemma CallsNeverResetCases(w: World, steps: seq<Step>, step: Step, key: string)
    requires Fresh(w) && MemStore.Conserved(w.store) && Runs(w, steps) && AlwaysApart(w, steps)
    requires Enabled(After(w, steps), step) && !step.Analyst?
    requires key in After(w, steps).ledger.cases && key != Cases.CaseKey("")
    ensures var l, l' := After(w, steps).ledger, Next(After(w, steps), step).ledger;
      key in l'.cases && l'.cases[key] == l.cases[key]
  {
    EveryRunKeepsInv(w, steps);
    ExactlyOnce(w, steps);
    var now := After(w, steps);
    if step.OpenCase? && key == Cases.CaseKey(now.flights[step.c].tx.id) {
      var id :| id in now.opens && key == Cases.CaseKey(id);
      Cases.CaseKeyInjective(id, now.flights[step.c].tx.id);
      assert false;
    }
  }

  /** Along any later stretch of such a run an existing case only gains notes and
      verdicts; its facts, notes and resolution time stay. */
  lemma {:induction false} CasesOnlyEvolve(w: World, steps: seq<Step>, k: nat, key: string)
    requires Fresh(w) && MemStore.Conserved(w.store) && Runs(w, steps) && AlwaysApart(w, steps)
    requires k <= |steps| && key != Cases.CaseKey("") && key in After(w, steps[..k]).ledger.cases
    ensures key in After(w, steps).ledger.cases
    ensures Cases.Evolves(After(w, steps[..k]).ledger.cases[key], After(w, steps).ledger.cases[key])
  {
    var n := |steps| - 1;
    if k == |steps| {
      assert steps[..k] == steps;
    } else {
      assert steps[..n][..k] == steps[..k];
      CasesOnlyEvolve(w, steps[..n], k, key);
      if !steps[n].Analyst? {
        CallsNeverResetCases(w, steps[..n], steps[n], key);
      }
    }
  }
}

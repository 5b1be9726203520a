/** The analysts' case ledger (internal/cases/cases.go) and the status check of
    its HTTP handler (internal/api/cases_handlers.go). */
module Cases {
  import opened Models

  datatype Status = Open | InReview | Confirmed | FalsePositive | Escalated | AutoResolved

  datatype Priority = LowPriority | MediumPriority | HighPriority | CriticalPriority

  datatype Note = Note(author: string, text: string)

  /** A case as a value. `facts` is fixed when the case is opened. */
  datatype Facts = Facts(tx: Transaction, risk: RiskScore, ruleIds: seq<string>, priority: Priority)

  datatype CaseData = CaseData(
    facts: Facts,
    status: Status,
    assignedTo: string,
    resolvedAt: Option<int>,
    notes: seq<Note>)

  /** One call `go h(c)` of the `hook`-th registered hook on the case `id`. */
  datatype Firing = Firing(hook: nat, id: string)

  datatype Ledger = Ledger(cases: map<string, CaseData>, hooks: nat, fired: seq<Firing>)

  const EMPTY: Ledger := Ledger(map[], 0, [])

  function PriorityFromSeverity(sev: Severity): Priority {
    match sev
    case Critical => CriticalPriority
    case High => HighPriority
    case Medium => MediumPriority
    case _ => LowPriority
  }

  function CaseKey(txId: string): string {
    "case-" + txId
  }

  lemma CaseKeyInjective(a: string, b: string)
    requires CaseKey(a) == CaseKey(b)
    ensures a == b
  {
    assert CaseKey(a)[5..] == a && CaseKey(b)[5..] == b;
  }

  function Opened(l: Ledger, tx: Transaction, risk: RiskScore, ruleIds: seq<string>): Ledger {
    l.(cases := l.cases[CaseKey(tx.id) :=
      CaseData(Facts(tx, risk, ruleIds, PriorityFromSeverity(risk.severity)), Open, "", None, [])])
  }

  function Assigned(l: Ledger, id: string, analyst: string): Ledger {
    if id !in l.cases then l
    else l.(cases := l.cases[id := l.cases[id].(status := InReview, assignedTo := analyst)])
  }

  /** One firing per hook registered so far, in registration order. */
  function Firings(hooks: nat, id: string): (r: seq<Firing>)
    ensures |r| == hooks && forall k :: 0 <= k < hooks ==> r[k] == Firing(k, id)
  {
    seq(hooks, k requires 0 <= k < hooks => Firing(k, id))
  }

  function Resolved(l: Ledger, id: string, status: Status, analyst: string, note: string, now: int): Ledger {
    if id !in l.cases then l
    else
      var c := l.cases[id];
      l.(cases := l.cases[id := c.(
           status := status,
           assignedTo := analyst,
           resolvedAt := Some(now),
           notes := if note == "" then c.notes else c.notes + [Note(analyst, note)])],
         fired := if status == Confirmed then l.fired + Firings(l.hooks, id) else l.fired)
  }

  function Noted(l: Ledger, id: string, author: string, text: string): Ledger {
    if id !in l.cases then l
    else l.(cases := l.cases[id := l.cases[id].(notes := l.cases[id].notes + [Note(author, text)])])
  }

  /** The statuses the resolve endpoint accepts. */
  predicate IsVerdict(status: Status) {
    status == Confirmed || status == FalsePositive || status == Escalated
  }

  class Case {
    const facts: Facts
    var status: Status
    var assignedTo: string
    var resolvedAt: Option<int>
    var notes: seq<Note>

    constructor (facts: Facts)
      ensures this.facts == facts
      ensures Data() == CaseData(facts, Open, "", None, [])
    {
      this.facts := facts;
      status, assignedTo, resolvedAt, notes := Open, "", None, [];
    }

    function Data(): CaseData
      reads this
    {
      CaseData(facts, status, assignedTo, resolvedAt, notes)
    }
  }

  lemma ValuesAfter(m: map<string, Case>, id: string, c: Case)
    ensures m[id := c].Values <= m.Values + {c}
  {
    forall x | x in m[id := c].Values
      ensures x in m.Values + {c}
    {
      var k :| k in m[id := c] && m[id := c][k] == x;
      assert k != id ==> m[k] == x;
    }
  }

  class Manager {
    var cases: map<string, Case>
    var hooks: nat
    var fired: seq<Firing>

    /** No two keys share a case object. */
    ghost predicate Valid()
      reads this
    {
      forall i, j :: i in cases && j in cases && i != j ==> cases[i] != cases[j]
    }

    ghost function View(): Ledger
      reads this, cases.Values
    {
      Ledger(map id | id in cases :: cases[id].Data(), hooks, fired)
    }

    constructor ()
      ensures Valid() && View() == EMPTY
    {
      cases, hooks, fired := map[], 0, [];
    }

    method OnResolve()
      requires Valid()
      modifies this`hooks
      ensures Valid() && View() == old(View()).(hooks := old(hooks) + 1)
    {
      hooks := hooks + 1;
    }

    method Create(tx: Transaction, risk: RiskScore, ruleIds: seq<string>) returns (id: string)
      requires Valid()
      modifies this`cases
      ensures Valid() && id == CaseKey(tx.id)
      ensures View() == Opened(old(View()), tx, risk, ruleIds)
      ensures fresh(cases.Values - old(cases.Values))
    {
      id := CaseKey(tx.id);
      ghost var before := cases;
      var c := new Case(Facts(tx, risk, ruleIds, PriorityFromSeverity(risk.severity)));
      cases := cases[id := c];
      ValuesAfter(before, id, c);
      assert View().cases == old(View()).cases[id := c.Data()];
    }

    method Assign(id: string, analyst: string) returns (ok: bool)
      requires Valid()
      modifies cases.Values
      ensures Valid() && ok == (id in old(cases))
      ensures View() == Assigned(old(View()), id, analyst)
    {
      if id !in cases {
        return false;
      }
      var c := cases[id];
      c.status := InReview;
      c.assignedTo := analyst;
      return true;
    }

    method Resolve(id: string, status: Status, analyst: string, note: string, now: int) returns (ok: bool)
      requires Valid()
      modifies this`fired, cases.Values
      ensures Valid() && ok == (id in old(cases))
      ensures View() == Resolved(old(View()), id, status, analyst, note, now)
    {
      if id !in cases {
        return false;
      }
      var c := cases[id];
      c.status := status;
      c.assignedTo := analyst;
      c.resolvedAt := Some(now);
      if note != "" {
        c.notes := c.notes + [Note(analyst, note)];
      }
      assert View().cases == old(View()).cases[id := c.Data()];
      if status == Confirmed {
        FireHooks(id);
      }
      return true;
    }

    method FireHooks(id: string)
      modifies this`fired
      ensures fired == old(fired) + Firings(hooks, id)
    {
      for k := 0 to hooks
        invariant fired == old(fired) + Firings(hooks, id)[..k]
      {
        fired := fired + [Firing(k, id)];
      }
    }

    method AddNote(id: string, author: string, text: string) returns (ok: bool)
      requires Valid()
      modifies cases.Values
      ensures Valid() && ok == (id in old(cases))
      ensures View() == Noted(old(View()), id, author, text)
    {
      if id !in cases {
        return false;
      }
      var c := cases[id];
      c.notes := c.notes + [Note(author, text)];
      return true;
    }

    /** The counters of the dashboard, by a walk over the map in any order. */
    method Stats() returns (total: nat, byStatus: map<Status, nat>, byPriority: map<Priority, nat>,
        confirmedFraud: nat, falsePositives: nat)
      requires Valid()
      ensures total == |cases|
      ensures Tallies(byStatus, Statuses(View().cases))
      ensures Tallies(byPriority, Priorities(View().cases))
      ensures confirmedFraud == Count(byStatus, Confirmed) && falsePositives == Count(byStatus, FalsePositive)
    {
      total, byStatus, byPriority := 0, map[], map[];
      confirmedFraud, falsePositives := 0, 0;
      var todo := cases.Keys;
      ghost var ss: map<string, Status> := map[];
      ghost var ps: map<string, Priority> := map[];
      while todo != {}
        invariant todo <= cases.Keys && total + |todo| == |cases.Keys|
        invariant ss.Keys == ps.Keys == cases.Keys - todo
        invariant forall id :: id in ss ==> ss[id] == cases[id].status && ps[id] == cases[id].facts.priority
        invariant Tallies(byStatus, ss) && Tallies(byPriority, ps)
        invariant confirmedFraud == Count(byStatus, Confirmed) && falsePositives == Count(byStatus, FalsePositive)
        decreases |todo|
      {
        var id :| id in todo;
        var c := cases[id];
        TalliesGrow(byStatus, ss, id, c.status);
        TalliesGrow(byPriority, ps, id, c.facts.priority);
        total := total + 1;
        byStatus := Bumped(byStatus, c.status);
        byPriority := Bumped(byPriority, c.facts.priority);
        if c.status == Confirmed {
          confirmedFraud := confirmedFraud + 1;
        }
        if c.status == FalsePositive {
          falsePositives := falsePositives + 1;
        }
        todo := todo - {id};
        ss := ss[id := c.status];
        ps := ps[id := c.facts.priority];
      }
      assert ss == Statuses(View().cases) && ps == Priorities(View().cases);
      assert |cases| == |cases.Keys|;
    }
  }

  function Count<K>(m: map<K, nat>, k: K): nat {
    if k in m then m[k] else 0
  }

  function Bumped<K(!new)>(m: map<K, nat>, k: K): (r: map<K, nat>)
    ensures forall j :: Count(r, j) == Count(m, j) + (if j == k then 1 else 0)
  {
    m[k := Count(m, k) + 1]
  }

  function Statuses(cases: map<string, CaseData>): map<string, Status> {
    map id | id in cases :: cases[id].status
  }

  function Priorities(cases: map<string, CaseData>): map<string, Priority> {
    map id | id in cases :: cases[id].facts.priority
  }

  ghost function KeysWith<K>(m: map<string, K>, k: K): set<string> {
    set id | id in m && m[id] == k
  }

  /** `counts` holds, for every value, the number of keys that carry it. */
  ghost predicate Tallies<K(!new)>(counts: map<K, nat>, m: map<string, K>) {
    forall k :: TallyAt(counts, m, k)
  }

  ghost predicate TallyAt<K>(counts: map<K, nat>, m: map<string, K>, k: K) {
    Count(counts, k) == |KeysWith(m, k)|
  }

  lemma KeysWithGrow<K>(m: map<string, K>, id: string, v: K, k: K)
    requires id !in m
    ensures |KeysWith(m[id := v], k)| == |KeysWith(m, k)| + (if v == k then 1 else 0)
  {
    if v == k {
      assert KeysWith(m[id := v], k) == KeysWith(m, k) + {id};
    } else {
      assert KeysWith(m[id := v], k) == KeysWith(m, k);
    }
  }

  lemma TalliesGrow<K(!new)>(counts: map<K, nat>, m: map<string, K>, id: string, v: K)
    requires id !in m && Tallies(counts, m)
    ensures Tallies(Bumped(counts, v), m[id := v])
  {
    var counts', m' := Bumped(counts, v), m[id := v];
    forall k
      ensures TallyAt(counts', m', k)
    {
      assert TallyAt(counts, m, k);
      KeysWithGrow(m, id, v, k);
    }
  }

  /** The per-status and the per-priority counts each add up to the number of cases. */
  lemma CountsAddUp(cases: map<string, CaseData>)
    ensures var m := Statuses(cases);
      |cases| == |KeysWith(m, Open)| + |KeysWith(m, InReview)| + |KeysWith(m, Confirmed)|
        + |KeysWith(m, FalsePositive)| + |KeysWith(m, Escalated)| + |KeysWith(m, AutoResolved)|
    ensures var m := Priorities(cases);
      |cases| == |KeysWith(m, LowPriority)| + |KeysWith(m, MediumPriority)|
        + |KeysWith(m, HighPriority)| + |KeysWith(m, CriticalPriority)|
  {
    StatusesAddUp(Statuses(cases));
    PrioritiesAddUp(Priorities(cases));
    assert Statuses(cases).Keys == cases.Keys == Priorities(cases).Keys;
    assert |cases| == |cases.Keys|;
  }

  lemma {:induction false} StatusesAddUp(m: map<string, Status>)
    ensures |m.Keys| == |KeysWith(m, Open)| + |KeysWith(m, InReview)| + |KeysWith(m, Confirmed)|
      + |KeysWith(m, FalsePositive)| + |KeysWith(m, Escalated)| + |KeysWith(m, AutoResolved)|
    decreases m.Keys
  {
    if m.Keys == {} {
      assert forall s :: KeysWith(m, s) == {};
    } else {
      var id :| id in m.Keys;
      var rest := m - {id};
      StatusesAddUp(rest);
      assert rest[id := m[id]] == m && rest.Keys == m.Keys - {id};
      forall s {
        KeysWithGrow(rest, id, m[id], s);
      }
    }
  }

  lemma {:induction false} PrioritiesAddUp(m: map<string, Priority>)
    ensures |m.Keys| == |KeysWith(m, LowPriority)| + |KeysWith(m, MediumPriority)|
      + |KeysWith(m, HighPriority)| + |KeysWith(m, CriticalPriority)|
    decreases m.Keys
  {
    if m.Keys == {} {
      assert forall p :: KeysWith(m, p) == {};
    } else {
      var id :| id in m.Keys;
      var rest := m - {id};
      PrioritiesAddUp(rest);
      assert rest[id := m[id]] == m && rest.Keys == m.Keys - {id};
      forall p {
        KeysWithGrow(rest, id, m[id], p);
      }
    }
  }

  // ----- Runs of case operations --------------------------------------------------

  datatype Op =
    | Create(tx: Transaction, risk: RiskScore, ruleIds: seq<string>)
    | Assign(id: string, analyst: string)
    | Resolve(id: string, status: Status, analyst: string, note: string, now: int)
    | AddNote(id: string, author: string, text: string)
    | OnResolve

  /** The resolve endpoint answers 400 for any other status and changes nothing. */
  function Apply(l: Ledger, op: Op): Ledger {
    match op
    case Create(tx, risk, ruleIds) => Opened(l, tx, risk, ruleIds)
    case Assign(id, analyst) => if analyst == "" then l else Assigned(l, id, analyst)
    case Resolve(id, status, analyst, note, now) =>
      if IsVerdict(status) then Resolved(l, id, status, analyst, note, now) else l
    case AddNote(id, author, text) => if text == "" then l else Noted(l, id, author, text)
    case OnResolve => l.(hooks := l.hooks + 1)
  }

  function Run(l: Ledger, ops: seq<Op>): Ledger {
    if |ops| == 0 then l else Apply(Run(l, ops[..|ops| - 1]), ops[|ops| - 1])
  }

  /** A case with a verdict carries its resolution time; the store never holds an
      auto-resolved case. */
  ghost predicate VerdictsDated(l: Ledger) {
    forall id :: id in l.cases ==>
      (IsVerdict(l.cases[id].status) ==> l.cases[id].resolvedAt.Some?) && l.cases[id].status != AutoResolved
  }

  lemma {:induction false} RunKeepsVerdictsDated(ops: seq<Op>)
    ensures VerdictsDated(Run(EMPTY, ops))
  {
    if |ops| == 0 {
    } else {
      RunKeepsVerdictsDated(ops[..|ops| - 1]);
    }
  }

  /** `later` is the same case, at most further annotated. */
  predicate Evolves(earlier: CaseData, later: CaseData) {
    && later.facts == earlier.facts
    && earlier.notes <= later.notes
    && (earlier.resolvedAt.Some? ==> later.resolvedAt.Some?)
  }

  predicate Recreates(op: Op, id: string) {
    op.Create? && CaseKey(op.tx.id) == id
  }

  /** Unless a `Create` reuses its key, a case keeps its facts, never loses a note
      and never loses its resolution time. */
  lemma {:induction false} RunEvolves(l: Ledger, ops: seq<Op>, id: string)
    requires id in l.cases
    requires forall i :: 0 <= i < |ops| ==> !Recreates(ops[i], id)
    ensures id in Run(l, ops).cases && Evolves(l.cases[id], Run(l, ops).cases[id])
  {
    if |ops| == 0 {
    } else {
      RunEvolves(l, ops[..|ops| - 1], id);
    }
  }

  predicate TouchesStatus(op: Op, id: string) {
    || Recreates(op, id)
    || (op.Assign? && op.id == id && op.analyst != "")
    || (op.Resolve? && op.id == id && IsVerdict(op.status))
  }

  /** Verdicts are not absorbing: an existing case has a verdict exactly when the
      last operation that touched its status was a resolution. */
  lemma {:induction false} VerdictIffLastWord(ops: seq<Op>, id: string)
    requires id in Run(EMPTY, ops).cases
    ensures IsVerdict(Run(EMPTY, ops).cases[id].status) <==> LastWordIsVerdict(ops, id)
  {
    var n := |ops| - 1;
    if n >= 0 && !TouchesStatus(ops[n], id) {
      VerdictIffLastWord(ops[..n], id);
    }
  }

  ghost predicate LastWordIsVerdict(ops: seq<Op>, id: string) {
    exists i :: 0 <= i < |ops| && TouchesStatus(ops[i], id) && ops[i].Resolve?
      && forall j :: i < j < |ops| ==> !TouchesStatus(ops[j], id)
  }

  // ----- The last word ----------------------------------------------------------------

  /** Operation `i` is the last of the run to touch the status of `id`. */
  ghost predicate LastTouch(ops: seq<Op>, id: string, i: nat) {
    i < |ops| && TouchesStatus(ops[i], id) && forall j :: i < j < |ops| ==> !TouchesStatus(ops[j], id)
  }

  /** What an operation that touches the status leaves it at. */
  function StatusAfter(op: Op): Status
    requires op.Create? || op.Assign? || op.Resolve?
  {
    match op
    case Create(_, _, _) => Open
    case Assign(_, _) => InReview
    case Resolve(_, status, _, _, _) => status
  }

  lemma {:induction false} SomeLastTouch(ops: seq<Op>, id: string) returns (i: nat)
    requires id in Run(EMPTY, ops).cases
    ensures LastTouch(ops, id, i)
  {
    var n := |ops| - 1;
    if TouchesStatus(ops[n], id) {
      i := n;
    } else {
      i := SomeLastTouch(ops[..n], id);
      assert ops[..n][i] == ops[i];
    }
  }

  /** The status of a case is the one its last operation asked for. */
  lemma {:induction false} StatusIsLastWord(ops: seq<Op>, id: string, i: nat)
    requires id in Run(EMPTY, ops).cases && LastTouch(ops, id, i)
    ensures Run(EMPTY, ops).cases[id].status == StatusAfter(ops[i])
  {
    var n := |ops| - 1;
    if i < n {
      assert !TouchesStatus(ops[n], id);
      StatusIsLastWord(ops[..n], id, i);
    }
  }

  predicate Resolves(op: Op, id: string) {
    op.Resolve? && op.id == id && IsVerdict(op.status)
  }

  /** Operation `i` is the last of the run to open or to resolve `id`. */
  ghost predicate LastDate(ops: seq<Op>, id: string, i: nat) {
    && i < |ops| && (Recreates(ops[i], id) || Resolves(ops[i], id))
    && forall j :: i < j < |ops| ==> !Recreates(ops[j], id) && !Resolves(ops[j], id)
  }

  /** A case is dated by its last resolution since it was opened, and by nothing else. */
  lemma {:induction false} DateIsLastResolution(ops: seq<Op>, id: string, i: nat)
    requires id in Run(EMPTY, ops).cases && LastDate(ops, id, i)
    ensures Run(EMPTY, ops).cases[id].resolvedAt == if ops[i].Resolve? then Some(ops[i].now) else None
  {
    var n := |ops| - 1;
    if i < n {
      assert !Recreates(ops[n], id) && !Resolves(ops[n], id);
      DateIsLastResolution(ops[..n], id, i);
    }
  }

  ghost predicate LastCreation(ops: seq<Op>, id: string, i: nat) {
    i < |ops| && Recreates(ops[i], id) && forall j :: i < j < |ops| ==> !Recreates(ops[j], id)
  }

  /** What was known of a case is what its last creation was told. */
  lemma {:induction false} FactsAreLastCreation(ops: seq<Op>, id: string, i: nat)
    requires LastCreation(ops, id, i)
    ensures id in Run(EMPTY, ops).cases
    ensures var f, op := Run(EMPTY, ops).cases[id].facts, ops[i];
      f.tx == op.tx && f.risk == op.risk && f.ruleIds == op.ruleIds
  {
    var n := |ops| - 1;
    if i < n {
      assert !Recreates(ops[n], id);
      FactsAreLastCreation(ops[..n], id, i);
    }
  }

  /** Confirmations of `id` that took effect while hook `k` was registered. */
  function Confirmations(ops: seq<Op>, k: nat, id: string): nat {
    if |ops| == 0 then 0
    else
      var n := |ops| - 1;
      var l := Run(EMPTY, ops[..n]);
      Confirmations(ops[..n], k, id) +
      (if ops[n].Resolve? && ops[n].id == id && ops[n].status == Confirmed && id in l.cases && k < l.hooks
       then 1 else 0)
  }

  /** Every hook fires exactly once for every confirmation that follows its
      registration, and never otherwise. */
  lemma {:induction false} HooksFireOncePerConfirmation(ops: seq<Op>, k: nat, id: string)
    ensures multiset(Run(EMPTY, ops).fired)[Firing(k, id)] == Confirmations(ops, k, id)
  {
    if |ops| == 0 {
    } else {
      var n := |ops| - 1;
      HooksFireOncePerConfirmation(ops[..n], k, id);
      var l := Run(EMPTY, ops[..n]);
      if ops[n].Resolve? && ops[n].status == Confirmed && ops[n].id in l.cases {
        FiringsOnce(l.hooks, ops[n].id, k, id);
        assert Run(EMPTY, ops).fired == l.fired + Firings(l.hooks, ops[n].id);
      } else {
        assert Run(EMPTY, ops).fired == l.fired;
      }
    }
  }

  lemma {:induction false} FiringsOnce(hooks: nat, id: string, k: nat, id': string)
    ensures multiset(Firings(hooks, id))[Firing(k, id')] == if k < hooks && id == id' then 1 else 0
  {
    if hooks == 0 {
    } else {
      FiringsOnce(hooks - 1, id, k, id');
      assert Firings(hooks, id) == Firings(hooks - 1, id) + [Firing(hooks - 1, id)];
    }
  }

  // ----- What a case remembers --------------------------------------------------------

  function NoteOf(op: Op, id: string): seq<Note> {
    if op.AddNote? && op.id == id && op.text != "" then [Note(op.author, op.text)]
    else if op.Resolve? && op.id == id && IsVerdict(op.status) && op.note != "" then [Note(op.analyst, op.note)]
    else []
  }

  /** The notes written on `id` since it was last created. */
  function NotesOn(ops: seq<Op>, id: string): seq<Note> {
    if |ops| == 0 then []
    else
      var n := |ops| - 1;
      if Recreates(ops[n], id) then [] else NotesOn(ops[..n], id) + NoteOf(ops[n], id)
  }

  /** The analyst of the last assignment or resolution of `id` since it was last created. */
  function Assignee(ops: seq<Op>, id: string): string {
    if |ops| == 0 then ""
    else
      var n := |ops| - 1;
      if Recreates(ops[n], id) then ""
      else if TouchesStatus(ops[n], id) then ops[n].analyst
      else Assignee(ops[..n], id)
  }

  /** A case carries exactly the notes written on it, in order, and the analyst who
      touched it last. */
  lemma {:induction false} CaseRemembers(ops: seq<Op>, id: string)
    requires id in Run(EMPTY, ops).cases
    ensures Run(EMPTY, ops).cases[id].notes == NotesOn(ops, id)
    ensures Run(EMPTY, ops).cases[id].assignedTo == Assignee(ops, id)
  {
    var n := |ops| - 1;
    if n >= 0 && !Recreates(ops[n], id) {
      CaseRemembers(ops[..n], id);
    }
  }
}

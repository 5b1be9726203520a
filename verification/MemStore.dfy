/** The bounded in-memory store (internal/storage/storage.go): per-user history
    capped at `MAX_HISTORY`, the set of recorded transaction IDs and the
    aggregate counters. */
module MemStore {
  import opened Models

  const MAX_HISTORY: nat := 100

  /** The last `n` elements, or everything when there are fewer. */
  function Last<T>(n: nat, xs: seq<T>): seq<T> {
    if |xs| <= n then xs else xs[|xs| - n..]
  }

  datatype State = State(
    history: map<string, seq<Transaction>>,
    seen: set<string>,
    totalScored: nat,
    totalFlagged: nat,
    bySeverity: map<Severity, nat>)

  const EMPTY: State := State(map[], {}, 0, 0, map[])

  function HistoryOf(s: State, userId: string): seq<Transaction> {
    if userId in s.history then s.history[userId] else []
  }

  function CountOf(s: State, sev: Severity): nat {
    if sev in s.bySeverity then s.bySeverity[sev] else 0
  }

  /** An empty ID is never reported as seen. */
  predicate SeenBefore(s: State, id: string) {
    id != "" && id in s.seen
  }

  /** `appendLocked` together with the marking of the ID. */
  function Recorded(s: State, tx: Transaction): State {
    s.(history := s.history[tx.userId := Last(MAX_HISTORY, HistoryOf(s, tx.userId) + [tx])],
       seen := if tx.id == "" then s.seen else s.seen + {tx.id})
  }

  /** The severity bucket `Add` counts a score in. */
  function SeverityBucket(risk: RiskScore): Severity {
    if risk.severity == Unset then SeverityFromScore(risk.score) else risk.severity
  }

  function Added(s: State, tx: Transaction, risk: RiskScore): State {
    Recorded(s, tx).(
      totalScored := s.totalScored + 1,
      totalFlagged := s.totalFlagged + (if risk.IsFlagged() then 1 else 0),
      bySeverity := s.bySeverity[SeverityBucket(risk) := CountOf(s, SeverityBucket(risk)) + 1])
  }

  class Store {
    var history: map<string, seq<Transaction>>
    var seenIDs: set<string>
    var totalScored: nat
    var totalFlagged: nat
    var bySeverity: map<Severity, nat>

    function View(): State
      reads this
    {
      State(history, seenIDs, totalScored, totalFlagged, bySeverity)
    }

    constructor ()
      ensures View() == EMPTY
    {
      history, seenIDs := map[], {};
      totalScored, totalFlagged, bySeverity := 0, 0, map[];
    }

    method Add(tx: Transaction, score: RiskScore)
      modifies this
      ensures View() == Added(old(View()), tx, score)
    {
      Append(tx);
      if tx.id != "" {
        seenIDs := seenIDs + {tx.id};
      }
      totalScored := totalScored + 1;
      if score.IsFlagged() {
        totalFlagged := totalFlagged + 1;
      }
      var sev := score.severity;
      if sev == Unset {
        sev := SeverityFromScore(score.score);
      }
      bySeverity := bySeverity[sev := (if sev in bySeverity then bySeverity[sev] else 0) + 1];
    }

    method Seed(tx: Transaction)
      modifies this
      ensures View() == Recorded(old(View()), tx)
    {
      Append(tx);
      if tx.id != "" {
        seenIDs := seenIDs + {tx.id};
      }
    }

    method Append(tx: Transaction)
      modifies this`history
      ensures history == old(history)[tx.userId := Last(MAX_HISTORY, HistoryOf(old(View()), tx.userId) + [tx])]
    {
      var hist := if tx.userId in history then history[tx.userId] else [];
      hist := hist + [tx];
      if |hist| > MAX_HISTORY {
        hist := hist[|hist| - MAX_HISTORY..];
      }
      history := history[tx.userId := hist];
    }

    method GetUserHistory(userId: string) returns (out: seq<Transaction>)
      ensures out == HistoryOf(View(), userId)
    {
      out := if userId in history then history[userId] else [];
    }

    method HasSeen(id: string) returns (b: bool)
      ensures b == SeenBefore(View(), id)
    {
      b := if id == "" then false else id in seenIDs;
    }
  }

  // ----- Whole runs -------------------------------------------------------------

  datatype Op = AddOp(tx: Transaction, risk: RiskScore) | SeedOp(tx: Transaction)

  function Apply(s: State, op: Op): State {
    match op
    case AddOp(tx, risk) => Added(s, tx, risk)
    case SeedOp(tx) => Recorded(s, tx)
  }

  function RunOps(s: State, ops: seq<Op>): State {
    if |ops| == 0 then s else Apply(RunOps(s, ops[..|ops| - 1]), ops[|ops| - 1])
  }

  /** The unbounded log of one user: everything ever recorded, oldest first. */
  function UserLog(ops: seq<Op>, userId: string): seq<Transaction> {
    if |ops| == 0 then []
    else
      var n := |ops| - 1;
      UserLog(ops[..n], userId) + (if ops[n].tx.userId == userId then [ops[n].tx] else [])
  }

  lemma LastOfLast<T>(n: nat, xs: seq<T>, x: T)
    ensures Last(n, Last(n, xs) + [x]) == Last(n, xs + [x])
  {
  }

  /** After any run the bounded history is the last hundred entries of the
      unbounded log, while the seen set remembers the whole log. */
  lemma {:induction false} HistoryIsLogSuffix(ops: seq<Op>, userId: string)
    ensures HistoryOf(RunOps(EMPTY, ops), userId) == Last(MAX_HISTORY, UserLog(ops, userId))
    ensures |HistoryOf(RunOps(EMPTY, ops), userId)| <= MAX_HISTORY
  {
    if |ops| == 0 {
    } else {
      var n := |ops| - 1;
      HistoryIsLogSuffix(ops[..n], userId);
      LastOfLast(MAX_HISTORY, UserLog(ops[..n], userId), ops[n].tx);
    }
  }

  /** `kept` is the newest `n` entries of `log`, or all of them, oldest first. */
  predicate Newest<T(==)>(n: nat, kept: seq<T>, log: seq<T>) {
    && |kept| == (if |log| <= n then |log| else n)
    && forall k :: 0 <= k < |kept| ==> kept[k] == log[|log| - |kept| + k]
  }

  lemma LastIsNewest<T>(n: nat, xs: seq<T>)
    ensures Newest(n, Last(n, xs), xs)
  {
  }

  /** Entry by entry: a history is the newest hundred of the user's log. */
  lemma KeptEntries(ops: seq<Op>, userId: string)
    ensures Newest(100, HistoryOf(RunOps(EMPTY, ops), userId), UserLog(ops, userId))
  {
    HistoryIsLogSuffix(ops, userId);
    LastIsNewest(100, UserLog(ops, userId));
  }

  lemma {:induction false} SeenIffRecorded(ops: seq<Op>, id: string)
    ensures SeenBefore(RunOps(EMPTY, ops), id) <==> id != "" && exists i :: 0 <= i < |ops| && ops[i].tx.id == id
  {
    if |ops| == 0 {
    } else {
      var n := |ops| - 1;
      SeenIffRecorded(ops[..n], id);
      if i :| 0 <= i < |ops| && ops[i].tx.id == id {
        assert i < n ==> ops[..n][i] == ops[i];
      }
    }
  }

  /** The counters agree: every scored transaction sits in one bucket, and the
      flagged ones are exactly the medium, high and critical ones. */
  ghost predicate Conserved(s: State) {
    && s.totalScored == CountOf(s, Low) + CountOf(s, Medium) + CountOf(s, High) + CountOf(s, Critical)
    && s.totalFlagged == CountOf(s, Medium) + CountOf(s, High) + CountOf(s, Critical)
  }

  /** The bucket the score itself calls for, whether or not the severity was
      filled in by the caller. */
  predicate Consistent(risk: RiskScore) {
    SeverityBucket(risk) == SeverityFromScore(risk.score)
  }

  lemma AddConserves(s: State, tx: Transaction, risk: RiskScore)
    requires Conserved(s) && Consistent(risk)
    ensures Conserved(Added(s, tx, risk))
  {
  }

  /** On one Add the counters stay in agreement exactly when the severity the
      caller passed agrees with the score on being flagged. */
  lemma AddConservesIff(s: State, tx: Transaction, risk: RiskScore)
    requires Conserved(s)
    ensures Conserved(Added(s, tx, risk)) <==> (risk.IsFlagged() <==> Rank(SeverityBucket(risk)) >= Rank(Medium))
  {
    assert SeverityBucket(risk) != Unset;
  }

  /** How many scored operations of a run satisfy `p`. */
  function CountAdds(ops: seq<Op>, p: RiskScore -> bool): nat {
    if |ops| == 0 then 0
    else
      var op := ops[|ops| - 1];
      CountAdds(ops[..|ops| - 1], p) + (if op.AddOp? && p(op.risk) then 1 else 0)
  }

  /** The counters are counts over the whole run; seeding touches none of them. */
  lemma {:induction false} CountersCountAdds(ops: seq<Op>, sev: Severity)
    ensures RunOps(EMPTY, ops).totalScored == CountAdds(ops, (r: RiskScore) => true)
    ensures RunOps(EMPTY, ops).totalFlagged == CountAdds(ops, (r: RiskScore) => r.IsFlagged())
    ensures CountOf(RunOps(EMPTY, ops), sev) == CountAdds(ops,
      (r: RiskScore) => if r.severity == Unset then SeverityFromScore(r.score) == sev else r.severity == sev)
  {
    if |ops| == 0 {
    } else {
      CountersCountAdds(ops[..|ops| - 1], sev);
    }
  }
}

/** The Redis and Postgres backends (internal/storage/redis.go, postgres.go) as
    operations on lists and row sets, and their agreement with the in-memory store. */
module Backends {
  import opened Models
  import opened FiniteSets
  import M = MemStore

  const CAP: nat := 100

  // ----- Redis ------------------------------------------------------------------------

  /** JSON encoding of transactions. */
  datatype Codec = Codec(encode: Transaction -> string, decode: string -> Option<Transaction>) {
    ghost predicate RoundTrips() {
      forall tx :: decode(encode(tx)) == Some(tx)
    }
  }

  type Lists = map<string, seq<string>>

  function ListOf(lists: Lists, key: string): seq<string> {
    if key in lists then lists[key] else []
  }

  function UserKey(userId: string): string {
    "fraud:hist:" + userId
  }

  lemma UserKeyInjective(a: string, b: string)
    requires UserKey(a) == UserKey(b)
    ensures a == b
  {
    assert UserKey(a)[11..] == a && UserKey(b)[11..] == b;
  }

  /** RPUSH then LTRIM -CAP -1, in one round trip. */
  function Pushed(codec: Codec, lists: Lists, tx: Transaction): Lists {
    var key := UserKey(tx.userId);
    lists[key := M.Last(CAP, ListOf(lists, key) + [codec.encode(tx)])]
  }

  function Encoded(codec: Codec, txs: seq<Transaction>): seq<string> {
    seq(|txs|, i requires 0 <= i < |txs| => codec.encode(txs[i]))
  }

  ghost predicate Decodes(codec: Codec, raw: seq<string>, txs: seq<Transaction>) {
    |txs| == |raw| && forall i :: 0 <= i < |raw| ==> codec.decode(raw[i]) == Some(txs[i])
  }

  class RedisStore {
    var lists: Lists
    const codec: Codec

    constructor (codec: Codec)
      ensures lists == map[] && this.codec == codec
    {
      this.codec := codec;
      lists := map[];
    }

    method Push(tx: Transaction)
      modifies this
      ensures lists == Pushed(codec, old(lists), tx)
    {
      var key := UserKey(tx.userId);
      var list := ListOf(lists, key) + [codec.encode(tx)];
      if |list| > CAP {
        list := list[|list| - CAP..];
      }
      lists := lists[key := list];
    }

    /** Fails on the first payload that does not decode. */
    method GetUserHistory(userId: string) returns (result: Option<seq<Transaction>>)
      ensures var raw := ListOf(lists, UserKey(userId));
        && (result.None? <==> exists i :: 0 <= i < |raw| && codec.decode(raw[i]).None?)
        && (result.Some? ==> Decodes(codec, raw, result.value))
    {
      var raw := ListOf(lists, UserKey(userId));
      var out := [];
      for i := 0 to |raw|
        invariant |out| == i
        invariant forall j :: 0 <= j < i ==> codec.decode(raw[j]) == Some(out[j])
      {
        var tx := codec.decode(raw[i]);
        if tx.None? {
          return None;
        }
        out := out + [tx.value];
      }
      return Some(out);
    }
  }

  function RedisRun(codec: Codec, ops: seq<M.Op>): Lists {
    if |ops| == 0 then map[] else Pushed(codec, RedisRun(codec, ops[..|ops| - 1]), ops[|ops| - 1].tx)
  }

  /** After every run the user's list encodes the last hundred entries of the log. */
  lemma {:induction false} RedisHoldsSuffix(codec: Codec, ops: seq<M.Op>, userId: string)
    ensures ListOf(RedisRun(codec, ops), UserKey(userId)) == Encoded(codec, M.Last(CAP, M.UserLog(ops, userId)))
  {
    if |ops| == 0 {
    } else {
      var n := |ops| - 1;
      var tx := ops[n].tx;
      var log := M.UserLog(ops[..n], userId);
      RedisHoldsSuffix(codec, ops[..n], userId);
      if tx.userId == userId {
        assert M.UserLog(ops, userId) == log + [tx];
        assert M.Last(CAP, Encoded(codec, M.Last(CAP, log)) + [codec.encode(tx)])
            == Encoded(codec, M.Last(CAP, log + [tx]));
      } else if UserKey(tx.userId) == UserKey(userId) {
        UserKeyInjective(tx.userId, userId);
      }
    }
  }

  // ----- Postgres ---------------------------------------------------------------------

  type Rows = set<Transaction>

  function RowsOf(rows: Rows, userId: string): Rows {
    set r | r in rows && r.userId == userId
  }

  /** What `ORDER BY timestamp DESC LIMIT limit` may answer for one user. */
  ghost predicate LatestFirst(rows: Rows, userId: string, limit: nat, out: seq<Transaction>) {
    && |out| == (if |RowsOf(rows, userId)| <= limit then |RowsOf(rows, userId)| else limit)
    && (forall i :: 0 <= i < |out| ==> out[i] in RowsOf(rows, userId))
    && (forall i, j :: 0 <= i < j < |out| ==> out[i] != out[j] && out[i].timestamp >= out[j].timestamp)
    && (forall r, i :: r in RowsOf(rows, userId) && r !in out && 0 <= i < |out| ==> out[i].timestamp >= r.timestamp)
  }

  lemma SomeLatest(rows: Rows) returns (r: Transaction)
    requires rows != {}
    ensures r in rows && forall q :: q in rows ==> q.timestamp <= r.timestamp
    decreases |rows|
  {
    r :| r in rows;
    var rest := rows - {r};
    if rest != {} {
      var q := SomeLatest(rest);
      assert forall p :: p in rows ==> p == r || p in rest;
      r := if q.timestamp > r.timestamp then q else r;
    }
  }

  /** Latest first among distinct rows, with nothing later left out. */
  ghost predicate TopOf(rows: Rows, n: nat, out: seq<Transaction>) {
    && |out| == n
    && (forall i :: 0 <= i < n ==> out[i] in rows)
    && (forall i, j :: 0 <= i < j < n ==> out[i] != out[j] && out[i].timestamp >= out[j].timestamp)
    && (forall r, i :: r in rows && r !in out && 0 <= i < n ==> out[i].timestamp >= r.timestamp)
  }

  lemma {:induction false} SomeTop(rows: Rows, n: nat) returns (out: seq<Transaction>)
    requires n <= |rows|
    ensures TopOf(rows, n, out)
  {
    if n == 0 {
      out := [];
    } else {
      var r := SomeLatest(rows);
      var rest := SomeTop(rows - {r}, n - 1);
      out := [r] + rest;
      LatestOnTop(rows, r, n - 1, rest);
    }
  }

  lemma LatestOnTop(rows: Rows, r: Transaction, n: nat, rest: seq<Transaction>)
    requires r in rows && (forall q :: q in rows ==> q.timestamp <= r.timestamp) && TopOf(rows - {r}, n, rest)
    ensures TopOf(rows, n + 1, [r] + rest)
  {
    var out := [r] + rest;
    assert out[0] == r && forall i :: 0 < i < n + 1 ==> out[i] == rest[i - 1];
    forall i, j | 0 <= i < j < n + 1
      ensures out[i] != out[j] && out[i].timestamp >= out[j].timestamp
    {
      assert out[j] == rest[j - 1] && rest[j - 1] in rows - {r};
    }
    forall q, i | q in rows && q !in out && 0 <= i < n + 1
      ensures out[i].timestamp >= q.timestamp
    {
      assert q !in rest && q in rows - {r};
    }
  }

  /** The engine always has an answer. */
  lemma SomeAnswer(rows: Rows, userId: string, limit: nat) returns (out: seq<Transaction>)
    ensures LatestFirst(rows, userId, limit, out)
  {
    var own := RowsOf(rows, userId);
    out := SomeTop(own, if |own| <= limit then |own| else limit);
  }

  /** The primary key is (id, user_id). */
  predicate Conflicts(rows: Rows, tx: Transaction) {
    exists r :: r in rows && r.id == tx.id && r.userId == tx.userId
  }

  /** Insert, then delete the user's rows whose ID the subquery did not return. */
  function AddedRows(rows: Rows, tx: Transaction, latest: seq<Transaction>): Rows {
    if Conflicts(rows, tx) then rows
    else set r | r in rows + {tx} && (r.userId != tx.userId || HasId(latest, r.id))
  }

  predicate HasId(txs: seq<Transaction>, id: string) {
    exists i :: 0 <= i < |txs| && txs[i].id == id
  }

  /** ON CONFLICT DO NOTHING, and no trimming. */
  function SeededRows(rows: Rows, tx: Transaction): Rows {
    if Conflicts(rows, tx) then rows else rows + {tx}
  }

  function Reversed(s: seq<Transaction>): (r: seq<Transaction>)
    ensures |r| == |s| && forall i :: 0 <= i < |s| ==> r[i] == s[|s| - 1 - i]
  {
    seq(|s|, i requires 0 <= i < |s| => s[|s| - 1 - i])
  }

  method ReverseInPlace(a: array<Transaction>)
    modifies a
    ensures a[..] == Reversed(old(a[..]))
  {
    var i, j := 0, a.Length - 1;
    while i < j
      invariant 0 <= i <= a.Length && i + j == a.Length - 1
      invariant forall k :: 0 <= k < i || j < k < a.Length ==> a[k] == old(a[a.Length - 1 - k])
      invariant forall k :: i <= k <= j && k < a.Length ==> a[k] == old(a[k])
    {
      a[i], a[j] := a[j], a[i];
      i, j := i + 1, j - 1;
    }
  }

  class PostgresStore {
    var rows: Rows

    constructor ()
      ensures rows == {}
    {
      rows := {};
    }

    /** `latest` is the engine's answer to the subquery on the table as it stands
        after the insert; a key conflict fails the insert and rolls back. */
    method Add(tx: Transaction, latest: seq<Transaction>) returns (ok: bool)
      requires LatestFirst(rows + {tx}, tx.userId, CAP, latest)
      modifies this
      ensures ok == !Conflicts(old(rows), tx)
      ensures rows == AddedRows(old(rows), tx, latest)
    {
      if Conflicts(rows, tx) {
        return false;
      }
      rows := rows + {tx};
      rows := set r | r in rows && (r.userId != tx.userId || HasId(latest, r.id));
      return true;
    }

    method Seed(tx: Transaction)
      modifies this
      ensures rows == SeededRows(old(rows), tx)
    {
      if !Conflicts(rows, tx) {
        rows := rows + {tx};
      }
    }

    /** The query answers newest first; the slice is then reversed in place. */
    method GetUserHistory(userId: string, answer: seq<Transaction>) returns (out: seq<Transaction>)
      requires LatestFirst(rows, userId, CAP, answer)
      ensures out == Reversed(answer)
    {
      var a := new Transaction[|answer|](i requires 0 <= i < |answer| => answer[i]);
      assert a[..] == answer;
      ReverseInPlace(a);
      out := a[..];
    }
  }

  /** Runs of the table; `answers[i]` is the engine's answer used by operation `i`. */
  function PgRun(ops: seq<M.Op>, answers: seq<seq<Transaction>>): Rows
    requires |answers| == |ops|
  {
    if |ops| == 0 then {}
    else
      var n := |ops| - 1;
      var before := PgRun(ops[..n], answers[..n]);
      if ops[n].AddOp? then AddedRows(before, ops[n].tx, answers[n]) else SeededRows(before, ops[n].tx)
  }

  ghost predicate PgAnswers(ops: seq<M.Op>, answers: seq<seq<Transaction>>)
    requires |answers| == |ops|
  {
    forall i :: 0 <= i < |ops| && ops[i].AddOp? ==>
      LatestFirst(PgRun(ops[..i], answers[..i]) + {ops[i].tx}, ops[i].tx.userId, CAP, answers[i])
  }

  /** So every run has answers. */
  lemma {:induction false} SomeAnswers(ops: seq<M.Op>) returns (answers: seq<seq<Transaction>>)
    ensures |answers| == |ops| && PgAnswers(ops, answers)
  {
    if |ops| == 0 {
      answers := [];
    } else {
      var n := |ops| - 1;
      var front := SomeAnswers(ops[..n]);
      var last := SomeAnswer(PgRun(ops[..n], front) + {ops[n].tx}, ops[n].tx.userId, CAP);
      answers := front + [last];
      forall i | 0 <= i < |ops| && ops[i].AddOp?
        ensures LatestFirst(PgRun(ops[..i], answers[..i]) + {ops[i].tx}, ops[i].tx.userId, CAP, answers[i])
      {
        assert ops[..n][..i] == ops[..i];
        if i < n {
          assert front[..i] == answers[..i] && ops[..n][i] == ops[i];
        } else {
          assert front == answers[..n];
        }
      }
    }
  }

  predicate DistinctIds(ops: seq<M.Op>) {
    forall i, j :: 0 <= i < j < |ops| ==> ops[i].tx.id != ops[j].tx.id
  }

  predicate IncreasingTime(log: seq<Transaction>) {
    forall i, j :: 0 <= i < j < |log| ==> log[i].timestamp < log[j].timestamp
  }

  /** The table holds, of this user, only logged rows and all of the last hundred. */
  ghost predicate Holds(rows: Rows, userId: string, log: seq<Transaction>) {
    && (forall r :: r in RowsOf(rows, userId) ==> r in log)
    && (forall i :: 0 <= i < |log| && |log| - CAP <= i ==> log[i] in RowsOf(rows, userId))
  }

  ghost function Elements(s: seq<Transaction>): set<Transaction> {
    set i | 0 <= i < |s| :: s[i]
  }

  lemma {:induction false} DistinctCardinality(s: seq<Transaction>)
    requires forall i, j :: 0 <= i < j < |s| ==> s[i] != s[j]
    ensures |Elements(s)| == |s|
  {
    if |s| == 0 {
    } else {
      var n := |s| - 1;
      DistinctCardinality(s[..n]);
      assert Elements(s) == Elements(s[..n]) + {s[n]};
    }
  }

  lemma RowCount(rows: Rows, userId: string, log: seq<Transaction>)
    requires Holds(rows, userId, log) && IncreasingTime(log)
    ensures var k := |RowsOf(rows, userId)|;
      (if k <= CAP then k else CAP) == |M.Last(CAP, log)|
  {
    var tail := M.Last(CAP, log);
    DistinctCardinality(tail);
    DistinctCardinality(log);
    SubsetIsSmaller(Elements(tail), RowsOf(rows, userId));
    SubsetIsSmaller(RowsOf(rows, userId), Elements(log));
  }

  /** The first `i` entries of the answer are the last `i` of the log, newest first. */
  predicate Agrees(log: seq<Transaction>, out: seq<Transaction>, i: nat)
    requires i <= |out| <= |log|
  {
    forall j :: 0 <= j < i ==> out[j] == log[|log| - 1 - j]
  }

  lemma NextIsLateEnough(rows: Rows, userId: string, log: seq<Transaction>, out: seq<Transaction>, i: nat)
    requires Holds(rows, userId, log) && IncreasingTime(log) && LatestFirst(rows, userId, CAP, out)
    requires i < |out| <= |log| && i < CAP && Agrees(log, out, i)
    ensures out[i].timestamp >= log[|log| - 1 - i].timestamp
  {
    var want := log[|log| - 1 - i];
    assert want in RowsOf(rows, userId);
    assert forall j :: 0 <= j < i ==> out[j].timestamp > want.timestamp;
  }

  lemma NextIsNotReused(log: seq<Transaction>, out: seq<Transaction>, i: nat, p: nat)
    requires i < |out| <= |log| && Agrees(log, out, i) && p < |log| && out[i] == log[p]
    requires forall j :: 0 <= j < i ==> out[j] != out[i]
    ensures p <= |log| - 1 - i
  {
    assert forall q :: |log| - i <= q < |log| ==> log[q] == out[|log| - 1 - q];
  }

  /** What agrees one entry further, whenever it agrees so far, agrees throughout. */
  lemma {:induction false} AgreesByInduction(log: seq<Transaction>, out: seq<Transaction>, i: nat)
    requires i <= |out| <= |log|
    requires forall k :: 0 <= k < |out| && Agrees(log, out, k) ==> out[k] == log[|log| - 1 - k]
    ensures Agrees(log, out, i)
  {
    if i == 0 {
    } else {
      AgreesByInduction(log, out, i - 1);
    }
  }

  /** Every answer the engine may give is the tail of the log, newest first. */
  lemma AnswerIsTail(rows: Rows, userId: string, log: seq<Transaction>, out: seq<Transaction>)
    requires Holds(rows, userId, log) && IncreasingTime(log) && LatestFirst(rows, userId, CAP, out)
    requires |out| <= |log| && |out| <= CAP
    ensures Agrees(log, out, |out|)
  {
    forall k | 0 <= k < |out| && Agrees(log, out, k)
      ensures out[k] == log[|log| - 1 - k]
    {
      NextAgrees(rows, userId, log, out, k);
    }
    AgreesByInduction(log, out, |out|);
  }

  lemma NextAgrees(rows: Rows, userId: string, log: seq<Transaction>, out: seq<Transaction>, i: nat)
    requires Holds(rows, userId, log) && IncreasingTime(log) && LatestFirst(rows, userId, CAP, out)
    requires i < |out| <= |log| && i < CAP && Agrees(log, out, i)
    ensures out[i] == log[|log| - 1 - i]
  {
    NextIsLateEnough(rows, userId, log, out, i);
    assert out[i] in log;
    var p :| 0 <= p < |log| && log[p] == out[i];
    NextIsNotReused(log, out, i, p);
  }

  lemma AnswerIsReversedTail(rows: Rows, userId: string, log: seq<Transaction>, out: seq<Transaction>)
    requires Holds(rows, userId, log) && IncreasingTime(log) && LatestFirst(rows, userId, CAP, out)
    ensures Reversed(out) == M.Last(CAP, log)
  {
    RowCount(rows, userId, log);
    AnswerIsTail(rows, userId, log, out);
  }

  // ----- Whole runs -------------------------------------------------------------------

  /** The user's own insert: the new row joins the log, and the delete spares the
      hundred latest. */
  lemma OwnAddKeepsHolding(rows: Rows, log: seq<Transaction>, tx: Transaction, latest: seq<Transaction>)
    requires Holds(rows, tx.userId, log) && !Conflicts(rows, tx)
    requires LatestFirst(rows + {tx}, tx.userId, CAP, latest) && IncreasingTime(log + [tx])
    ensures Holds(AddedRows(rows, tx, latest), tx.userId, log + [tx])
  {
    var log' := log + [tx];
    InsertHolds(rows, log, tx);
    RowCount(rows + {tx}, tx.userId, log');
    AnswerIsTail(rows + {tx}, tx.userId, log', latest);
    forall i | 0 <= i < |log'| && |log'| - CAP <= i
      ensures log'[i] in RowsOf(AddedRows(rows, tx, latest), tx.userId)
    {
      assert latest[|log'| - 1 - i] == log'[i];
      assert HasId(latest, log'[i].id);
    }
  }

  lemma InsertHolds(rows: Rows, log: seq<Transaction>, tx: Transaction)
    requires Holds(rows, tx.userId, log)
    ensures Holds(rows + {tx}, tx.userId, log + [tx])
  {
    assert RowsOf(rows + {tx}, tx.userId) == RowsOf(rows, tx.userId) + {tx};
  }

  /** Nothing enters the table that the run did not record. */
  lemma {:induction false} RowsComeFromRun(ops: seq<M.Op>, answers: seq<seq<Transaction>>, r: Transaction)
    requires |answers| == |ops| && r in PgRun(ops, answers)
    ensures exists i :: 0 <= i < |ops| && ops[i].tx == r
  {
    if |ops| == 0 {
    } else {
      var n := |ops| - 1;
      if r != ops[n].tx {
        RowsComeFromRun(ops[..n], answers[..n], r);
        var i :| 0 <= i < n && ops[..n][i].tx == r;
        assert ops[i].tx == r;
      }
    }
  }

  lemma NoConflict(ops: seq<M.Op>, answers: seq<seq<Transaction>>)
    requires |answers| == |ops| > 0 && DistinctIds(ops)
    ensures var n := |ops| - 1; !Conflicts(PgRun(ops[..n], answers[..n]), ops[n].tx)
  {
    var n := |ops| - 1;
    var rows := PgRun(ops[..n], answers[..n]);
    forall r | r in rows
      ensures r.id != ops[n].tx.id
    {
      RowsComeFromRun(ops[..n], answers[..n], r);
      var i :| 0 <= i < n && ops[..n][i].tx == r;
      assert ops[i].tx == r;
    }
  }

  lemma {:induction false} PostgresHoldsTail(ops: seq<M.Op>, answers: seq<seq<Transaction>>, userId: string)
    requires |answers| == |ops| && DistinctIds(ops) && PgAnswers(ops, answers)
    requires IncreasingTime(M.UserLog(ops, userId))
    ensures Holds(PgRun(ops, answers), userId, M.UserLog(ops, userId))
  {
    if |ops| == 0 {
    } else {
      var n := |ops| - 1;
      var rows, log := PgRun(ops[..n], answers[..n]), M.UserLog(ops[..n], userId);
      var tx := ops[n].tx;
      PrefixRun(ops, answers, n);
      assert forall i, j :: 0 <= i < j < |log| ==>
        M.UserLog(ops, userId)[i] == log[i] && M.UserLog(ops, userId)[j] == log[j];
      PostgresHoldsTail(ops[..n], answers[..n], userId);
      NoConflict(ops, answers);
      if tx.userId != userId {
        assert RowsOf(rows + {tx}, userId) == RowsOf(rows, userId);
      } else if ops[n].AddOp? {
        OwnAddKeepsHolding(rows, log, tx, answers[n]);
      } else {
        InsertHolds(rows, log, tx);
      }
    }
  }

  lemma PrefixRun(ops: seq<M.Op>, answers: seq<seq<Transaction>>, n: nat)
    requires |answers| == |ops| && n <= |ops| && DistinctIds(ops) && PgAnswers(ops, answers)
    ensures DistinctIds(ops[..n]) && PgAnswers(ops[..n], answers[..n])
  {
    forall i | 0 <= i < n && ops[..n][i].AddOp?
      ensures LatestFirst(
        PgRun(ops[..n][..i], answers[..n][..i]) + {ops[..n][i].tx}, ops[..n][i].tx.userId, CAP, answers[..n][i])
    {
      assert ops[..n][..i] == ops[..i] && answers[..n][..i] == answers[..i] && ops[..n][i] == ops[i];
    }
  }

  /** The three backends agree: after the same run of Add and Seed, with distinct IDs
      and per-user increasing timestamps, memory, Redis and every answer Postgres may
      give are the last hundred entries of the user's log, oldest first. */
  lemma BackendsAgree(
      codec: Codec, ops: seq<M.Op>, answers: seq<seq<Transaction>>, userId: string, answer: seq<Transaction>)
    requires codec.RoundTrips()
    requires |answers| == |ops| && DistinctIds(ops) && PgAnswers(ops, answers)
    requires IncreasingTime(M.UserLog(ops, userId))
    requires LatestFirst(PgRun(ops, answers), userId, CAP, answer)
    ensures var tail := M.Last(CAP, M.UserLog(ops, userId));
      && M.HistoryOf(M.RunOps(M.EMPTY, ops), userId) == tail
      && Decodes(codec, ListOf(RedisRun(codec, ops), UserKey(userId)), tail)
      && Reversed(answer) == tail
  {
    M.HistoryIsLogSuffix(ops, userId);
    RedisHoldsSuffix(codec, ops, userId);
    PostgresHoldsTail(ops, answers, userId);
    AnswerIsReversedTail(PgRun(ops, answers), userId, M.UserLog(ops, userId), answer);
  }
}

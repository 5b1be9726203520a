/** The rapid-fire detector (internal/detector/detector.go) and why the bounded
    history is enough for it. */
module Velocity {
  import opened Models
  import opened MemStore

  const WINDOW: int := 300_000_000_000
  const MAX_TRANSACTIONS: nat := 4

  predicate Inside(h: Transaction, now: int) {
    now - WINDOW <= h.timestamp <= now
  }

  function CountInside(hist: seq<Transaction>, now: int): (n: nat)
    ensures n <= |hist|
  {
    if |hist| == 0 then 0
    else CountInside(hist[..|hist| - 1], now) + (if Inside(hist[|hist| - 1], now) then 1 else 0)
  }

  function FromCount(count: nat): real {
    if count <= MAX_TRANSACTIONS then 0.0
    else
      var score := 0.5 + 0.1 * (count - MAX_TRANSACTIONS) as real;
      if score > 1.0 then 1.0 else score
  }

  /** Fires above four, saturates at nine, never falls. */
  lemma FromCountShape(m: nat, n: nat)
    requires m <= n
    ensures FromCount(m) <= FromCount(n)
    ensures FromCount(m) > 0.0 <==> m > 4
    ensures FromCount(m) == 1.0 <==> m >= 9
    ensures FromCount(m) == 0.0 || 0.6 <= FromCount(m) <= 1.0
  {
  }

  /** The positions of the five minutes up to `now`, both ends included. */
  ghost function Recent(hist: seq<Transaction>, now: int): set<int> {
    set i | 0 <= i < |hist| && now - 300_000_000_000 <= hist[i].timestamp <= now
  }

  lemma {:induction false} CountIsRecent(hist: seq<Transaction>, now: int)
    ensures CountInside(hist, now) == |Recent(hist, now)|
  {
    if |hist| == 0 {
    } else {
      var n := |hist| - 1;
      CountIsRecent(hist[..n], now);
      if Inside(hist[n], now) {
        assert Recent(hist, now) == Recent(hist[..n], now) + {n};
      } else {
        assert Recent(hist, now) == Recent(hist[..n], now);
      }
    }
  }

  /** A tenth per transaction of the last five minutes: 0.6 for five, 1 from nine on. */
  lemma ScoreOfRecent(hist: seq<Transaction>, now: int)
    ensures var n, score := |Recent(hist, now)|, FromCount(CountInside(hist, now));
      if n <= 4 then score == 0.0 else if n >= 9 then score == 1.0 else 10.0 * score == (n + 1) as real
  {
    CountIsRecent(hist, now);
  }

  method Score(hist: seq<Transaction>, tx: Transaction) returns (score: real)
    ensures score == FromCount(CountInside(hist, tx.timestamp))
    ensures score == 0.0 || 0.6 <= score <= 1.0
  {
    if |hist| == 0 {
      return 0.0;
    }
    var cutoff := tx.timestamp - WINDOW;
    var count := 0;
    for i := 0 to |hist|
      invariant count == CountInside(hist[..i], tx.timestamp)
    {
      assert hist[..i + 1][..i] == hist[..i];
      if !(hist[i].timestamp < cutoff) && !(hist[i].timestamp > tx.timestamp) {
        count := count + 1;
      }
    }
    assert hist[..|hist|] == hist;
    if count <= MAX_TRANSACTIONS {
      return 0.0;
    }
    var excess := count - MAX_TRANSACTIONS;
    score := 0.5 + 0.1 * excess as real;
    if score > 1.0 {
      score := 1.0;
    }
  }

  /** Oldest first and nothing later than `now`. */
  predicate Chronological(log: seq<Transaction>, now: int) {
    && (forall i, j :: 0 <= i < j < |log| ==> log[i].timestamp <= log[j].timestamp)
    && (forall i :: 0 <= i < |log| ==> log[i].timestamp <= now)
  }

  /** In a chronological log the counted entries are a suffix: exactly the last
      `CountInside` of them. */
  lemma {:induction false} CountedIsSuffix(log: seq<Transaction>, now: int)
    requires Chronological(log, now)
    ensures forall i :: 0 <= i < |log| ==> (Inside(log[i], now) <==> i >= |log| - CountInside(log, now))
  {
    if |log| == 0 {
    } else {
      var n := |log| - 1;
      CountedIsSuffix(log[..n], now);
      assert forall i :: 0 <= i < n ==> log[..n][i] == log[i];
      if !Inside(log[n], now) {
        assert forall i :: 0 <= i < |log| ==> !Inside(log[i], now);
      }
    }
  }

  lemma {:induction false} CountConcat(a: seq<Transaction>, b: seq<Transaction>, now: int)
    ensures CountInside(a + b, now) == CountInside(a, now) + CountInside(b, now)
  {
    if |b| == 0 {
      assert a + b == a;
    } else {
      CountConcat(a, b[..|b| - 1], now);
      assert (a + b)[..|a + b| - 1] == a + b[..|b| - 1];
    }
  }

  lemma {:induction false} CountAll(log: seq<Transaction>, now: int)
    requires forall i :: 0 <= i < |log| ==> Inside(log[i], now)
    ensures CountInside(log, now) == |log|
  {
    if |log| == 0 {
    } else {
      CountAll(log[..|log| - 1], now);
    }
  }

  lemma {:induction false} CountNone(log: seq<Transaction>, now: int)
    requires forall i :: 0 <= i < |log| ==> !Inside(log[i], now)
    ensures CountInside(log, now) == 0
  {
    if |log| == 0 {
    } else {
      CountNone(log[..|log| - 1], now);
    }
  }

  lemma DroppedAreOutside(log: seq<Transaction>, now: int, k: nat)
    requires Chronological(log, now) && k <= |log| && CountInside(log, now) <= |log| - k
    ensures CountInside(log[..k], now) == 0
  {
    CountedIsSuffix(log, now);
    CountNone(log[..k], now);
  }

  lemma KeptAreInside(log: seq<Transaction>, now: int, k: nat)
    requires Chronological(log, now) && k <= |log| && CountInside(log, now) >= |log| - k
    ensures CountInside(log[k..], now) == |log| - k
  {
    CountedIsSuffix(log, now);
    CountAll(log[k..], now);
  }

  /** Truncating a chronological log caps the count and nothing else. */
  lemma TruncationCapsCount(log: seq<Transaction>, now: int, cap: nat)
    requires Chronological(log, now)
    ensures CountInside(Last(cap, log), now) == if CountInside(log, now) <= cap then CountInside(log, now) else cap
  {
    if |log| > cap {
      var k := |log| - cap;
      CountConcat(log[..k], log[k..], now);
      assert log == log[..k] + log[k..];
      if CountInside(log, now) <= cap {
        DroppedAreOutside(log, now, k);
      } else {
        KeptAreInside(log, now, k);
      }
    }
  }

  ghost predicate TruncationHarmless(cap: nat) {
    forall log: seq<Transaction>, now: int :: Chronological(log, now) ==>
      FromCount(CountInside(Last(cap, log), now)) == FromCount(CountInside(log, now))
  }

  /** The score saturates at nine counted transactions, so a history of nine would
      do; with fewer some log is scored differently. The store keeps a hundred. */
  lemma TruncationHarmlessIff(cap: nat)
    ensures TruncationHarmless(cap) <==> cap >= 9
  {
    if cap >= 9 {
      forall log: seq<Transaction>, now: int | Chronological(log, now)
        ensures FromCount(CountInside(Last(cap, log), now)) == FromCount(CountInside(log, now))
      {
        TruncationCapsCount(log, now, cap);
      }
    } else {
      var t := Transaction("", "", 0.0, "", "", "", 0, "", "");
      var log := seq(9, _ => t);
      CountAll(log, 0);
      CountAll(Last(cap, log), 0);
      assert Chronological(log, 0);
      assert FromCount(CountInside(log, 0)) == 1.0;
      assert FromCount(CountInside(Last(cap, log), 0)) < 1.0;
    }
  }

  /** The velocity score a user gets from the store equals the score over everything
      the store ever recorded for them. */
  lemma StoreLosesNothing(ops: seq<Op>, userId: string, now: int)
    requires Chronological(UserLog(ops, userId), now)
    ensures FromCount(CountInside(HistoryOf(RunOps(EMPTY, ops), userId), now))
         == FromCount(CountInside(UserLog(ops, userId), now))
  {
    HistoryIsLogSuffix(ops, userId);
    TruncationHarmlessIff(MAX_HISTORY);
  }
}

/** The value types that travel through the pipeline (internal/models/models.go). */
module Models {

  datatype Option<+T> = None | Some(value: T)

  /** A float64: a real, or `None` for not-a-number. */
  type Float = Option<real>

  /** Every comparison with not-a-number is false. */
  predicate AtLeast(x: Float, level: real) {
    x.Some? && x.value >= level
  }

  predicate NotAbove(x: Float, y: Float) {
    x.Some? && y.Some? && x.value <= y.value
  }

  /** A probability, or not a number. */
  predicate InUnit(x: Float) {
    x.Some? ==> 0.0 <= x.value <= 1.0
  }

  /** One financial event. `timestamp` counts nanoseconds since Go's zero time
      (1 January of year 1, 00:00 UTC), so 0 is exactly `Timestamp.IsZero()`. */
  datatype Transaction = Transaction(
    id: string,
    userId: string,
    amount: real,
    currency: string,
    merchant: string,
    category: string,
    timestamp: int,
    country: string,
    deviceId: string)

  /** Severity buckets; `Unset` is the empty string a caller may leave behind. */
  datatype Severity = Unset | Low | Medium | High | Critical

  datatype RiskScore = RiskScore(score: Float, severity: Severity) {
    predicate IsFlagged() {
      AtLeast(score, FLAG_THRESHOLD)
    }
  }

  const FLAG_THRESHOLD: real := 0.5
  const HIGH_THRESHOLD: real := 0.7
  const CRITICAL_THRESHOLD: real := 0.85

  function SeverityFromScore(score: Float): Severity {
    if AtLeast(score, CRITICAL_THRESHOLD) then Critical
    else if AtLeast(score, HIGH_THRESHOLD) then High
    else if AtLeast(score, FLAG_THRESHOLD) then Medium
    else Low
  }

  function Rank(s: Severity): nat {
    match s
    case Unset => 0
    case Low => 1
    case Medium => 2
    case High => 3
    case Critical => 4
  }

  /** The buckets are ordered like the scores, and being flagged is exactly
      being at least medium; what is not a number is low. */
  lemma SeverityFollowsScore(s: Float, t: Float)
    ensures NotAbove(s, t) || s.None? ==> Rank(SeverityFromScore(s)) <= Rank(SeverityFromScore(t))
    ensures RiskScore(s, Unset).IsFlagged() <==> Rank(SeverityFromScore(s)) >= Rank(Medium)
  {
  }
}

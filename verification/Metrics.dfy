/** Confusion counts and the figures derived from them, as computed by both
    `Evaluate` (internal/api/seed.go) and `Retrain` (internal/training/training.go). */
module Metrics {
  import opened Powers

  datatype Confusion = Confusion(tp: nat, fp: nat, fn: nat, tn: nat) {
    function Total(): nat {
      tp + fp + fn + tn
    }

    /** The counts after one more prediction. */
    function Counting(fraud: bool, flagged: bool): Confusion {
      if fraud && flagged then this.(tp := tp + 1)
      else if fraud then this.(fn := fn + 1)
      else if flagged then this.(fp := fp + 1)
      else this.(tn := tn + 1)
    }
  }

  const NONE: Confusion := Confusion(0, 0, 0, 0)

  function Ratio(a: nat, b: nat): real {
    if b > 0 then a as real / b as real else 0.0
  }

  function Recall(c: Confusion): real {
    Ratio(c.tp, c.tp + c.fn)
  }

  function Precision(c: Confusion): real {
    Ratio(c.tp, c.tp + c.fp)
  }

  function FalsePositiveRate(c: Confusion): real {
    Ratio(c.fp, c.fp + c.tn)
  }

  function F1(c: Confusion): real {
    Harmonic(Precision(c), Recall(c))
  }

  function Harmonic(p: real, r: real): real {
    if p + r > 0.0 then 2.0 * p * r / (p + r) else 0.0
  }

  lemma RatioBounds(a: nat, b: nat)
    requires a <= b
    ensures 0.0 <= Ratio(a, b) <= 1.0
    ensures Ratio(a, b) > 0.0 <==> a > 0
  {
    if b > 0 {
      QuotientBounds(a as real, b as real);
    }
  }

  lemma QuotientBounds(a: real, b: real)
    requires 0.0 <= a <= b && b > 0.0
    ensures 0.0 <= a / b <= 1.0 && (a / b > 0.0 <==> a > 0.0)
    ensures (a / b) * b == a
  {
  }

  /** Recall is the share of the frauds that were flagged, precision that of the flagged
      which were frauds, the third that of the normals which were flagged; of nothing the
      share is zero. */
  lemma RatesAreShares(c: Confusion)
    ensures if c.tp + c.fn == 0 then Recall(c) == 0.0 else Recall(c) * (c.tp + c.fn) as real == c.tp as real
    ensures if c.tp + c.fp == 0 then Precision(c) == 0.0 else Precision(c) * (c.tp + c.fp) as real == c.tp as real
    ensures if c.fp + c.tn == 0 then FalsePositiveRate(c) == 0.0
      else FalsePositiveRate(c) * (c.fp + c.tn) as real == c.fp as real
  {
  }

  // ----- What the four cells hold -------------------------------------------------------

  /** Of the first `n` predictions, those with this label and this answer. */
  ghost function Cell(n: nat, isFraud: nat -> bool, isFlagged: nat -> bool, fraud: bool, flagged: bool): set<nat> {
    set i: nat | i < n && isFraud(i) == fraud && isFlagged(i) == flagged
  }

  ghost predicate CellsOf(c: Confusion, n: nat, isFraud: nat -> bool, isFlagged: nat -> bool) {
    && c.tp == |Cell(n, isFraud, isFlagged, true, true)| && c.fn == |Cell(n, isFraud, isFlagged, true, false)|
    && c.fp == |Cell(n, isFraud, isFlagged, false, true)| && c.tn == |Cell(n, isFraud, isFlagged, false, false)|
  }

  lemma CellGrows(n: nat, isFraud: nat -> bool, isFlagged: nat -> bool, fraud: bool, flagged: bool)
    ensures |Cell(n + 1, isFraud, isFlagged, fraud, flagged)| == |Cell(n, isFraud, isFlagged, fraud, flagged)|
      + (if isFraud(n) == fraud && isFlagged(n) == flagged then 1 else 0)
  {
    var before := Cell(n, isFraud, isFlagged, fraud, flagged);
    if isFraud(n) == fraud && isFlagged(n) == flagged {
      assert Cell(n + 1, isFraud, isFlagged, fraud, flagged) == before + {n};
    } else {
      assert Cell(n + 1, isFraud, isFlagged, fraud, flagged) == before;
    }
  }

  lemma CellsCounting(c: Confusion, n: nat, isFraud: nat -> bool, isFlagged: nat -> bool)
    requires CellsOf(c, n, isFraud, isFlagged)
    ensures CellsOf(c.Counting(isFraud(n), isFlagged(n)), n + 1, isFraud, isFlagged)
  {
    CellGrows(n, isFraud, isFlagged, true, true);
    CellGrows(n, isFraud, isFlagged, true, false);
    CellGrows(n, isFraud, isFlagged, false, true);
    CellGrows(n, isFraud, isFlagged, false, false);
  }

  /** The harmonic mean in closed form: 2TP / (2TP + FP + FN). */
  lemma F1ClosedForm(c: Confusion)
    ensures F1(c) == Ratio(2 * c.tp, 2 * c.tp + c.fp + c.fn)
  {
    RatioBounds(c.tp, c.tp + c.fp);
    RatioBounds(c.tp, c.tp + c.fn);
    if c.tp > 0 {
      var t, x, y := c.tp as real, (c.tp + c.fp) as real, (c.tp + c.fn) as real;
      HarmonicMean(t, x, y);
      assert x + y == (2 * c.tp + c.fp + c.fn) as real;
      assert 2.0 * t == (2 * c.tp) as real;
    }
  }

  lemma HarmonicMean(t: real, x: real, y: real)
    requires 0.0 < t <= x && t <= y
    ensures t / x + t / y > 0.0
    ensures 2.0 * (t / x) * (t / y) / (t / x + t / y) == 2.0 * t / (x + y)
  {
    var p, r := t / x, t / y;
    QuotientBounds(t, x);
    QuotientBounds(t, y);
    var k := 2.0 * t / (x + y);
    assert k * (x + y) == 2.0 * t;
    SumOfQuotients(p, r, k, x, y, t);
  }

  /** With p = t/x and r = t/y, the value k = 2t/(x+y) solves k (p + r) = 2 p r. */
  lemma SumOfQuotients(p: real, r: real, k: real, x: real, y: real, t: real)
    requires p > 0.0 && r > 0.0 && x > 0.0 && y > 0.0
    requires p * x == t && r * y == t && k * (x + y) == 2.0 * t
    ensures 2.0 * p * r / (p + r) == k
  {
    calc {
      (k * (p + r)) * (x * y);
      k * ((p * x) * y + (r * y) * x);
      k * (t * y + t * x);
      (k * (x + y)) * t;
      (2.0 * t) * t;
      2.0 * (p * x) * (r * y);
      (2.0 * p * r) * (x * y);
    }
    var d := k * (p + r) - 2.0 * p * r;
    assert d * (x * y) == 0.0;
    MulLt(0.0, x, y);
    NoZeroDivisors(d, x * y);
    assert k * (p + r) == 2.0 * p * r;
    DivideOut(k, p + r, 2.0 * p * r);
  }

  lemma NoZeroDivisors(d: real, m: real)
    requires m > 0.0 && d * m == 0.0
    ensures d == 0.0
  {
    if d > 0.0 {
      MulLt(0.0, d, m);
    } else if d < 0.0 {
      MulLt(d, 0.0, m);
    }
  }

  lemma DivideOut(k: real, b: real, a: real)
    requires b != 0.0 && k * b == a
    ensures a / b == k
  {
  }

  /** F1 lies between precision and recall, and is positive exactly when some fraud
      was caught. */
  lemma F1BetweenPrecisionAndRecall(c: Confusion)
    ensures var p, r := Precision(c), Recall(c);
      (p <= F1(c) <= r || r <= F1(c) <= p) && (F1(c) > 0.0 <==> c.tp > 0)
  {
    F1ClosedForm(c);
    RatioBounds(c.tp, c.tp + c.fp);
    RatioBounds(c.tp, c.tp + c.fn);
    RatioBounds(2 * c.tp, 2 * c.tp + c.fp + c.fn);
    if c.tp > 0 {
      var t := c.tp as real;
      var x, y := (c.tp + c.fp) as real, (c.tp + c.fn) as real;
      assert (2 * c.tp) as real == 2.0 * t && (2 * c.tp + c.fp + c.fn) as real == x + y;
      if c.fp <= c.fn {
        Mediant(t, x, y);
      } else {
        Mediant(t, y, x);
      }
    }
  }

  lemma Mediant(t: real, x: real, y: real)
    requires 0.0 < t && 0.0 < x <= y
    ensures t / y <= 2.0 * t / (x + y) <= t / x
  {
    var p, r, k := t / x, t / y, 2.0 * t / (x + y);
    assert p * x == t && r * y == t && k * (x + y) == 2.0 * t;
    if k > p {
      MulLt(p, k, x + y);
      assert p * (x + y) == t + p * y;
      MulLe(x, y, p) by { QuotientPositive(t, x); }
      assert false;
    }
    if k < r {
      MulLt(k, r, x + y);
      MulLe(x, y, r) by { QuotientPositive(t, y); }
      assert false;
    }
  }
}

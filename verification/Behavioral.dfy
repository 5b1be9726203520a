/** The hour-of-week detector (internal/detector/behavioral.go): a 7 x 24 activity
    matrix and the quietest circular window of hours. */
module Behavioral {
  import opened Models

  const HOUR: int := 3_600_000_000_000
  const CELLS: nat := 168

  /** UTC hour of day. */
  function HourOf(t: int): (h: nat)
    ensures h < 24
  {
    (t / HOUR) % 24
  }

  /** UTC weekday with Sunday 0; Go's zero time is a Monday. */
  function WeekdayOf(t: int): (d: nat)
    ensures d < 7
  {
    (1 + t / (24 * HOUR)) % 7
  }

  function CellOf(t: int): (c: nat)
    ensures c < CELLS
  {
    WeekdayOf(t) * 24 + HourOf(t)
  }

  /** The cells are the hours of the week in their order, Monday 00:00 of Go's zero time
      being the twenty-fifth. */
  lemma CellIsHourOfWeek(t: int)
    ensures CellOf(t) == (t / HOUR + 24) % 168
    ensures WeekdayOf(t) == CellOf(t) / 24 && HourOf(t) == CellOf(t) % 24
  {
    DaysOfHours(t);
    HoursOfWeek(t / HOUR);
  }

  lemma HoursOfWeek(h: int)
    ensures (1 + h / 24) % 7 * 24 + h % 24 == (h + 24) % 168
  {
    var d := 1 + h / 24;
    assert h + 24 == 24 * d + h % 24;
    assert d == 7 * (d / 7) + d % 7;
  }

  lemma DaysOfHours(t: int)
    ensures t / (24 * HOUR) == (t / HOUR) / 24
  {
  }

  // ----- Sums over sequences of counts ------------------------------------------------

  function Sum(xs: seq<nat>): nat {
    if |xs| == 0 then 0 else Sum(xs[..|xs| - 1]) + xs[|xs| - 1]
  }

  lemma {:induction false} SumBump(xs: seq<nat>, i: nat)
    requires i < |xs|
    ensures Sum(xs[i := xs[i] + 1]) == Sum(xs) + 1
  {
    var n := |xs| - 1;
    var ys := xs[i := xs[i] + 1];
    if i < n {
      SumBump(xs[..n], i);
      assert ys[..n] == xs[..n][i := xs[i] + 1];
    } else {
      assert ys[..n] == xs[..n];
    }
  }

  function Dated(hist: seq<Transaction>): nat {
    if |hist| == 0 then 0
    else Dated(hist[..|hist| - 1]) + (if hist[|hist| - 1].timestamp != 0 then 1 else 0)
  }

  /** How many dated transactions fall into one cell of the week. */
  function InCell(hist: seq<Transaction>, cell: nat): nat {
    if |hist| == 0 then 0
    else
      var h := hist[|hist| - 1];
      InCell(hist[..|hist| - 1], cell) + (if h.timestamp != 0 && CellOf(h.timestamp) == cell then 1 else 0)
  }

  /** Every dated transaction lands in exactly one cell. */
  method BuildMatrix(hist: seq<Transaction>) returns (matrix: array<nat>)
    ensures fresh(matrix) && matrix.Length == CELLS
    ensures forall c :: 0 <= c < CELLS ==> matrix[c] == InCell(hist, c)
    ensures Sum(matrix[..]) == Dated(hist)
  {
    matrix := new nat[CELLS](_ => 0);
    ZeroSum(matrix[..]);
    for i := 0 to |hist|
      invariant forall c :: 0 <= c < CELLS ==> matrix[c] == InCell(hist[..i], c)
      invariant Sum(matrix[..]) == Dated(hist[..i])
    {
      assert hist[..i + 1][..i] == hist[..i];
      var t := hist[i].timestamp;
      if t != 0 {
        var c := CellOf(t);
        ghost var before := matrix[..];
        SumBump(before, c);
        matrix[c] := matrix[c] + 1;
        assert matrix[..] == before[c := before[c] + 1];
        assert forall k :: 0 <= k < CELLS ==> matrix[k] == before[k] + (if k == c then 1 else 0);
      }
    }
    assert hist[..|hist|] == hist;
  }

  lemma {:induction false} ZeroSum(xs: seq<nat>)
    requires forall i :: 0 <= i < |xs| ==> xs[i] == 0
    ensures Sum(xs) == 0
  {
    if |xs| == 0 {
    } else {
      ZeroSum(xs[..|xs| - 1]);
    }
  }

  // ----- Hour sums and windows -----------------------------------------------------------

  /** Activity in one hour of the day over the first `days` days. */
  function HourSum(matrix: seq<nat>, hour: nat, days: nat): nat
    requires |matrix| == CELLS && hour < 24 && days <= 7
  {
    if days == 0 then 0 else HourSum(matrix, hour, days - 1) + matrix[(days - 1) * 24 + hour]
  }

  function HourSums(matrix: seq<nat>, days: nat): seq<nat>
    requires |matrix| == CELLS && days <= 7
  {
    seq(24, h requires 0 <= h < 24 => HourSum(matrix, h, days))
  }

  /** Activity in the window of `size` hours from `start`, wrapping at midnight. */
  function WindowSum(hours: seq<nat>, start: nat, size: nat): nat
    requires |hours| == 24
  {
    if size == 0 then 0 else WindowSum(hours, start, size - 1) + hours[(start + size - 1) % 24]
  }

  /** The leftmost start whose window is quietest. */
  predicate Quietest(hours: seq<nat>, size: nat, start: nat)
    requires |hours| == 24
  {
    && start < 24
    && (forall s :: 0 <= s < 24 ==> WindowSum(hours, start, size) <= WindowSum(hours, s, size))
    && (forall s :: 0 <= s < start ==> WindowSum(hours, start, size) < WindowSum(hours, s, size))
  }

  method SumHours(matrix: array<nat>) returns (hourSums: array<nat>)
    requires matrix.Length == CELLS
    ensures fresh(hourSums) && hourSums[..] == HourSums(matrix[..], 7)
  {
    hourSums := new nat[24](_ => 0);
    ghost var m := matrix[..];
    for dow := 0 to 7
      invariant matrix[..] == m && fresh(hourSums)
      invariant hourSums[..] == HourSums(m, dow)
    {
      for h := 0 to 24
        invariant matrix[..] == m && fresh(hourSums)
        invariant forall k :: 0 <= k < h ==> hourSums[k] == HourSum(m, k, dow + 1)
        invariant forall k :: h <= k < 24 ==> hourSums[k] == HourSum(m, k, dow)
      {
        hourSums[h] := hourSums[h] + matrix[dow * 24 + h];
      }
    }
  }

  method FindQuietestHour(matrix: array<nat>, windowSize: nat) returns (bestStart: nat)
    requires matrix.Length == CELLS
    ensures Quietest(HourSums(matrix[..], 7), windowSize, bestStart)
  {
    var hourSums := SumHours(matrix);
    ghost var hours := HourSums(matrix[..], 7);
    bestStart := 0;
    var bestSum := -1;
    for start := 0 to 24
      invariant hourSums[..] == hours && |hours| == 24
      invariant bestStart < 24
      invariant start == 0 ==> bestSum == -1
      invariant start > 0 ==> bestSum == WindowSum(hours, bestStart, windowSize)
      invariant forall s :: 0 <= s < start ==> bestSum <= WindowSum(hours, s, windowSize)
      invariant forall s :: 0 <= s < bestStart ==> bestSum < WindowSum(hours, s, windowSize)
      invariant start > 0 ==> bestStart < start
    {
      var sum := 0;
      for i := 0 to windowSize
        invariant sum == WindowSum(hours, start, i)
        invariant hourSums[..] == hours
      {
        sum := sum + hourSums[(start + i) % 24];
      }
      if bestSum == -1 || sum < bestSum {
        bestSum := sum;
        bestStart := start;
      }
    }
  }

  method IsInWindow(hour: nat, start: nat, window: nat) returns (b: bool)
    requires hour < 24 && start < 24
    ensures b <==> (hour - start) % 24 < window
  {
    for i := 0 to window
      invariant i <= (hour - start) % 24
    {
      if (start + i) % 24 == hour {
        OffsetUnique(hour, start, i);
        return true;
      }
      OffsetHits(hour, start, i);
    }
    return false;
  }

  lemma OffsetUnique(hour: nat, start: nat, i: nat)
    requires hour < 24 && start < 24 && (start + i) % 24 == hour
    ensures (hour - start) % 24 <= i
  {
  }

  lemma OffsetHits(hour: nat, start: nat, i: nat)
    requires hour < 24 && start < 24 && (start + i) % 24 != hour
    ensures (hour - start) % 24 != i
  {
  }

  // ----- Conservation and averaging --------------------------------------------------------

  lemma {:induction false} SumConcat(a: seq<nat>, b: seq<nat>)
    ensures Sum(a + b) == Sum(a) + Sum(b)
  {
    if |b| == 0 {
      assert a + b == a;
    } else {
      SumConcat(a, b[..|b| - 1]);
      assert (a + b)[..|a + b| - 1] == a + b[..|b| - 1];
    }
  }

  lemma {:induction false} SumPointwise(a: seq<nat>, b: seq<nat>, c: seq<nat>)
    requires |a| == |b| == |c| && forall i :: 0 <= i < |a| ==> c[i] == a[i] + b[i]
    ensures Sum(c) == Sum(a) + Sum(b)
  {
    if |a| == 0 {
    } else {
      var n := |a| - 1;
      SumPointwise(a[..n], b[..n], c[..n]);
    }
  }

  /** Summing by hour of day loses nothing of the matrix. */
  lemma {:induction false} HourSumsConserve(matrix: seq<nat>, days: nat)
    requires |matrix| == CELLS && days <= 7
    ensures Sum(HourSums(matrix, days)) == Sum(matrix[..days * 24])
  {
    if days == 0 {
      ZeroSum(HourSums(matrix, 0));
    } else {
      HourSumsConserve(matrix, days - 1);
      var lo := (days - 1) * 24;
      var day := matrix[lo..days * 24];
      assert matrix[..days * 24] == matrix[..lo] + day;
      SumConcat(matrix[..lo], day);
      SumPointwise(HourSums(matrix, days - 1), day, HourSums(matrix, days));
    }
  }

  /** The hours read from offset `k` around the clock. */
  function Rotated(hours: seq<nat>, k: nat): seq<nat>
    requires |hours| == 24
  {
    seq(24, s requires 0 <= s < 24 => hours[(s + k) % 24])
  }

  lemma {:induction false} RotationConserves(hours: seq<nat>, k: nat)
    requires |hours| == 24
    ensures Sum(Rotated(hours, k)) == Sum(hours)
  {
    var r := Rotated(hours, k);
    if k == 0 {
      assert r == hours;
    } else {
      RotationConserves(hours, k - 1);
      RotatedNext(hours, k - 1);
      FirstToLast(Rotated(hours, k - 1));
    }
  }

  lemma RotatedNext(hours: seq<nat>, k: nat)
    requires |hours| == 24
    ensures Rotated(hours, k + 1) == Rotated(hours, k)[1..] + [Rotated(hours, k)[0]]
  {
    var q, r := Rotated(hours, k), Rotated(hours, k + 1);
    assert (23 + (k + 1)) % 24 == (0 + k) % 24;
    assert r[23] == q[0];
    assert forall s :: 0 <= s < 23 ==> s + (k + 1) == (s + 1) + k && r[s] == q[s + 1];
  }

  lemma FirstToLast(q: seq<nat>)
    requires |q| > 0
    ensures Sum(q[1..] + [q[0]]) == Sum(q)
  {
    assert q == [q[0]] + q[1..];
    SumConcat(q[1..], [q[0]]);
    SumConcat([q[0]], q[1..]);
  }

  function WindowSums(hours: seq<nat>, size: nat): seq<nat>
    requires |hours| == 24
  {
    seq(24, s requires 0 <= s < 24 => WindowSum(hours, s, size))
  }

  lemma WindowGrows(hours: seq<nat>, size: nat)
    requires |hours| == 24 && size > 0
    ensures forall s :: 0 <= s < 24 ==>
      WindowSums(hours, size)[s] == WindowSums(hours, size - 1)[s] + Rotated(hours, size - 1)[s]
  {
  }

  /** Over all starts, every hour is counted once per window position. */
  lemma {:induction false} WindowsCoverEvenly(hours: seq<nat>, size: nat)
    requires |hours| == 24
    ensures Sum(WindowSums(hours, size)) == size * Sum(hours)
  {
    if size == 0 {
      ZeroSum(WindowSums(hours, 0));
    } else {
      WindowsCoverEvenly(hours, size - 1);
      RotationConserves(hours, size - 1);
      WindowGrows(hours, size);
      SumPointwise(WindowSums(hours, size - 1), Rotated(hours, size - 1), WindowSums(hours, size));
      OneMoreTime(size - 1, Sum(hours));
    }
  }

  lemma OneMoreTime(k: nat, x: nat)
    ensures (k + 1) * x == k * x + x
  {
  }

  lemma {:induction false} MinimumBelowMean(xs: seq<nat>, m: nat)
    requires forall i :: 0 <= i < |xs| ==> m <= xs[i]
    ensures |xs| * m <= Sum(xs)
  {
    if |xs| == 0 {
    } else {
      MinimumBelowMean(xs[..|xs| - 1], m);
      OneMoreTime(|xs| - 1, m);
    }
  }

  /** The quiet window is at most average: 24 times its activity is at most its size
      times everything the matrix holds. */
  lemma QuietWindowBelowAverage(matrix: seq<nat>, size: nat, start: nat)
    requires |matrix| == CELLS && Quietest(HourSums(matrix, 7), size, start)
    ensures 24 * WindowSum(HourSums(matrix, 7), start, size) <= size * Sum(matrix)
  {
    var hours := HourSums(matrix, 7);
    MinimumBelowMean(WindowSums(hours, size), WindowSum(hours, start, size));
    WindowsCoverEvenly(hours, size);
    HourSumsConserve(matrix, 7);
    assert matrix[..7 * 24] == matrix;
  }

  /** The leftmost quietest start is unique. */
  lemma QuietestIsUnique(hours: seq<nat>, size: nat, a: nat, b: nat)
    requires |hours| == 24 && Quietest(hours, size, a) && Quietest(hours, size, b)
    ensures a == b
  {
    var x, y := WindowSum(hours, a, size), WindowSum(hours, b, size);
    assert x <= y && y <= x;
  }

  // ----- The detector -----------------------------------------------------------------------

  const QUIET_WINDOW: nat := 6

  function Rating(firstEver: bool, quiet: bool): real {
    if firstEver && quiet then 0.5 else if firstEver then 0.35 else if quiet then 0.3 else 0.0
  }

  /** The hours of the history's matrix. */
  function Profile(hist: seq<Transaction>): seq<nat> {
    HourSums(Matrix(hist), 7)
  }

  ghost predicate Judged(hist: seq<Transaction>, tx: Transaction, score: real) {
    && (|hist| < 5 ==> score == 0.0)
    && (|hist| >= 5 ==>
          exists start :: Quietest(Profile(hist), QUIET_WINDOW, start) && score == RatingAt(hist, tx, start))
  }

  function RatingAt(hist: seq<Transaction>, tx: Transaction, quietStart: nat): real {
    Rating(InCell(hist, CellOf(tx.timestamp)) == 0, (HourOf(tx.timestamp) - quietStart) % 24 < QUIET_WINDOW)
  }

  lemma {:induction false} EmptyCellIff(hist: seq<Transaction>, cell: nat)
    ensures InCell(hist, cell) == 0
      <==> (forall i :: 0 <= i < |hist| && hist[i].timestamp != 0 ==> CellOf(hist[i].timestamp) != cell)
  {
    if |hist| == 0 {
    } else {
      var n := |hist| - 1;
      EmptyCellIff(hist[..n], cell);
      assert forall i :: 0 <= i < n ==> hist[..n][i] == hist[i];
    }
  }

  /** No dated transaction of the history falls into the same hour of the week. */
  ghost predicate NewHour(hist: seq<Transaction>, t: int) {
    forall i :: 0 <= i < |hist| && hist[i].timestamp != 0 ==> CellOf(hist[i].timestamp) != CellOf(t)
  }

  /** The hour is one of the six that follow `start` around the clock. */
  predicate QuietHour(start: nat, hour: nat) {
    || hour == start % 24 || hour == (start + 1) % 24 || hour == (start + 2) % 24
    || hour == (start + 3) % 24 || hour == (start + 4) % 24 || hour == (start + 5) % 24
  }

  /** One more count in one cell is one more in that cell's hour. */
  lemma {:induction false} HourSumBump(m: seq<nat>, m': seq<nat>, cell: nat, hour: nat, days: nat)
    requires |m| == |m'| == CELLS && cell < CELLS && hour < 24 && days <= 7
    requires m' == m[cell := m[cell] + 1]
    ensures HourSum(m', hour, days)
         == HourSum(m, hour, days) + (if cell % 24 == hour && cell / 24 < days then 1 else 0)
  {
    if days == 0 {
    } else {
      HourSumBump(m, m', cell, hour, days - 1);
    }
  }

  function Matrix(hist: seq<Transaction>): (m: seq<nat>)
    ensures |m| == CELLS
  {
    seq(CELLS, c requires 0 <= c < CELLS => InCell(hist, c))
  }

  /** The dated transactions of one hour of the day, on whatever weekday. */
  ghost function AtHour(hist: seq<Transaction>, hour: nat): set<int> {
    set i | 0 <= i < |hist| && hist[i].timestamp != 0 && HourOf(hist[i].timestamp) == hour
  }

  lemma MatrixSnoc(hist: seq<Transaction>)
    requires |hist| > 0
    ensures var before, t := Matrix(hist[..|hist| - 1]), hist[|hist| - 1].timestamp;
      Matrix(hist) == if t == 0 then before else before[CellOf(t) := before[CellOf(t)] + 1]
  {
  }

  lemma AtHourSnoc(hist: seq<Transaction>, hour: nat)
    requires |hist| > 0
    ensures var n := |hist| - 1;
      |AtHour(hist, hour)| == |AtHour(hist[..n], hour)|
        + (if hist[n].timestamp != 0 && HourOf(hist[n].timestamp) == hour then 1 else 0)
  {
    var n := |hist| - 1;
    var before := AtHour(hist[..n], hour);
    if hist[n].timestamp != 0 && HourOf(hist[n].timestamp) == hour {
      assert AtHour(hist, hour) == before + {n};
    } else {
      assert AtHour(hist, hour) == before;
    }
  }

  lemma HourSumSnoc(hist: seq<Transaction>, hour: nat)
    requires |hist| > 0 && hour < 24
    ensures var n := |hist| - 1;
      HourSum(Matrix(hist), hour, 7) == HourSum(Matrix(hist[..n]), hour, 7)
        + (if hist[n].timestamp != 0 && HourOf(hist[n].timestamp) == hour then 1 else 0)
  {
    var before, t := Matrix(hist[..|hist| - 1]), hist[|hist| - 1].timestamp;
    MatrixSnoc(hist);
    if t != 0 {
      CellIsHourOfWeek(t);
      HourSumBump(before, Matrix(hist), CellOf(t), hour, 7);
    }
  }

  /** The profile says of each hour of the day how many transactions fell into it. */
  lemma {:induction false} ProfileCounts(hist: seq<Transaction>, hour: nat)
    requires hour < 24
    ensures Profile(hist)[hour] == |AtHour(hist, hour)|
  {
    if |hist| == 0 {
      EmptyHours(Matrix(hist), hour, 7);
    } else {
      ProfileCounts(hist[..|hist| - 1], hour);
      AtHourSnoc(hist, hour);
      HourSumSnoc(hist, hour);
    }
  }

  lemma {:induction false} EmptyHours(m: seq<nat>, hour: nat, days: nat)
    requires |m| == CELLS && hour < 24 && days <= 7 && forall c :: 0 <= c < CELLS ==> m[c] == 0
    ensures HourSum(m, hour, days) == 0
  {
    if days == 0 {
    } else {
      EmptyHours(m, hour, days - 1);
    }
  }

  /** The quiet window is six consecutive hours around the clock. */
  lemma WindowIsSixHours(hours: seq<nat>, start: nat)
    requires |hours| == 24 && start < 24
    ensures WindowSum(hours, start, 6) == hours[start] + hours[(start + 1) % 24] + hours[(start + 2) % 24]
      + hours[(start + 3) % 24] + hours[(start + 4) % 24] + hours[(start + 5) % 24]
  {
    assert WindowSum(hours, start, 1) == hours[start];
    assert WindowSum(hours, start, 3) == WindowSum(hours, start, 2) + hours[(start + 2) % 24];
    assert WindowSum(hours, start, 5) == WindowSum(hours, start, 4) + hours[(start + 4) % 24];
  }

  /** Which score means what, the quiet hours being those that follow the one quietest
      start. */
  lemma ScoreTells(hist: seq<Transaction>, tx: Transaction, score: real, start: nat)
    requires Judged(hist, tx, score) && Quietest(Profile(hist), 6, start)
    ensures |hist| < 5 ==> score == 0.0
    ensures |hist| >= 5 ==>
      var first, quiet := NewHour(hist, tx.timestamp), QuietHour(start, HourOf(tx.timestamp));
      && (score == 0.5 <==> first && quiet) && (score == 0.35 <==> first && !quiet)
      && (score == 0.3 <==> !first && quiet) && (score == 0.0 <==> !first && !quiet)
  {
    if |hist| >= 5 {
      var s :| Quietest(Profile(hist), QUIET_WINDOW, s) && score == RatingAt(hist, tx, s);
      QuietestIsUnique(Profile(hist), 6, s, start);
      EmptyCellIff(hist, CellOf(tx.timestamp));
      QuietHourIff(start, HourOf(tx.timestamp));
    }
  }

  lemma QuietHourIff(start: nat, hour: nat)
    requires start < 24 && hour < 24
    ensures QuietHour(start, hour) <==> (hour - start) % 24 < 6
  {
    AtOffset(start, hour, 0);
    AtOffset(start, hour, 1);
    AtOffset(start, hour, 2);
    AtOffset(start, hour, 3);
    AtOffset(start, hour, 4);
    AtOffset(start, hour, 5);
  }

  lemma AtOffset(start: nat, hour: nat, k: nat)
    requires start < 24 && hour < 24 && k < 24
    ensures hour == (start + k) % 24 <==> (hour - start) % 24 == k
  {
  }

  /** Below five transactions there is no profile. Otherwise the score says whether
      this hour of the week is new and whether the hour lies in the quiet window. */
  method Score(hist: seq<Transaction>, tx: Transaction) returns (score: real)
    ensures Judged(hist, tx, score)
    ensures score == 0.0 || score == 0.3 || score == 0.35 || score == 0.5
  {
    if |hist| < 5 {
      return 0.0;
    }
    var matrix := BuildMatrix(hist);
    ghost var m := matrix[..];
    var cell := matrix[CellOf(tx.timestamp)];
    var quietStart := FindQuietestHour(matrix, QUIET_WINDOW);
    var isQuiet := IsInWindow(HourOf(tx.timestamp), quietStart, QUIET_WINDOW);
    if cell == 0 && isQuiet {
      score := 0.5;
    } else if cell == 0 {
      score := 0.35;
    } else if isQuiet {
      score := 0.3;
    } else {
      score := 0.0;
    }
    assert m == Matrix(hist);
    assert Quietest(Profile(hist), QUIET_WINDOW, quietStart);
    assert score == RatingAt(hist, tx, quietStart);
  }
}

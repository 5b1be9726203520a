/** Population baselines over every user's history
    (`GlobalCategoryStats`, `GlobalCategoryQuartiles` in internal/storage/storage.go).
    Go visits the history map in an arbitrary order; the baselines do not depend on it. */
module Population {
  import opened Models
  import opened RealSums
  import opened Statistics

  type Histories = map<string, seq<Transaction>>

  /** One possible iteration order over the users. */
  ghost predicate Order(order: seq<string>, users: set<string>) {
    multiset(order) == multiset(users)
  }

  lemma {:induction false} SomeOrder(users: set<string>) returns (order: seq<string>)
    ensures Order(order, users)
    decreases |users|
  {
    if users == {} {
      order := [];
    } else {
      var u :| u in users;
      var rest := SomeOrder(users - {u});
      order := rest + [u];
      assert multiset(users) == multiset(users - {u}) + multiset{u};
    }
  }

  function AmountsOfUser(histories: Histories, category: string): string -> seq<real> {
    u => if u in histories then AmountsOf(histories[u], category) else []
  }

  /** The amounts of one category, users visited in the given order. */
  function Gathered(histories: Histories, order: seq<string>, category: string): seq<real> {
    FlatMap(AmountsOfUser(histories, category), order)
  }

  /** Mean and deviation, or zeros below two transactions. */
  function StatsOf(sqrt: SquareRoot, amounts: seq<real>): (real, real) {
    if |amounts| < 2 then (0.0, 0.0) else (Mean(amounts), StdDev(sqrt, amounts).value)
  }

  /** First and third quartile, or zeros below four transactions. */
  function QuartilesOf(amounts: seq<real>): (q: (real, real))
    ensures q.0 <= q.1
  {
    if |amounts| < 4 then (0.0, 0.0)
    else
      QuantileMonotone(0.25, 0.75, Sort(amounts));
      (Quantile(0.25, Sort(amounts)), Quantile(0.75, Sort(amounts)))
  }

  /** The baselines depend only on the multiset of amounts. */
  lemma BaselinesIgnoreOrder(sqrt: SquareRoot, xs: seq<real>, ys: seq<real>)
    requires multiset(xs) == multiset(ys)
    ensures StatsOf(sqrt, xs) == StatsOf(sqrt, ys) && QuartilesOf(xs) == QuartilesOf(ys)
  {
    MeanIgnoresOrder(xs, ys);
    StdDevIgnoresOrder(sqrt, xs, ys);
    SortPermutes(xs, ys);
  }

  /** The baseline by the plain sums, and zeros where it would rest on fewer than two
      amounts. */
  lemma StatsFromSums(sqrt: SquareRoot, amounts: seq<real>)
    requires IsRoot(sqrt)
    ensures |amounts| < 2 ==> StatsOf(sqrt, amounts) == (0.0, 0.0)
    ensures |amounts| >= 2 ==> Repeated(|amounts|, StatsOf(sqrt, amounts).0) == SumBy(Identity(), amounts)
    ensures |amounts| >= 2 ==> IsDeviation(amounts, StatsOf(sqrt, amounts).1)
  {
    if |amounts| >= 2 {
      MeanTimesCount(amounts);
      DeviationFromSums(sqrt, amounts);
    }
  }

  /** The quartiles by position in the sorted amounts, and zeros below four amounts. */
  lemma QuartilesByCount(amounts: seq<real>)
    ensures |amounts| < 4 ==> QuartilesOf(amounts) == (0.0, 0.0)
    ensures |amounts| >= 4 ==>
      var sorted, q := Sort(amounts), QuartilesOf(amounts);
      |sorted| == |amounts| && AtQuarter(sorted, 1, q.0) && AtQuarter(sorted, 3, q.1)
  {
    if |amounts| >= 4 {
      assert |multiset(Sort(amounts))| == |multiset(amounts)|;
      QuartileByCount(Sort(amounts), 1);
      QuartileByCount(Sort(amounts), 3);
    }
  }

  // ----- What is gathered ---------------------------------------------------------------

  predicate Spent(h: Transaction, category: string, x: real) {
    h.category == category && h.amount == x
  }

  /** The places where a history holds the amount `x` in the category. */
  ghost function Places(hist: seq<Transaction>, category: string, x: real): set<int> {
    set i | 0 <= i < |hist| && Spent(hist[i], category, x)
  }

  lemma {:induction false} AmountsCountPlaces(hist: seq<Transaction>, category: string, x: real)
    ensures multiset(AmountsOf(hist, category))[x] == |Places(hist, category, x)|
  {
    if |hist| == 0 {
    } else {
      var n := |hist| - 1;
      AmountsCountPlaces(hist[..n], category, x);
      var front := Places(hist[..n], category, x);
      if Spent(hist[n], category, x) {
        assert Places(hist, category, x) == front + {n};
      } else {
        assert Places(hist, category, x) == front;
      }
    }
  }

  ghost function PlacesOfUser(histories: Histories, category: string, x: real): string -> real {
    u => if u in histories then |Places(histories[u], category, x)| as real else 0.0
  }

  /** Whatever the order, every amount is gathered once for each place that holds it, over
      all users. */
  lemma GatheredCountsPlaces(histories: Histories, order: seq<string>, category: string, x: real)
    ensures multiset(Gathered(histories, order, category))[x] as real
         == SumBy(PlacesOfUser(histories, category, x), order)
  {
    var f := AmountsOfUser(histories, category);
    FlatMapCounts(f, order, x);
    forall u: string
      ensures Copies(f, x)(u) == PlacesOfUser(histories, category, x)(u)
    {
      if u in histories {
        AmountsCountPlaces(histories[u], category, x);
      }
    }
    SumsAgree(Copies(f, x), PlacesOfUser(histories, category, x), order);
  }

  /** The walk over the map, in whatever order it happens to take: it collects what
      every order collects. */
  method Gather(histories: Histories, category: string) returns (amounts: seq<real>)
    ensures forall order :: Order(order, histories.Keys) ==>
      multiset(amounts) == multiset(Gathered(histories, order, category))
  {
    amounts := [];
    ghost var visited: seq<string> := [];
    var todo := histories.Keys;
    while todo != {}
      invariant todo <= histories.Keys
      invariant multiset(visited) + multiset(todo) == multiset(histories.Keys)
      invariant amounts == Gathered(histories, visited, category)
      decreases |todo|
    {
      var u :| u in todo;
      var more := AmountsOfCategory(histories[u], category);
      assert (visited + [u])[..|visited|] == visited;
      amounts := amounts + more;
      visited := visited + [u];
      todo := todo - {u};
    }
    forall order | Order(order, histories.Keys)
      ensures multiset(amounts) == multiset(Gathered(histories, order, category))
    {
      FlatMapPermutes(AmountsOfUser(histories, category), visited, order);
    }
  }

  /** Whatever order the map was visited in, the answer is that of every order. */
  method GlobalCategoryStats(sqrt: SquareRoot, histories: Histories, category: string) returns (mean: real, std: real)
    ensures forall order :: Order(order, histories.Keys) ==>
      (mean, std) == StatsOf(sqrt, Gathered(histories, order, category))
    ensures std >= 0.0
  {
    var amounts := Gather(histories, category);
    forall order | Order(order, histories.Keys)
      ensures StatsOf(sqrt, amounts) == StatsOf(sqrt, Gathered(histories, order, category))
    {
      BaselinesIgnoreOrder(sqrt, amounts, Gathered(histories, order, category));
    }
    if |amounts| < 2 {
      return 0.0, 0.0;
    }
    mean := Mean(amounts);
    std := StdDev(sqrt, amounts).value;
  }

  method GlobalCategoryQuartiles(histories: Histories, category: string) returns (q1: real, q3: real)
    ensures forall order :: Order(order, histories.Keys) ==>
      (q1, q3) == QuartilesOf(Gathered(histories, order, category))
    ensures q1 <= q3
  {
    var amounts := Gather(histories, category);
    forall order | Order(order, histories.Keys)
      ensures QuartilesOf(amounts) == QuartilesOf(Gathered(histories, order, category))
    {
      SortPermutes(amounts, Gathered(histories, order, category));
      MeanIgnoresOrder(amounts, Gathered(histories, order, category));
    }
    if |amounts| < 4 {
      return 0.0, 0.0;
    }
    var sorted := Sort(amounts);
    q1 := Quantile(0.25, sorted);
    q3 := Quantile(0.75, sorted);
    QuantileMonotone(0.25, 0.75, sorted);
  }
}

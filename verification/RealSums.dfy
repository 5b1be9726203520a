/** Sums, counts and sorted forms that do not depend on the order in which
    their elements are visited. */
module RealSums {

  function SumBy<T>(f: T -> real, xs: seq<T>): real {
    if |xs| == 0 then 0.0 else SumBy(f, xs[..|xs| - 1]) + f(xs[|xs| - 1])
  }

  lemma {:induction false} SumBySnoc<T>(f: T -> real, xs: seq<T>, x: T)
    ensures SumBy(f, xs + [x]) == SumBy(f, xs) + f(x)
  {
    assert (xs + [x])[..|xs|] == xs;
  }

  lemma {:induction false} SumByConcat<T>(f: T -> real, xs: seq<T>, ys: seq<T>)
    ensures SumBy(f, xs + ys) == SumBy(f, xs) + SumBy(f, ys)
  {
    if |ys| == 0 {
      assert xs + ys == xs;
    } else {
      var ys', y := ys[..|ys| - 1], ys[|ys| - 1];
      SumByConcat(f, xs, ys');
      SumBySnoc(f, xs + ys', y);
      assert xs + ys' + [y] == xs + ys;
    }
  }

  /** The step of every induction over permutations: the last element of one sequence
      sits somewhere in the other, and taking both away leaves permutations. */
  lemma MatchLast<T>(xs: seq<T>, ys: seq<T>) returns (l: seq<T>, r: seq<T>)
    requires multiset(xs) == multiset(ys) && |xs| > 0
    ensures |ys| == |xs| && ys == l + [xs[|xs| - 1]] + r
    ensures multiset(xs[..|xs| - 1]) == multiset(l + r)
  {
    var n := |xs| - 1;
    var x := xs[n];
    assert |multiset(xs)| == |xs| && |multiset(ys)| == |ys|;
    assert x in multiset(ys);
    var i :| 0 <= i < |ys| && ys[i] == x;
    l, r := ys[..i], ys[i + 1..];
    assert xs == xs[..n] + [x] && ys == l + [x] + r;
    CancelOne(multiset(xs[..n]), multiset(l + r), x);
  }

  lemma CancelOne<T>(a: multiset<T>, b: multiset<T>, x: T)
    requires a + multiset{x} == b + multiset{x}
    ensures a == b
  {
    forall y
      ensures a[y] == b[y]
    {
      assert (a + multiset{x})[y] == (b + multiset{x})[y];
    }
  }

  lemma SumByMiddle<T>(f: T -> real, l: seq<T>, x: T, r: seq<T>)
    ensures SumBy(f, l + [x] + r) == SumBy(f, l + r) + f(x)
  {
    SumByConcat(f, l + [x], r);
    SumBySnoc(f, l, x);
    SumByConcat(f, l, r);
  }

  /** A sum depends only on the multiset of its terms. */
  lemma {:induction false} SumByPermutes<T>(f: T -> real, xs: seq<T>, ys: seq<T>)
    requires multiset(xs) == multiset(ys)
    ensures SumBy(f, xs) == SumBy(f, ys) && |xs| == |ys|
    decreases |xs|
  {
    if |xs| == 0 {
      assert |multiset(ys)| == |multiset(xs)| == 0;
    } else {
      var l, r := MatchLast(xs, ys);
      SumByPermutes(f, xs[..|xs| - 1], l + r);
      SumByMiddle(f, l, xs[|xs| - 1], r);
    }
  }

  lemma {:induction false} SumsAgree<T>(f: T -> real, g: T -> real, xs: seq<T>)
    requires forall x :: x in xs ==> f(x) == g(x)
    ensures SumBy(f, xs) == SumBy(g, xs)
  {
    if |xs| == 0 {
    } else {
      SumsAgree(f, g, xs[..|xs| - 1]);
      assert xs[|xs| - 1] in xs;
    }
  }

  /** Terms in [-1, 1] sum to at most their number, in magnitude. */
  lemma {:induction false} SumOfUnitTerms<T>(f: T -> real, xs: seq<T>)
    requires forall x :: x in xs ==> -1.0 <= f(x) <= 1.0
    ensures -(|xs| as real) <= SumBy(f, xs) <= |xs| as real
  {
    if |xs| == 0 {
    } else {
      var n := |xs| - 1;
      SumOfUnitTerms(f, xs[..n]);
      assert xs[n] in xs;
    }
  }

  // ----- The sorted form of a multiset ----------------------------------------

  ghost predicate Sorted(xs: seq<real>) {
    forall i, j :: 0 <= i <= j < |xs| ==> xs[i] <= xs[j]
  }

  function Insert(x: real, xs: seq<real>): (r: seq<real>)
    ensures multiset(r) == multiset(xs) + multiset{x}
  {
    if |xs| == 0 then [x]
    else if x >= xs[|xs| - 1] then xs + [x]
    else
      var n := |xs| - 1;
      assert xs == xs[..n] + [xs[n]];
      Insert(x, xs[..n]) + [xs[n]]
  }

  lemma {:induction false} InsertKeepsSorted(x: real, xs: seq<real>)
    requires Sorted(xs)
    ensures Sorted(Insert(x, xs))
  {
    if |xs| == 0 {
    } else {
      var n := |xs| - 1;
      SortedFront(xs);
      if x < xs[n] {
        InsertKeepsSorted(x, xs[..n]);
        InsertStaysBelow(x, xs[..n], xs[n]);
        SortedSnoc(Insert(x, xs[..n]), xs[n]);
      } else {
        SortedSnoc(xs, x);
      }
    }
  }

  lemma SortedFront(xs: seq<real>)
    requires Sorted(xs) && |xs| > 0
    ensures var front := xs[..|xs| - 1];
      Sorted(front) && forall i :: 0 <= i < |front| ==> front[i] <= xs[|xs| - 1]
  {
  }

  lemma SortedSnoc(xs: seq<real>, y: real)
    requires Sorted(xs) && forall i :: 0 <= i < |xs| ==> xs[i] <= y
    ensures Sorted(xs + [y])
  {
  }

  lemma {:induction false} InsertStaysBelow(x: real, xs: seq<real>, y: real)
    requires x <= y && forall i :: 0 <= i < |xs| ==> xs[i] <= y
    ensures forall i :: 0 <= i < |Insert(x, xs)| ==> Insert(x, xs)[i] <= y
  {
    if |xs| > 0 && x < xs[|xs| - 1] {
      InsertStaysBelow(x, xs[..|xs| - 1], y);
    }
  }

  /** What `sort.Float64s` leaves in the slice. */
  function Sort(xs: seq<real>): (r: seq<real>)
    ensures Sorted(r) && multiset(r) == multiset(xs) && |r| == |xs|
  {
    if |xs| == 0 then []
    else
      var n := |xs| - 1;
      assert xs == xs[..n] + [xs[n]];
      var r := Insert(xs[n], Sort(xs[..n]));
      InsertKeepsSorted(xs[n], Sort(xs[..n]));
      assert |multiset(r)| == |r|;
      r
  }

  lemma LastIsLargest(xs: seq<real>, ys: seq<real>)
    requires Sorted(xs) && multiset(xs) == multiset(ys) && |xs| == |ys| > 0
    ensures ys[|ys| - 1] <= xs[|xs| - 1]
  {
    assert ys[|ys| - 1] in multiset(xs);
  }

  lemma {:induction false} SortedFormIsUnique(xs: seq<real>, ys: seq<real>)
    requires Sorted(xs) && Sorted(ys) && multiset(xs) == multiset(ys)
    ensures xs == ys
    decreases |xs|
  {
    assert |multiset(xs)| == |xs| && |multiset(ys)| == |ys|;
    if |xs| == 0 {
    } else {
      var n := |xs| - 1;
      LastIsLargest(xs, ys);
      LastIsLargest(ys, xs);
      assert xs == xs[..n] + [xs[n]] && ys == ys[..n] + [ys[n]];
      CancelOne(multiset(xs[..n]), multiset(ys[..n]), xs[n]);
      SortedFormIsUnique(xs[..n], ys[..n]);
    }
  }

  /** Sorting forgets the order of its input. */
  lemma SortPermutes(xs: seq<real>, ys: seq<real>)
    requires multiset(xs) == multiset(ys)
    ensures Sort(xs) == Sort(ys)
  {
    SortedFormIsUnique(Sort(xs), Sort(ys));
  }

  // ----- Filters ---------------------------------------------------------------

  function Filter<T>(p: T -> bool, xs: seq<T>): seq<T> {
    if |xs| == 0 then []
    else
      var n := |xs| - 1;
      Filter(p, xs[..n]) + (if p(xs[n]) then [xs[n]] else [])
  }

  lemma {:induction false} FilterSnoc<T>(p: T -> bool, xs: seq<T>, x: T)
    ensures Filter(p, xs + [x]) == Filter(p, xs) + (if p(x) then [x] else [])
  {
    assert (xs + [x])[..|xs|] == xs;
  }

  // ----- Collecting ------------------------------------------------------------

  /** Everything `f` contributes for each element, in order. */
  function FlatMap<T, U>(f: T -> seq<U>, xs: seq<T>): seq<U> {
    if |xs| == 0 then [] else FlatMap(f, xs[..|xs| - 1]) + f(xs[|xs| - 1])
  }

  lemma FlatMapOne<T, U>(f: T -> seq<U>, x: T)
    ensures FlatMap(f, [x]) == f(x)
  {
    assert [x][..0] == [] && FlatMap(f, []) == [];
    assert FlatMap(f, [x]) == [] + f(x);
  }

  lemma FlatMapSnoc<T, U>(f: T -> seq<U>, xs: seq<T>, x: T)
    ensures FlatMap(f, xs + [x]) == FlatMap(f, xs) + f(x)
  {
    assert (xs + [x])[..|xs|] == xs;
  }

  lemma {:induction false} FlatMapConcat<T, U>(f: T -> seq<U>, xs: seq<T>, ys: seq<T>)
    ensures FlatMap(f, xs + ys) == FlatMap(f, xs) + FlatMap(f, ys)
  {
    if |ys| == 0 {
      assert xs + ys == xs;
    } else {
      var front, last := ys[..|ys| - 1], ys[|ys| - 1];
      FlatMapConcat(f, xs, front);
      assert xs + ys == (xs + front) + [last];
      FlatMapSnoc(f, xs + front, last);
    }
  }

  ghost function Copies<T, U>(f: T -> seq<U>, u: U): T -> real {
    x => multiset(f(x))[u] as real
  }

  lemma {:induction false} FlatMapCounts<T, U>(f: T -> seq<U>, xs: seq<T>, u: U)
    ensures multiset(FlatMap(f, xs))[u] as real == SumBy(Copies(f, u), xs)
  {
    if |xs| == 0 {
    } else {
      FlatMapCounts(f, xs[..|xs| - 1], u);
    }
  }

  /** Visiting the elements in another order collects the same multiset. */
  lemma FlatMapPermutes<T, U(!new)>(f: T -> seq<U>, xs: seq<T>, ys: seq<T>)
    requires multiset(xs) == multiset(ys)
    ensures multiset(FlatMap(f, xs)) == multiset(FlatMap(f, ys)) && |FlatMap(f, xs)| == |FlatMap(f, ys)|
  {
    forall u
      ensures multiset(FlatMap(f, xs))[u] == multiset(FlatMap(f, ys))[u]
    {
      FlatMapCounts(f, xs, u);
      FlatMapCounts(f, ys, u);
      SumByPermutes(Copies(f, u), xs, ys);
    }
    assert |multiset(FlatMap(f, xs))| == |FlatMap(f, xs)| && |multiset(FlatMap(f, ys))| == |FlatMap(f, ys)|;
  }
}

/** Cardinalities of finite sets. */
module FiniteSets {

  predicate Injective(n: nat, f: nat -> int) {
    forall i: nat, j: nat :: i < j < n ==> f(i) != f(j)
  }

  /** An injection of 0..N into itself is onto. */
  lemma Pigeonhole(N: nat, f: nat -> int, target: nat)
    requires target < N && Injective(N, f)
    requires forall i: nat :: i < N ==> 0 <= f(i) < N
    ensures exists n: nat :: n < N && f(n) == target
  {
    if forall n: nat :: n < N ==> f(n) != target {
      ImageSize(N, f);
      SubsetIsSmaller(Image(N, f), Range(N) - {target});
      assert false;
    }
  }

  function Range(n: nat): (r: set<int>)
    ensures |r| == n
    ensures forall x :: x in r <==> 0 <= x < n
  {
    if n == 0 then {} else Range(n - 1) + {n - 1}
  }

  function Image(n: nat, f: nat -> int): set<int> {
    set i: nat | i < n :: f(i)
  }

  lemma {:induction false} ImageSize(n: nat, f: nat -> int)
    requires Injective(n, f)
    ensures |Image(n, f)| == n
  {
    if n == 0 {
    } else {
      ImageSize(n - 1, f);
      assert Image(n, f) == Image(n - 1, f) + {f(n - 1)};
      assert f(n - 1) !in Image(n - 1, f);
    }
  }

  lemma {:induction false} SubsetIsSmaller<T>(a: set<T>, b: set<T>)
    requires a <= b
    ensures |a| <= |b|
  {
    if a != {} {
      var x :| x in a;
      SubsetIsSmaller(a - {x}, b - {x});
    }
  }

  lemma {:induction false} SomeBound(used: set<nat>) returns (n: nat)
    ensures forall c :: c in used ==> c < n
    decreases |used|
  {
    if used == {} {
      n := 0;
    } else {
      var c :| c in used;
      var m := SomeBound(used - {c});
      n := if c < m then m else c + 1;
      assert forall d :: d in used ==> d == c || d in used - {c};
    }
  }
}

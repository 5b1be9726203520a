/** Which positions of a sequence a loop keeps, and in what order. */
module Selections {
  import opened RealSums

  predicate Accepted<T>(keep: T -> bool, xs: seq<T>, i: nat) {
    i < |xs| && keep(xs[i])
  }

  ghost predicate Rising(at: seq<nat>) {
    forall j, k :: 0 <= j < k < |at| ==> at[j] < at[k]
  }

  /** `at` lists in rising order exactly the positions of `xs` that `keep` accepts. */
  ghost predicate Picks<T>(keep: T -> bool, xs: seq<T>, at: seq<nat>) {
    Rising(at) && forall i: nat :: i in at <==> Accepted(keep, xs, i)
  }

  function Extended(kept: bool, at: seq<nat>, n: nat): seq<nat> {
    if kept then at + [n] else at
  }

  lemma PicksSnoc<T>(keep: T -> bool, xs: seq<T>, at: seq<nat>, x: T)
    requires Picks(keep, xs, at)
    ensures Picks(keep, xs + [x], Extended(keep(x), at, |xs|))
  {
    var more := Extended(keep(x), at, |xs|);
    RisingSnoc(keep, xs, at);
    forall i: nat
      ensures i in more <==> Accepted(keep, xs + [x], i)
    {
      assert i in at <==> Accepted(keep, xs, i);
    }
  }

  lemma RisingSnoc<T>(keep: T -> bool, xs: seq<T>, at: seq<nat>)
    requires Picks(keep, xs, at)
    ensures Rising(at + [|xs|])
  {
    forall j | 0 <= j < |at|
      ensures at[j] < |xs|
    {
      assert at[j] in at && Accepted(keep, xs, at[j]);
    }
  }

  lemma SamePicks<T>(p: T -> bool, q: T -> bool, xs: seq<T>, at: seq<nat>)
    requires Picks(p, xs, at) && forall x :: p(x) == q(x)
    ensures Picks(q, xs, at)
  {
    forall i: nat
      ensures i in at <==> Accepted(q, xs, i)
    {
      assert i in at <==> Accepted(p, xs, i);
    }
  }

  /** What each pick is. */
  lemma PickedAreAccepted<T>(keep: T -> bool, xs: seq<T>, at: seq<nat>)
    requires Picks(keep, xs, at)
    ensures forall k :: 0 <= k < |at| ==> Accepted(keep, xs, at[k])
  {
    forall k | 0 <= k < |at|
      ensures Accepted(keep, xs, at[k])
    {
      assert at[k] in at;
    }
  }

  /** Collecting `make` of the accepted elements: one result for each, in order. */
  function Keep<T, U>(keep: T -> bool, make: T -> U): T -> seq<U> {
    x => if keep(x) then [make(x)] else []
  }

  lemma {:induction false} FlatMapPicks<T, U>(keep: T -> bool, make: T -> U, f: T -> seq<U>, xs: seq<T>)
      returns (at: seq<nat>)
    requires forall x :: f(x) == Keep(keep, make)(x)
    ensures Picks(keep, xs, at) && |FlatMap(f, xs)| == |at|
    ensures forall k :: 0 <= k < |at| ==> at[k] < |xs| && FlatMap(f, xs)[k] == make(xs[at[k]])
  {
    if |xs| == 0 {
      at := [];
    } else {
      var n := |xs| - 1;
      var front := FlatMapPicks(keep, make, f, xs[..n]);
      at := Extended(keep(xs[n]), front, n);
      PicksSnoc(keep, xs[..n], front, xs[n]);
      assert xs == xs[..n] + [xs[n]];
      assert f(xs[n]) == Keep(keep, make)(xs[n]);
      PickedAreAccepted(keep, xs, at);
    }
  }
}

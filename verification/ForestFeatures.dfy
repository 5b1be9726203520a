/** Which features a two-feature isolation forest splits on (internal/ml/ml.go): the
    low bit of the generator alternates, a split draws twice and a constant column
    once, so the feature of a split follows from the constant columns met before it. */
module ForestFeatures {
  import opened Models
  import opened Prng
  import opened RealSums
  import opened IsolationForest

  /** The number of nodes that drew a feature and found its column constant: each
      costs one draw, while a split costs two. */
  ghost function Wasted(w: Stream, data: seq<Row>, dims: nat, maxDepth: nat, depth: nat, at: nat): nat
    requires Rectangular(data, dims)
    decreases maxDepth - depth, 1
  {
    if depth >= maxDepth || |data| <= 1 then 0
    else
      var c := DrawCut(w, data, dims, at);
      if c.lo == c.hi then 1
      else
        var afterLeft := BuildSide(w, LeftOf(data, dims, c), dims, maxDepth, depth, c.next).1;
        WastedSide(w, LeftOf(data, dims, c), dims, maxDepth, depth, c.next) +
        WastedSide(w, RightOf(data, dims, c), dims, maxDepth, depth, afterLeft)
  }

  ghost function WastedSide(w: Stream, data: seq<Row>, dims: nat, maxDepth: nat, depth: nat, at: nat): nat
    requires depth < maxDepth && Rectangular(data, dims)
    decreases maxDepth - depth, 0
  {
    if |data| == 0 then 0 else Wasted(w, data, dims, maxDepth, depth + 1, at)
  }

  /** The low bit of the words alternates, as it does for this generator. */
  ghost predicate Alternates(w: Stream, seed: int) {
    forall n: nat :: w(n) % 2 == (seed + n) % 2
  }

  lemma DrawsAlternate(seed: Word)
    ensures Alternates(DrawsFrom(seed), seed)
  {
    forall n: nat {
      ParityCountsDraws(n, seed);
    }
  }

  /** Exactly two draws per split and one per wasted node. */
  lemma {:induction false} DrawCount(w: Stream, data: seq<Row>, dims: nat, maxDepth: nat, depth: nat, at: nat)
    requires Rectangular(data, dims)
    ensures var b := Build(w, data, dims, maxDepth, depth, at);
      b.1 == at + 2 * Splits(b.0) + Wasted(w, data, dims, maxDepth, depth, at)
    decreases maxDepth - depth
  {
    if !(depth >= maxDepth || |data| <= 1) {
      var c := DrawCut(w, data, dims, at);
      if c.lo != c.hi {
        var left, right := LeftOf(data, dims, c), RightOf(data, dims, c);
        var afterLeft := BuildSide(w, left, dims, maxDepth, depth, c.next).1;
        if |left| > 0 {
          DrawCount(w, left, dims, maxDepth, depth + 1, c.next);
        }
        if |right| > 0 {
          DrawCount(w, right, dims, maxDepth, depth + 1, afterLeft);
        }
        if |left| == 0 && |right| == 0 {
          EmptySides(data, dims, c);
        }
      }
    }
  }

  lemma EmptySides(data: seq<Row>, dims: nat, c: Cut)
    requires Rectangular(data, dims) && |data| > 0 && c.feature < dims
    ensures |LeftOf(data, dims, c)| > 0 || |RightOf(data, dims, c)| > 0
  {
    var right := !(data[0][c.feature] < c.split);
    FilterKeeps(Turn(c.feature, c.split, right), data, 0);
  }

  function Splits(t: Tree): nat {
    if t.IsLeaf() then 0
    else
      1 + (if t.left.Some? then Splits(t.left.value) else 0) + (if t.right.Some? then Splits(t.right.value) else 0)
  }

  predicate SplitsOnly(t: Tree, f: nat) {
    t.IsLeaf() ||
    (&& t.feature == f
     && (t.left.Some? ==> SplitsOnly(t.left.value, f))
     && (t.right.Some? ==> SplitsOnly(t.right.value, f)))
  }

  predicate Only(xs: seq<nat>, f: nat) {
    forall i :: 0 <= i < |xs| ==> xs[i] == f
  }

  lemma OnlyConcat(a: seq<nat>, b: seq<nat>, f: nat)
    ensures Only(a + b, f) <==> Only(a, f) && Only(b, f)
  {
    if Only(a + b, f) {
      assert forall i :: 0 <= i < |a| ==> a[i] == (a + b)[i];
      assert forall i :: 0 <= i < |b| ==> b[i] == (a + b)[|a| + i];
    }
  }

  /** The features a tree tests, in the order its nodes were built. */
  function Features(t: Tree): seq<nat> {
    if t.IsLeaf() then []
    else [t.feature] + (ChildFeatures(t.left) + ChildFeatures(t.right))
  }

  function ChildFeatures(child: Option<Tree>): seq<nat> {
    if child.Some? then Features(child.value) else []
  }

  lemma {:induction false} SplitsOnlyIff(t: Tree, f: nat)
    ensures SplitsOnly(t, f) <==> Only(Features(t), f)
  {
    if !t.IsLeaf() {
      var l, r := ChildFeatures(t.left), ChildFeatures(t.right);
      if t.left.Some? {
        SplitsOnlyIff(t.left.value, f);
      }
      if t.right.Some? {
        SplitsOnlyIff(t.right.value, f);
      }
      OnlyConcat([t.feature], l + r, f);
      OnlyConcat(l, r, f);
      assert [t.feature][0] == t.feature;
    }
  }

  // ----- The parity law -----------------------------------------------------------------

  /** A split: its feature, and the number of constant columns met before it. */
  datatype Split = Split(feature: nat, constants: nat)

  /** The splits of a tree in the order they are made, when `k` constant columns have
      been met before. */
  ghost function SplitLog(w: Stream, data: seq<Row>, maxDepth: nat, depth: nat, at: nat, k: nat): seq<Split>
    requires Rectangular(data, 2)
    decreases maxDepth - depth, 1
  {
    if depth >= maxDepth || |data| <= 1 then []
    else
      var c := DrawCut(w, data, 2, at);
      if c.lo == c.hi then []
      else
        var left, right := LeftOf(data, 2, c), RightOf(data, 2, c);
        var afterLeft := BuildSide(w, left, 2, maxDepth, depth, c.next).1;
        [Split(c.feature, k)] +
        (SideLog(w, left, maxDepth, depth, c.next, k) +
         SideLog(w, right, maxDepth, depth, afterLeft, k + WastedSide(w, left, 2, maxDepth, depth, c.next)))
  }

  ghost function SideLog(w: Stream, data: seq<Row>, maxDepth: nat, depth: nat, at: nat, k: nat): seq<Split>
    requires depth < maxDepth && Rectangular(data, 2)
    decreases maxDepth - depth, 0
  {
    if |data| == 0 then [] else SplitLog(w, data, maxDepth, depth + 1, at, k)
  }

  function FeaturesOf(log: seq<Split>): seq<nat> {
    seq(|log|, i requires 0 <= i < |log| => log[i].feature)
  }

  lemma FeaturesOfConcat(a: seq<Split>, b: seq<Split>)
    ensures FeaturesOf(a + b) == FeaturesOf(a) + FeaturesOf(b)
  {
  }

  /** The log lists exactly the splits of the tree that was built. */
  lemma {:induction false} LogFollowsTree(w: Stream, data: seq<Row>, maxDepth: nat, depth: nat, at: nat, k: nat)
    requires Rectangular(data, 2)
    ensures FeaturesOf(SplitLog(w, data, maxDepth, depth, at, k)) == Features(Build(w, data, 2, maxDepth, depth, at).0)
    decreases maxDepth - depth, 1
  {
    if !(depth >= maxDepth || |data| <= 1) {
      var c := DrawCut(w, data, 2, at);
      if c.lo != c.hi {
        var left, right := LeftOf(data, 2, c), RightOf(data, 2, c);
        var side := BuildSide(w, left, 2, maxDepth, depth, c.next);
        var other := BuildSide(w, right, 2, maxDepth, depth, side.1);
        var k' := k + WastedSide(w, left, 2, maxDepth, depth, c.next);
        SideFollows(w, left, maxDepth, depth, c.next, k);
        SideFollows(w, right, maxDepth, depth, side.1, k');
        var l, r := SideLog(w, left, maxDepth, depth, c.next, k), SideLog(w, right, maxDepth, depth, side.1, k');
        FeaturesOfNode(Split(c.feature, k), l, r);
        EmptySides(data, 2, c);
      }
    }
  }

  lemma {:induction false} SideFollows(w: Stream, data: seq<Row>, maxDepth: nat, depth: nat, at: nat, k: nat)
    requires depth < maxDepth && Rectangular(data, 2)
    ensures FeaturesOf(SideLog(w, data, maxDepth, depth, at, k))
         == ChildFeatures(BuildSide(w, data, 2, maxDepth, depth, at).0)
    decreases maxDepth - depth, 0
  {
    if |data| == 0 {
    } else {
      LogFollowsTree(w, data, maxDepth, depth + 1, at, k);
    }
  }

  lemma FeaturesOfNode(e: Split, l: seq<Split>, r: seq<Split>)
    ensures FeaturesOf([e] + (l + r)) == [e.feature] + (FeaturesOf(l) + FeaturesOf(r))
  {
    FeaturesOfConcat([e], l + r);
    FeaturesOfConcat(l, r);
  }

  lemma FeatureParity(w: Stream, seed: nat, data: seq<Row>, at: nat)
    requires Alternates(w, seed) && Rectangular(data, 2) && |data| > 0
    ensures DrawCut(w, data, 2, at).feature == (seed + at + 1) % 2
  {
    assert w(at + 1) % 2 == (seed + (at + 1)) % 2;
  }

  lemma EvenShift(x: int, k: int)
    ensures (x + 2 * k) % 2 == x % 2
  {
  }

  /** The draws used and the constant columns met have the same parity. */
  predicate InStep(at: nat, k: nat) {
    at % 2 == k % 2
  }

  lemma SameParity(seed: nat, at: nat, k: nat)
    requires InStep(at, k)
    ensures (seed + at + 1) % 2 == (seed + 1 + k) % 2
  {
    EvenShift(seed + 1 + at % 2, at / 2);
    EvenShift(seed + 1 + k % 2, k / 2);
  }

  /** A side that starts in step with the constant columns met so far ends in step. */
  lemma SideKeepsStep(w: Stream, data: seq<Row>, maxDepth: nat, depth: nat, at: nat, k: nat)
    requires depth < maxDepth && Rectangular(data, 2) && InStep(at, k)
    ensures InStep(BuildSide(w, data, 2, maxDepth, depth, at).1, k + WastedSide(w, data, 2, maxDepth, depth, at))
  {
    if |data| > 0 {
      TreeKeepsStep(w, data, maxDepth, depth + 1, at, k);
    }
  }

  lemma TreeKeepsStep(w: Stream, data: seq<Row>, maxDepth: nat, depth: nat, at: nat, k: nat)
    requires Rectangular(data, 2) && InStep(at, k)
    ensures InStep(Build(w, data, 2, maxDepth, depth, at).1, k + Wasted(w, data, 2, maxDepth, depth, at))
  {
    DrawCount(w, data, 2, maxDepth, depth, at);
    var s, x := Splits(Build(w, data, 2, maxDepth, depth, at).0), Wasted(w, data, 2, maxDepth, depth, at);
    EvenShift(at + x, s);
    SumParity(at, k, x);
  }

  lemma SumParity(a: nat, b: nat, x: nat)
    requires a % 2 == b % 2
    ensures (a + x) % 2 == (b + x) % 2
  {
  }

  predicate Obeys(seed: nat, e: Split, k: nat, limit: nat) {
    e.feature == (seed + 1 + e.constants) % 2 && k <= e.constants <= limit
  }

  predicate AllObey(seed: nat, log: seq<Split>, k: nat, limit: nat) {
    forall i :: 0 <= i < |log| ==> Obeys(seed, log[i], k, limit)
  }

  /** The law of a tree: a split made after `c` constant columns uses feature
      (seed + 1 + c) mod 2, with no assumption on the rows. */
  lemma {:induction false} TreeLaw(w: Stream, seed: nat, data: seq<Row>, maxDepth: nat, depth: nat, at: nat, k: nat)
    requires Alternates(w, seed) && Rectangular(data, 2) && InStep(at, k)
    ensures AllObey(seed, SplitLog(w, data, maxDepth, depth, at, k), k, k + Wasted(w, data, 2, maxDepth, depth, at))
    decreases maxDepth - depth, 1
  {
    if !(depth >= maxDepth || |data| <= 1) {
      var c := DrawCut(w, data, 2, at);
      if c.lo != c.hi {
        var left, right := LeftOf(data, 2, c), RightOf(data, 2, c);
        var afterLeft := BuildSide(w, left, 2, maxDepth, depth, c.next).1;
        var k' := k + WastedSide(w, left, 2, maxDepth, depth, c.next);
        FeatureParity(w, seed, data, at);
        SameParity(seed, at, k);
        EvenShift(at, 1);
        SideLaw(w, seed, left, maxDepth, depth, c.next, k);
        SideKeepsStep(w, left, maxDepth, depth, c.next, k);
        SideLaw(w, seed, right, maxDepth, depth, afterLeft, k');
      }
    }
  }

  lemma {:induction false} SideLaw(w: Stream, seed: nat, data: seq<Row>, maxDepth: nat, depth: nat, at: nat, k: nat)
    requires Alternates(w, seed) && depth < maxDepth && Rectangular(data, 2) && InStep(at, k)
    ensures AllObey(seed, SideLog(w, data, maxDepth, depth, at, k), k, k + WastedSide(w, data, 2, maxDepth, depth, at))
    decreases maxDepth - depth, 0
  {
    if |data| == 0 {
    } else {
      TreeLaw(w, seed, data, maxDepth, depth + 1, at, k);
    }
  }

  // ----- The forest ---------------------------------------------------------------------

  /** The constant columns met while the first `n` trees were built. */
  ghost function ForestWaste(w: Stream, data: seq<Row>, n: nat, maxDepth: nat): nat
    requires Rectangular(data, 2)
  {
    if n == 0 then 0
    else ForestWaste(w, data, n - 1, maxDepth) + Wasted(w, data, 2, maxDepth, 0, Start(w, data, n - 1, maxDepth))
  }

  /** The draws used before tree `n`. */
  function Start(w: Stream, data: seq<Row>, n: nat, maxDepth: nat): nat
    requires Rectangular(data, 2)
  {
    BuildForest(w, data, 2, n, maxDepth, 0).1
  }

  ghost function ForestLog(w: Stream, data: seq<Row>, n: nat, maxDepth: nat): seq<Split>
    requires Rectangular(data, 2)
  {
    if n == 0 then []
    else
      ForestLog(w, data, n - 1, maxDepth) +
      SplitLog(w, data, maxDepth, 0, Start(w, data, n - 1, maxDepth), ForestWaste(w, data, n - 1, maxDepth))
  }

  function AllFeatures(trees: seq<Tree>): seq<nat> {
    if |trees| == 0 then [] else AllFeatures(trees[..|trees| - 1]) + Features(trees[|trees| - 1])
  }

  lemma AllFeaturesSnoc(trees: seq<Tree>, t: Tree)
    ensures AllFeatures(trees + [t]) == AllFeatures(trees) + Features(t)
  {
    assert (trees + [t])[..|trees|] == trees;
  }

  /** The tree that is built next, and the draws it leaves behind. */
  function NextTree(w: Stream, data: seq<Row>, n: nat, maxDepth: nat): (Tree, nat)
    requires Rectangular(data, 2)
  {
    Build(w, data, 2, maxDepth, 0, Start(w, data, n, maxDepth))
  }

  lemma ForestGrows(w: Stream, data: seq<Row>, n: nat, maxDepth: nat)
    requires Rectangular(data, 2) && n > 0
    ensures BuildForest(w, data, 2, n, maxDepth, 0).0
         == BuildForest(w, data, 2, n - 1, maxDepth, 0).0 + [NextTree(w, data, n - 1, maxDepth).0]
    ensures Start(w, data, n, maxDepth) == NextTree(w, data, n - 1, maxDepth).1
    ensures ForestWaste(w, data, n, maxDepth)
         == ForestWaste(w, data, n - 1, maxDepth) + Wasted(w, data, 2, maxDepth, 0, Start(w, data, n - 1, maxDepth))
  {
  }

  lemma {:induction false} ForestLogFollowsTrees(w: Stream, data: seq<Row>, n: nat, maxDepth: nat)
    requires Rectangular(data, 2)
    ensures FeaturesOf(ForestLog(w, data, n, maxDepth)) == AllFeatures(BuildForest(w, data, 2, n, maxDepth, 0).0)
  {
    if n == 0 {
    } else {
      ForestLogFollowsTrees(w, data, n - 1, maxDepth);
      var at, k := Start(w, data, n - 1, maxDepth), ForestWaste(w, data, n - 1, maxDepth);
      LogFollowsTree(w, data, maxDepth, 0, at, k);
      FeaturesOfConcat(ForestLog(w, data, n - 1, maxDepth), SplitLog(w, data, maxDepth, 0, at, k));
      ForestGrows(w, data, n, maxDepth);
      AllFeaturesSnoc(BuildForest(w, data, 2, n - 1, maxDepth, 0).0, NextTree(w, data, n - 1, maxDepth).0);
    }
  }

  lemma {:induction false} ForestKeepsStep(w: Stream, data: seq<Row>, n: nat, maxDepth: nat)
    requires Rectangular(data, 2)
    ensures InStep(Start(w, data, n, maxDepth), ForestWaste(w, data, n, maxDepth))
  {
    if n == 0 {
    } else {
      ForestKeepsStep(w, data, n - 1, maxDepth);
      NextTreeKeepsStep(w, data, n, maxDepth, Start(w, data, n - 1, maxDepth), ForestWaste(w, data, n - 1, maxDepth));
    }
  }

  lemma NextTreeKeepsStep(w: Stream, data: seq<Row>, n: nat, maxDepth: nat, at: nat, k: nat)
    requires Rectangular(data, 2) && n > 0
    requires at == Start(w, data, n - 1, maxDepth) && k == ForestWaste(w, data, n - 1, maxDepth) && InStep(at, k)
    ensures InStep(Start(w, data, n, maxDepth), ForestWaste(w, data, n, maxDepth))
  {
    var next, wasted := Build(w, data, 2, maxDepth, 0, at).1, Wasted(w, data, 2, maxDepth, 0, at);
    assert Start(w, data, n, maxDepth) == next && ForestWaste(w, data, n, maxDepth) == k + wasted;
    TreeKeepsStep(w, data, maxDepth, 0, at, k);
  }

  /** The law of a forest: over all its trees in order, a split made after `c` constant
      columns uses feature (seed + 1 + c) mod 2. */
  lemma {:induction false} ForestLaw(w: Stream, seed: nat, data: seq<Row>, n: nat, maxDepth: nat)
    requires Alternates(w, seed) && Rectangular(data, 2)
    ensures AllObey(seed, ForestLog(w, data, n, maxDepth), 0, ForestWaste(w, data, n, maxDepth))
  {
    if n == 0 {
    } else {
      ForestLaw(w, seed, data, n - 1, maxDepth);
      ForestKeepsStep(w, data, n - 1, maxDepth);
      OneMoreTree(w, seed, data, maxDepth, ForestLog(w, data, n - 1, maxDepth),
        Start(w, data, n - 1, maxDepth), ForestWaste(w, data, n - 1, maxDepth));
    }
  }

  lemma OneMoreTree(w: Stream, seed: nat, data: seq<Row>, maxDepth: nat, log: seq<Split>, at: nat, k: nat)
    requires Alternates(w, seed) && Rectangular(data, 2) && InStep(at, k) && AllObey(seed, log, 0, k)
    ensures AllObey(seed, log + SplitLog(w, data, maxDepth, 0, at, k), 0, k + Wasted(w, data, 2, maxDepth, 0, at))
  {
    TreeLaw(w, seed, data, maxDepth, 0, at, k);
  }

  predicate AllSplitOnly(trees: seq<Tree>, f: nat) {
    forall i :: 0 <= i < |trees| ==> SplitsOnly(trees[i], f)
  }

  lemma {:induction false} AllSplitOnlyIff(trees: seq<Tree>, f: nat)
    ensures AllSplitOnly(trees, f) <==> Only(AllFeatures(trees), f)
  {
    if |trees| == 0 {
    } else {
      var n := |trees| - 1;
      AllSplitOnlyIff(trees[..n], f);
      SplitsOnlyIff(trees[n], f);
      OnlyConcat(AllFeatures(trees[..n]), Features(trees[n]), f);
      if AllSplitOnly(trees[..n], f) && SplitsOnly(trees[n], f) {
        assert forall i :: 0 <= i < n ==> trees[i] == trees[..n][i];
      }
    }
  }

  /** Every split came after an even number of constant columns. */
  predicate AlwaysEven(log: seq<Split>) {
    forall i :: 0 <= i < |log| ==> log[i].constants % 2 == 0
  }

  lemma OneFeatureIffEven(seed: nat, log: seq<Split>, limit: nat)
    requires AllObey(seed, log, 0, limit)
    ensures Only(FeaturesOf(log), (seed + 1) % 2) <==> AlwaysEven(log)
  {
    var f := (seed + 1) % 2;
    forall i | 0 <= i < |log|
      ensures FeaturesOf(log)[i] == f <==> log[i].constants % 2 == 0
    {
      assert Obeys(seed, log[i], 0, limit);
    }
    if AlwaysEven(log) {
      assert forall i :: 0 <= i < |FeaturesOf(log)| ==> log[i].constants % 2 == 0 && FeaturesOf(log)[i] == f;
    }
  }

  /** The forest splits on one feature alone, the one the seed selects, if and only if
      every split comes after an even number of constant columns. */
  lemma OneFeatureIff(w: Stream, seed: nat, data: seq<Row>, n: nat, maxDepth: nat)
    requires Alternates(w, seed) && Rectangular(data, 2)
    ensures AllSplitOnly(BuildForest(w, data, 2, n, maxDepth, 0).0, (seed + 1) % 2)
       <==> AlwaysEven(ForestLog(w, data, n, maxDepth))
  {
    ForestLaw(w, seed, data, n, maxDepth);
    ForestLogFollowsTrees(w, data, n, maxDepth);
    AllSplitOnlyIff(BuildForest(w, data, 2, n, maxDepth, 0).0, (seed + 1) % 2);
    OneFeatureIffEven(seed, ForestLog(w, data, n, maxDepth), ForestWaste(w, data, n, maxDepth));
  }

  /** In particular when no constant column is met at all. */
  lemma NoConstantsOneFeature(w: Stream, seed: nat, data: seq<Row>, n: nat, maxDepth: nat)
    requires Alternates(w, seed) && Rectangular(data, 2) && ForestWaste(w, data, n, maxDepth) == 0
    ensures AllSplitOnly(BuildForest(w, data, 2, n, maxDepth, 0).0, (seed + 1) % 2)
  {
    ForestLaw(w, seed, data, n, maxDepth);
    NothingIsEven(seed, ForestLog(w, data, n, maxDepth));
    OneFeatureIff(w, seed, data, n, maxDepth);
  }

  lemma NothingIsEven(seed: nat, log: seq<Split>)
    requires AllObey(seed, log, 0, 0)
    ensures AlwaysEven(log)
  {
    forall i | 0 <= i < |log|
      ensures log[i].constants % 2 == 0
    {
      assert Obeys(seed, log[i], 0, 0);
    }
  }

  // ----- Queries --------------------------------------------------------------------------

  lemma {:induction false} PathIgnoresOtherFeatures(t: Tree, f: nat, x: Row, y: Row, depth: nat)
    requires Fits(t, |x|) && Fits(t, |y|) && SplitsOnly(t, f)
    requires f < |x| && f < |y| && x[f] == y[f]
    ensures PathLength(t, x, depth) == PathLength(t, y, depth)
    decreases t
  {
    if !t.IsLeaf() {
      if x[f] < t.split {
        if t.left.Some? {
          PathIgnoresOtherFeatures(t.left.value, f, x, y, depth + 1);
        }
      } else if t.right.Some? {
        PathIgnoresOtherFeatures(t.right.value, f, x, y, depth + 1);
      }
    }
  }

  lemma {:induction false} TotalPathIgnores(trees: seq<Tree>, f: nat, x: Row, y: Row)
    requires AllSplitOnly(trees, f)
    requires forall i :: 0 <= i < |trees| ==> Fits(trees[i], |x|) && Fits(trees[i], |y|)
    requires f < |x| && f < |y| && x[f] == y[f]
    ensures TotalPath(trees, x) == TotalPath(trees, y)
  {
    if |trees| == 0 {
    } else {
      TotalPathIgnores(trees[..|trees| - 1], f, x, y);
      PathIgnoresOtherFeatures(trees[|trees| - 1], f, x, y, 0);
    }
  }

  /** With the fixed seed, the two-feature forest never looks at feature 0 (the amount)
      if and only if every split comes after an even number of constant columns; then
      two queries at the same hour get the same total path, hence the same anomaly
      score, whatever their amounts. */
  lemma ForestIgnoresAmountIff(data: seq<Row>, n: nat, maxDepth: nat, x: Row, y: Row)
    requires Rectangular(data, 2) && |x| == |y| == 2 && x[1] == y[1]
    ensures var trees := BuildForest(DrawsFrom(SEED), data, 2, n, maxDepth, 0).0;
      && (AllSplitOnly(trees, 1) <==> AlwaysEven(ForestLog(DrawsFrom(SEED), data, n, maxDepth)))
      && (AllSplitOnly(trees, 1) ==> TotalPath(trees, x) == TotalPath(trees, y))
  {
    DrawsAlternate(SEED);
    var f := OtherParity(SEED);
    OneFeatureIff(DrawsFrom(SEED), SEED, data, n, maxDepth);
    var trees := BuildForest(DrawsFrom(SEED), data, 2, n, maxDepth, 0).0;
    if AllSplitOnly(trees, 1) {
      TotalPathIgnores(trees, 1, x, y);
    }
  }

  lemma OtherParity(seed: nat) returns (f: nat)
    requires seed % 2 == 0
    ensures f == 1 && f == (seed + 1) % 2
  {
    f := 1;
  }

  // ----- A condition on the training rows -----------------------------------------------

  predicate Distinct(data: seq<Row>, f: nat) {
    forall i, j :: 0 <= i < j < |data| && f < |data[i]| && f < |data[j]| ==> data[i][f] != data[j][f]
  }

  lemma {:induction false} FilterStaysDistinct(p: Row -> bool, data: seq<Row>, f: nat)
    requires Distinct(data, f)
    ensures Distinct(Filter(p, data), f)
  {
    if |data| == 0 {
    } else {
      var n := |data| - 1;
      var front := Filter(p, data[..n]);
      FilterStaysDistinct(p, data[..n], f);
      FilterMembers(p, data[..n]);
      forall i | 0 <= i < |front| && f < |front[i]| && f < |data[n]|
        ensures front[i][f] != data[n][f]
      {
        assert front[i] in data[..n];
        var k :| 0 <= k < n && data[..n][k] == front[i];
        assert data[k] == front[i];
      }
    }
  }

  lemma DistinctColumnVaries(w: Stream, data: seq<Row>, dims: nat, at: nat)
    requires Rectangular(data, dims) && |data| > 1 && Distinct(data, DrawCut(w, data, dims, at).feature)
    ensures DrawCut(w, data, dims, at).lo != DrawCut(w, data, dims, at).hi
  {
    var f := DrawCut(w, data, dims, at).feature;
    assert data[0][f] != data[1][f];
    assert Lowest(data, f) <= data[0][f] <= Highest(data, f) && Lowest(data, f) <= data[1][f] <= Highest(data, f);
  }

  /** If no two training rows share a value of the feature the parity selects, no draw
      is wasted anywhere in the tree. */
  lemma {:induction false} DistinctRowsWasteNothing(
      w: Stream, seed: nat, data: seq<Row>, maxDepth: nat, depth: nat, at: nat, f: nat)
    requires Alternates(w, seed) && f == (seed + at + 1) % 2
    requires Rectangular(data, 2) && Distinct(data, f)
    ensures Wasted(w, data, 2, maxDepth, depth, at) == 0
    decreases maxDepth - depth
  {
    if !(depth >= maxDepth || |data| <= 1) {
      var c := DrawCut(w, data, 2, at);
      FeatureParity(w, seed, data, at);
      DistinctColumnVaries(w, data, 2, at);
      var left, right := LeftOf(data, 2, c), RightOf(data, 2, c);
      FilterStaysDistinct(Turn(f, c.split, false), data, f);
      FilterStaysDistinct(Turn(f, c.split, true), data, f);
      var side := BuildSide(w, left, 2, maxDepth, depth, c.next);
      EvenShift(seed + at + 1, 1);
      if |left| > 0 {
        DistinctRowsWasteNothing(w, seed, left, maxDepth, depth + 1, c.next, f);
        DrawCount(w, left, 2, maxDepth, depth + 1, c.next);
        EvenShift(seed + at + 1, 1 + Splits(side.0.value));
      }
      if |right| > 0 {
        DistinctRowsWasteNothing(w, seed, right, maxDepth, depth + 1, side.1, f);
      }
    }
  }

  lemma {:induction false} DistinctForestWastesNothing(
      w: Stream, seed: nat, data: seq<Row>, n: nat, maxDepth: nat, f: nat)
    requires Alternates(w, seed) && f == (seed + 1) % 2
    requires Rectangular(data, 2) && Distinct(data, f)
    ensures ForestWaste(w, data, n, maxDepth) == 0
  {
    if n == 0 {
    } else {
      DistinctForestWastesNothing(w, seed, data, n - 1, maxDepth, f);
      StartIsEven(w, data, n - 1, maxDepth);
      DistinctTreeWastesNothing(w, seed, data, Start(w, data, n - 1, maxDepth), maxDepth, f);
      ForestGrows(w, data, n, maxDepth);
    }
  }

  lemma StartIsEven(w: Stream, data: seq<Row>, n: nat, maxDepth: nat)
    requires Rectangular(data, 2) && ForestWaste(w, data, n, maxDepth) == 0
    ensures InStep(Start(w, data, n, maxDepth), 0)
  {
    ForestKeepsStep(w, data, n, maxDepth);
  }


  lemma DistinctTreeWastesNothing(w: Stream, seed: nat, data: seq<Row>, at: nat, maxDepth: nat, f: nat)
    requires Alternates(w, seed) && f == (seed + 1) % 2 && InStep(at, 0)
    requires Rectangular(data, 2) && Distinct(data, f)
    ensures Wasted(w, data, 2, maxDepth, 0, at) == 0
  {
    SameParity(seed, at, 0);
    DistinctRowsWasteNothing(w, seed, data, maxDepth, 0, at, f);
  }

  /** So a forest grown with the fixed seed on rows of pairwise different hours never
      looks at an amount. */
  lemma DistinctHoursHideAmounts(data: seq<Row>, n: nat, maxDepth: nat, x: Row, y: Row)
    requires Rectangular(data, 2) && Distinct(data, 1) && |x| == |y| == 2 && x[1] == y[1]
    ensures var trees := BuildForest(DrawsFrom(SEED), data, 2, n, maxDepth, 0).0;
      TotalPath(trees, x) == TotalPath(trees, y)
  {
    DrawsAlternate(SEED);
    var f := OtherParity(SEED);
    DistinctForestWastesNothing(DrawsFrom(SEED), SEED, data, n, maxDepth, f);
    NoConstantsOneFeature(DrawsFrom(SEED), SEED, data, n, maxDepth);
    ForestIgnoresAmountIff(data, n, maxDepth, x, y);
  }
}

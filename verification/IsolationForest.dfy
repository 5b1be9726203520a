/** The isolation forest (internal/ml/ml.go): recursive construction from a
    shared generator, and the lookup that measures path lengths. */
module IsolationForest {
  import opened Models
  import opened Prng
  import opened RealSums
  import opened Powers

  /** Go's `math.MaxFloat64`, from which the running minimum and maximum start. */
  const MAX_FLOAT64: real := 179769313486231570814527423731704356798070567525844996598917476803157260780028538760589558632766878171540458953514382464234321326889464182768467546703537516986049910576551282076245490090389328944075868508455133942304583236903222948165808559332123348274797826204144723168738177180919299881250404026184124858368.0

  type Row = seq<real>

  datatype Tree = Tree(feature: nat, split: real, left: Option<Tree>, right: Option<Tree>, height: nat) {
    predicate IsLeaf() {
      left.None? && right.None?
    }
  }

  function Leaf(depth: nat): Tree {
    Tree(0, 0.0, None, None, depth)
  }

  predicate Rectangular(data: seq<Row>, dims: nat) {
    dims > 0 && forall i :: 0 <= i < |data| ==> |data[i]| == dims
  }

  /** Every feature the tree tests exists in a row of `dims` entries. */
  predicate Fits(t: Tree, dims: nat) {
    t.IsLeaf() ||
    (t.feature < dims && (t.left.Some? ==> Fits(t.left.value, dims)) && (t.right.Some? ==> Fits(t.right.value, dims)))
  }

  function PathLength(t: Tree, x: Row, depth: nat): nat
    requires Fits(t, |x|)
  {
    if t.IsLeaf() then depth
    else if x[t.feature] < t.split then
      if t.left.Some? then PathLength(t.left.value, x, depth + 1) else depth
    else
      if t.right.Some? then PathLength(t.right.value, x, depth + 1) else depth
  }

  // ----- Construction -----------------------------------------------------------

  function Lowest(data: seq<Row>, f: nat): (lo: real)
    requires forall i :: 0 <= i < |data| ==> f < |data[i]|
    ensures forall i :: 0 <= i < |data| ==> lo <= data[i][f]
  {
    if |data| == 0 then MAX_FLOAT64
    else
      var n := |data| - 1;
      var lo := Lowest(data[..n], f);
      assert forall i :: 0 <= i < n ==> data[..n][i] == data[i];
      if data[n][f] < lo then data[n][f] else lo
  }

  function Highest(data: seq<Row>, f: nat): (hi: real)
    requires forall i :: 0 <= i < |data| ==> f < |data[i]|
    ensures forall i :: 0 <= i < |data| ==> data[i][f] <= hi
  {
    if |data| == 0 then -MAX_FLOAT64
    else
      var n := |data| - 1;
      var hi := Highest(data[..n], f);
      assert forall i :: 0 <= i < n ==> data[..n][i] == data[i];
      if data[n][f] > hi then data[n][f] else hi
  }

  /** Whether a row turns right (or left) at a cut. */
  predicate Turns(f: nat, split: real, right: bool, x: Row) {
    right <==> !(f < |x| && x[f] < split)
  }

  function Turn(f: nat, split: real, right: bool): Row -> bool {
    x => Turns(f, split, right, x)
  }

  lemma {:induction false} FilterStaysRectangular(p: Row -> bool, data: seq<Row>, dims: nat)
    requires Rectangular(data, dims)
    ensures Rectangular(Filter(p, data), dims)
  {
    if |data| == 0 {
    } else {
      FilterStaysRectangular(p, data[..|data| - 1], dims);
    }
  }

  /** The words a generator hands out, by draw number; what holds for every stream
      does not depend on the generator. */
  type Stream = nat -> Word

  function DrawsFrom(seed: Word): Stream {
    n => Iterate(n, seed)
  }

  function CutPoint(lo: real, hi: real, u: real): real {
    lo + u * (hi - lo)
  }

  /** The draws of one node, which starts after `at` draws: the feature index and, if the column varies, the cut. */
  datatype Cut = Cut(feature: nat, lo: real, hi: real, split: real, next: nat)

  function DrawCut(w: Stream, data: seq<Row>, dims: nat, at: nat): (c: Cut)
    requires Rectangular(data, dims) && |data| > 0
    ensures c.feature < dims
  {
    var f := ToIndex(w(at + 1), dims);
    var lo, hi := Lowest(data, f), Highest(data, f);
    if lo == hi then Cut(f, lo, hi, lo, at + 1)
    else Cut(f, lo, hi, CutPoint(lo, hi, ToUnit(w(at + 2))), at + 2)
  }

  /** The rows on one side of a cut, in order. */
  function Side(data: seq<Row>, dims: nat, f: nat, split: real, right: bool): (side: seq<Row>)
    requires Rectangular(data, dims)
    ensures Rectangular(side, dims)
  {
    FilterStaysRectangular(Turn(f, split, right), data, dims);
    Filter(Turn(f, split, right), data)
  }

  function LeftOf(data: seq<Row>, dims: nat, c: Cut): (side: seq<Row>)
    requires Rectangular(data, dims)
    ensures Rectangular(side, dims)
  {
    Side(data, dims, c.feature, c.split, false)
  }

  function RightOf(data: seq<Row>, dims: nat, c: Cut): (side: seq<Row>)
    requires Rectangular(data, dims)
    ensures Rectangular(side, dims)
  {
    Side(data, dims, c.feature, c.split, true)
  }

  function Build(w: Stream, data: seq<Row>, dims: nat, maxDepth: nat, depth: nat, at: nat): (r: (Tree, nat))
    requires Rectangular(data, dims)
    ensures Fits(r.0, dims)
    decreases maxDepth - depth, 1
  {
    if depth >= maxDepth || |data| <= 1 then (Leaf(depth), at)
    else
      var c := DrawCut(w, data, dims, at);
      if c.lo == c.hi then (Leaf(depth), c.next)
      else
        var l := BuildSide(w, LeftOf(data, dims, c), dims, maxDepth, depth, c.next);
        var r := BuildSide(w, RightOf(data, dims, c), dims, maxDepth, depth, l.1);
        (Tree(c.feature, c.split, l.0, r.0, depth), r.1)
  }

  /** An empty side leaves a nil child and draws nothing. */
  function BuildSide(w: Stream, data: seq<Row>, dims: nat, maxDepth: nat, depth: nat, at: nat): (r: (Option<Tree>, nat))
    requires depth < maxDepth && Rectangular(data, dims)
    ensures r.0.Some? ==> Fits(r.0.value, dims)
    decreases maxDepth - depth, 0
  {
    if |data| == 0 then (None, at)
    else
      var t := Build(w, data, dims, maxDepth, depth + 1, at);
      (Some(t.0), t.1)
  }

  method ColumnRange(data: seq<Row>, feature: nat) returns (min: real, max: real)
    requires forall i :: 0 <= i < |data| ==> feature < |data[i]|
    ensures min == Lowest(data, feature) && max == Highest(data, feature)
  {
    min, max := MAX_FLOAT64, -MAX_FLOAT64;
    for i := 0 to |data|
      invariant min == Lowest(data[..i], feature) && max == Highest(data[..i], feature)
    {
      assert data[..i + 1][..i] == data[..i];
      var v := data[i][feature];
      if v < min {
        min := v;
      }
      if v > max {
        max := v;
      }
    }
    assert data[..|data|] == data;
  }

  method Partition(data: seq<Row>, feature: nat, split: real) returns (left: seq<Row>, right: seq<Row>)
    requires forall i :: 0 <= i < |data| ==> feature < |data[i]|
    ensures left == Filter(Turn(feature, split, false), data)
    ensures right == Filter(Turn(feature, split, true), data)
  {
    left, right := [], [];
    for i := 0 to |data|
      invariant left == Filter(Turn(feature, split, false), data[..i])
      invariant right == Filter(Turn(feature, split, true), data[..i])
    {
      assert data[..i + 1][..i] == data[..i];
      if data[i][feature] < split {
        left := left + [data[i]];
      } else {
        right := right + [data[i]];
      }
    }
    assert data[..|data|] == data;
  }

  /** Picks the feature, then (only if its column varies) the cut. */
  method Draw(data: seq<Row>, dims: nat, rng: Generator, ghost seed: Word, ghost at: nat)
    returns (feature: nat, min: real, max: real, split: real, ghost next: nat)
    requires Rectangular(data, dims) && |data| > 0
    requires rng.state == Iterate(at, seed)
    modifies rng
    ensures Cut(feature, min, max, split, next) == DrawCut(DrawsFrom(seed), data, dims, at)
    ensures rng.state == Iterate(next, seed)
  {
    feature := rng.Intn(|data[0]|);
    next := at + 1;
    min, max := ColumnRange(data, feature);
    split := min;
    if min != max {
      var u := rng.Float64();
      next := at + 2;
      split := CutPoint(min, max, u);
    }
  }

  /** The generator is shared: the tree is the one its next draws call for, and the
      draws used are counted exactly. */
  method BuildTree(
      data: seq<Row>, dims: nat, maxDepth: nat, depth: nat, rng: Generator, ghost seed: Word, ghost at: nat)
    returns (t: Tree, ghost next: nat)
    requires Rectangular(data, dims)
    requires rng.state == Iterate(at, seed)
    modifies rng
    ensures (t, next) == Build(DrawsFrom(seed), data, dims, maxDepth, depth, at)
    ensures rng.state == Iterate(next, seed)
    decreases maxDepth - depth, 1
  {
    if depth >= maxDepth || |data| <= 1 {
      return Leaf(depth), at;
    }
    var feature, min, max, split, mid := Draw(data, dims, rng, seed, at);
    if min == max {
      return Leaf(depth), mid;
    }
    var left, right := Partition(data, feature, split);
    assert left == Side(data, dims, feature, split, false) && right == Side(data, dims, feature, split, true);
    var l, afterLeft := BuildChild(left, dims, maxDepth, depth, rng, seed, mid);
    var r, afterRight := BuildChild(right, dims, maxDepth, depth, rng, seed, afterLeft);
    t := Tree(feature, split, l, r, depth);
    next := afterRight;
  }

  method BuildChild(
      data: seq<Row>, dims: nat, maxDepth: nat, depth: nat, rng: Generator, ghost seed: Word, ghost at: nat)
    returns (t: Option<Tree>, ghost next: nat)
    requires depth < maxDepth && Rectangular(data, dims)
    requires rng.state == Iterate(at, seed)
    modifies rng
    ensures (t, next) == BuildSide(DrawsFrom(seed), data, dims, maxDepth, depth, at)
    ensures rng.state == Iterate(next, seed)
    decreases maxDepth - depth, 0
  {
    t, next := None, at;
    if |data| > 0 {
      var child, after := BuildTree(data, dims, maxDepth, depth + 1, rng, seed, at);
      t, next := Some(child), after;
    }
  }

  // ----- The cells the builder makes ----------------------------------------------

  /** A leaf as the builder sees it: the turns leading to it (true is right), the
      training rows it ended up with, and its recorded height. */
  datatype Cell = Cell(address: seq<bool>, rows: seq<Row>, height: nat)

  function Under(turn: bool, cells: seq<Cell>): seq<Cell> {
    seq(|cells|, i requires 0 <= i < |cells| => cells[i].(address := [turn] + cells[i].address))
  }

  ghost function Cells(w: Stream, data: seq<Row>, dims: nat, maxDepth: nat, depth: nat, at: nat): seq<Cell>
    requires Rectangular(data, dims)
    decreases maxDepth - depth, 1
  {
    if depth >= maxDepth || |data| <= 1 then [Cell([], data, depth)]
    else
      var c := DrawCut(w, data, dims, at);
      if c.lo == c.hi then [Cell([], data, depth)]
      else
        var afterLeft := BuildSide(w, LeftOf(data, dims, c), dims, maxDepth, depth, c.next).1;
        Under(false, SideCells(w, LeftOf(data, dims, c), dims, maxDepth, depth, c.next)) +
        Under(true, SideCells(w, RightOf(data, dims, c), dims, maxDepth, depth, afterLeft))
  }

  ghost function SideCells(w: Stream, data: seq<Row>, dims: nat, maxDepth: nat, depth: nat, at: nat): seq<Cell>
    requires depth < maxDepth && Rectangular(data, dims)
    decreases maxDepth - depth, 0
  {
    if |data| == 0 then [] else Cells(w, data, dims, maxDepth, depth + 1, at)
  }

  /** The turns a lookup takes before it stops. */
  function Address(t: Tree, x: Row): seq<bool>
    requires Fits(t, |x|)
  {
    if t.IsLeaf() then []
    else if x[t.feature] < t.split then
      if t.left.Some? then [false] + Address(t.left.value, x) else []
    else
      if t.right.Some? then [true] + Address(t.right.value, x) else []
  }

  /** The node where a lookup stops. */
  function Stop(t: Tree, x: Row): Tree
    requires Fits(t, |x|)
  {
    if t.IsLeaf() then t
    else if x[t.feature] < t.split then
      if t.left.Some? then Stop(t.left.value, x) else t
    else
      if t.right.Some? then Stop(t.right.value, x) else t
  }

  lemma {:induction false} PathIsAddressLength(t: Tree, x: Row, depth: nat)
    requires Fits(t, |x|)
    ensures PathLength(t, x, depth) == depth + |Address(t, x)|
    decreases t
  {
    if !t.IsLeaf() {
      if x[t.feature] < t.split {
        if t.left.Some? {
          PathIsAddressLength(t.left.value, x, depth + 1);
        }
      } else if t.right.Some? {
        PathIsAddressLength(t.right.value, x, depth + 1);
      }
    }
  }

  predicate Reaches(t: Tree, address: seq<bool>, x: Row) {
    Fits(t, |x|) && Address(t, x) == address
  }

  function Reaching(t: Tree, address: seq<bool>): Row -> bool {
    x => Reaches(t, address, x)
  }

  lemma {:induction false} FilterMembers(p: Row -> bool, data: seq<Row>)
    ensures forall x :: x in Filter(p, data) <==> x in data && p(x)
  {
    if |data| == 0 {
    } else {
      var n := |data| - 1;
      FilterMembers(p, data[..n]);
      assert data == data[..n] + [data[n]];
    }
  }

  lemma {:induction false} FilterCompose(p: Row -> bool, q: Row -> bool, r: Row -> bool, data: seq<Row>)
    requires forall x :: x in data ==> (r(x) <==> p(x) && q(x))
    ensures Filter(q, Filter(p, data)) == Filter(r, data)
  {
    if |data| == 0 {
    } else {
      var n := |data| - 1;
      assert data == data[..n] + [data[n]];
      FilterCompose(p, q, r, data[..n]);
      if p(data[n]) {
        FilterSnoc(q, Filter(p, data[..n]), data[n]);
      } else {
        assert Filter(p, data) == Filter(p, data[..n]);
      }
    }
  }

  lemma {:induction false} FilterAll(p: Row -> bool, data: seq<Row>)
    requires forall x :: x in data ==> p(x)
    ensures Filter(p, data) == data
  {
    if |data| == 0 {
    } else {
      var n := |data| - 1;
      assert data == data[..n] + [data[n]];
      FilterAll(p, data[..n]);
    }
  }

  predicate AgreesWith(t: Tree, depth: nat, data: seq<Row>, cell: Cell) {
    && cell.rows == Filter(Reaching(t, cell.address), data)
    && cell.height == depth + |cell.address|
  }

  lemma LeafIsReached(data: seq<Row>, dims: nat, depth: nat)
    requires Rectangular(data, dims)
    ensures AgreesWith(Leaf(depth), depth, data, Cell([], data, depth))
  {
    FilterAll(Reaching(Leaf(depth), []), data);
  }

  /** Builder and lookup agree: the rows a leaf was built from are exactly the
      training rows the lookup sends there, and the leaf's height is the path
      length the lookup reports for them. */
  lemma {:induction false} CellsAreReached(
      w: Stream, data: seq<Row>, dims: nat, maxDepth: nat, depth: nat, at: nat, k: nat)
    requires Rectangular(data, dims)
    requires k < |Cells(w, data, dims, maxDepth, depth, at)|
    ensures AgreesWith(
      Build(w, data, dims, maxDepth, depth, at).0, depth, data, Cells(w, data, dims, maxDepth, depth, at)[k])
    decreases maxDepth - depth, 1
  {
    var t := Build(w, data, dims, maxDepth, depth, at).0;
    if depth >= maxDepth || |data| <= 1 || DrawCut(w, data, dims, at).lo == DrawCut(w, data, dims, at).hi {
      LeafIsReached(data, dims, depth);
    } else {
      var c := DrawCut(w, data, dims, at);
      var afterLeft := BuildSide(w, LeftOf(data, dims, c), dims, maxDepth, depth, c.next).1;
      var lefts := |SideCells(w, LeftOf(data, dims, c), dims, maxDepth, depth, c.next)|;
      if k < lefts {
        SideCellIsReached(w, data, dims, maxDepth, depth, c.next, t, false, k);
      } else {
        SideCellIsReached(w, data, dims, maxDepth, depth, afterLeft, t, true, k - lefts);
      }
    }
  }

  lemma {:induction false} SideCellIsReached(
      w: Stream, data: seq<Row>, dims: nat, maxDepth: nat, depth: nat, at: nat, t: Tree, right: bool, k: nat)
    requires depth < maxDepth && Rectangular(data, dims) && Fits(t, dims)
    requires Child(t, right) == BuildSide(w, Side(data, dims, t.feature, t.split, right), dims, maxDepth, depth, at).0
    requires k < |SideCells(w, Side(data, dims, t.feature, t.split, right), dims, maxDepth, depth, at)|
    ensures var cell := SideCells(w, Side(data, dims, t.feature, t.split, right), dims, maxDepth, depth, at)[k];
      AgreesWith(t, depth, data, cell.(address := [right] + cell.address))
    decreases maxDepth - depth, 0
  {
    var side := Side(data, dims, t.feature, t.split, right);
    CellsAreReached(w, side, dims, maxDepth, depth + 1, at, k);
    LiftCell(t, dims, right, depth, data, Cells(w, side, dims, maxDepth, depth + 1, at)[k]);
  }

  function Child(t: Tree, right: bool): Option<Tree> {
    if right then t.right else t.left
  }

  lemma ReachesThrough(t: Tree, right: bool, address: seq<bool>, x: Row)
    requires Fits(t, |x|) && Child(t, right).Some?
    ensures Reaches(t, [right] + address, x)
      <==> Turns(t.feature, t.split, right, x) && Reaches(Child(t, right).value, address, x)
  {
    var turn := !(x[t.feature] < t.split);
    if Child(t, turn).Some? {
      var rest := Address(Child(t, turn).value, x);
      ConsInjective(turn, rest, right, address);
    } else {
      assert Address(t, x) == [];
    }
  }

  lemma ConsInjective(a: bool, x: seq<bool>, b: bool, y: seq<bool>)
    ensures [a] + x == [b] + y <==> a == b && x == y
  {
    assert ([a] + x)[0] == a && ([a] + x)[1..] == x;
    assert ([b] + y)[0] == b && ([b] + y)[1..] == y;
  }

  lemma LiftCell(t: Tree, dims: nat, right: bool, depth: nat, data: seq<Row>, cell: Cell)
    requires Rectangular(data, dims) && Fits(t, dims) && Child(t, right).Some?
    requires AgreesWith(Child(t, right).value, depth + 1, Side(data, dims, t.feature, t.split, right), cell)
    ensures AgreesWith(t, depth, data, cell.(address := [right] + cell.address))
  {
    var p, q := Turn(t.feature, t.split, right), Reaching(Child(t, right).value, cell.address);
    var r := Reaching(t, [right] + cell.address);
    forall x | x in data
      ensures r(x) <==> p(x) && q(x)
    {
      ReachesThrough(t, right, cell.address, x);
    }
    FilterCompose(p, q, r, data);
  }

  /** A training row always reaches a leaf, never a missing child, and its path
      length is that leaf's height. */
  lemma {:induction false} TrainingRowsReachLeaves(
      w: Stream, data: seq<Row>, dims: nat, maxDepth: nat, depth: nat, at: nat, row: Row)
    requires Rectangular(data, dims) && row in data
    ensures var t := Build(w, data, dims, maxDepth, depth, at).0;
      Stop(t, row).IsLeaf() && PathLength(t, row, depth) == Stop(t, row).height
    decreases maxDepth - depth
  {
    if !(depth >= maxDepth || |data| <= 1) {
      var c := DrawCut(w, data, dims, at);
      if c.lo != c.hi {
        var left, right := LeftOf(data, dims, c), RightOf(data, dims, c);
        FilterMembers(Turn(c.feature, c.split, false), data);
        FilterMembers(Turn(c.feature, c.split, true), data);
        var afterLeft := BuildSide(w, left, dims, maxDepth, depth, c.next).1;
        if row[c.feature] < c.split {
          TrainingRowsReachLeaves(w, left, dims, maxDepth, depth + 1, c.next, row);
        } else {
          TrainingRowsReachLeaves(w, right, dims, maxDepth, depth + 1, afterLeft, row);
        }
      }
    }
  }

  function CellRows(): Cell -> seq<Row> {
    (c: Cell) => c.rows
  }

  /** The rows of all cells. */
  function RowsInCells(cells: seq<Cell>): seq<Row> {
    FlatMap(CellRows(), cells)
  }

  lemma RowsOfOne(c: Cell)
    ensures RowsInCells([c]) == c.rows
  {
    FlatMapOne(CellRows(), c);
  }

  lemma {:induction false} RowsOfUnder(turn: bool, cells: seq<Cell>)
    ensures RowsInCells(Under(turn, cells)) == RowsInCells(cells)
  {
    if |cells| == 0 {
    } else {
      var n := |cells| - 1;
      RowsOfUnder(turn, cells[..n]);
      assert Under(turn, cells)[..n] == Under(turn, cells[..n]);
    }
  }

  lemma {:induction false} FilterSplits(p: Row -> bool, q: Row -> bool, data: seq<Row>)
    requires forall x :: q(x) == !p(x)
    ensures multiset(Filter(p, data)) + multiset(Filter(q, data)) == multiset(data)
  {
    if |data| == 0 {
    } else {
      var n := |data| - 1;
      FilterSplits(p, q, data[..n]);
      assert data == data[..n] + [data[n]];
    }
  }

  /** The leaves partition the training rows. */
  lemma {:induction false} CellsPartitionRows(w: Stream, data: seq<Row>, dims: nat, maxDepth: nat, depth: nat, at: nat)
    requires Rectangular(data, dims)
    ensures multiset(RowsInCells(Cells(w, data, dims, maxDepth, depth, at))) == multiset(data)
    decreases maxDepth - depth
  {
    var cells := Cells(w, data, dims, maxDepth, depth, at);
    if depth >= maxDepth || |data| <= 1 || DrawCut(w, data, dims, at).lo == DrawCut(w, data, dims, at).hi {
      assert cells == [Cell([], data, depth)];
      RowsOfOne(Cell([], data, depth));
    } else {
      var c := DrawCut(w, data, dims, at);
      var left, right := LeftOf(data, dims, c), RightOf(data, dims, c);
      var afterLeft := BuildSide(w, left, dims, maxDepth, depth, c.next).1;
      var ls := SideCells(w, left, dims, maxDepth, depth, c.next);
      var rs := SideCells(w, right, dims, maxDepth, depth, afterLeft);
      if |left| > 0 {
        CellsPartitionRows(w, left, dims, maxDepth, depth + 1, c.next);
      }
      if |right| > 0 {
        CellsPartitionRows(w, right, dims, maxDepth, depth + 1, afterLeft);
      }
      FlatMapConcat(CellRows(), Under(false, ls), Under(true, rs));
      RowsOfUnder(false, ls);
      RowsOfUnder(true, rs);
      FilterSplits(Turn(c.feature, c.split, false), Turn(c.feature, c.split, true), data);
    }
  }

  /** No query travels further than the depth limit, whatever its values. */
  lemma {:induction false} PathIsBounded(
      w: Stream, data: seq<Row>, dims: nat, maxDepth: nat, depth: nat, at: nat, x: Row)
    requires Rectangular(data, dims) && |x| == dims && depth <= maxDepth
    ensures depth <= PathLength(Build(w, data, dims, maxDepth, depth, at).0, x, depth) <= maxDepth
    decreases maxDepth - depth
  {
    if !(depth >= maxDepth || |data| <= 1) {
      var c := DrawCut(w, data, dims, at);
      if c.lo != c.hi {
        var left, right := LeftOf(data, dims, c), RightOf(data, dims, c);
        var afterLeft := BuildSide(w, left, dims, maxDepth, depth, c.next).1;
        PathIsBounded(w, left, dims, maxDepth, depth + 1, c.next, x);
        PathIsBounded(w, right, dims, maxDepth, depth + 1, afterLeft, x);
      }
    }
  }

  /** Why the builder stopped: the limit, a lone row, or a column without spread. */
  predicate Settled(cell: Cell, dims: nat, maxDepth: nat) {
    || cell.height >= maxDepth
    || |cell.rows| <= 1
    || exists f :: 0 <= f < dims && ConstantColumn(cell.rows, f)
  }

  predicate ConstantColumn(rows: seq<Row>, f: nat) {
    forall i, j :: 0 <= i < |rows| && 0 <= j < |rows| && f < |rows[i]| && f < |rows[j]| ==> rows[i][f] == rows[j][f]
  }

  predicate AllSettled(cells: seq<Cell>, dims: nat, maxDepth: nat) {
    forall k :: 0 <= k < |cells| ==> Settled(cells[k], dims, maxDepth)
  }

  lemma SettledUnder(turn: bool, cells: seq<Cell>, dims: nat, maxDepth: nat)
    requires AllSettled(cells, dims, maxDepth)
    ensures AllSettled(Under(turn, cells), dims, maxDepth)
  {
    forall k | 0 <= k < |cells|
      ensures Settled(Under(turn, cells)[k], dims, maxDepth)
    {
      assert Settled(cells[k], dims, maxDepth);
      assert Under(turn, cells)[k].rows == cells[k].rows && Under(turn, cells)[k].height == cells[k].height;
    }
  }

  /** The builder stops only for one of these three reasons. */
  lemma {:induction false} CellsAreSettled(w: Stream, data: seq<Row>, dims: nat, maxDepth: nat, depth: nat, at: nat)
    requires Rectangular(data, dims)
    ensures AllSettled(Cells(w, data, dims, maxDepth, depth, at), dims, maxDepth)
    decreases maxDepth - depth
  {
    if !(depth >= maxDepth || |data| <= 1) {
      var c := DrawCut(w, data, dims, at);
      if c.lo == c.hi {
        assert ConstantColumn(data, c.feature);
      } else {
        var left, right := LeftOf(data, dims, c), RightOf(data, dims, c);
        var afterLeft := BuildSide(w, left, dims, maxDepth, depth, c.next).1;
        CellsAreSettled(w, left, dims, maxDepth, depth + 1, c.next);
        CellsAreSettled(w, right, dims, maxDepth, depth + 1, afterLeft);
        SettledUnder(false, SideCells(w, left, dims, maxDepth, depth, c.next), dims, maxDepth);
        SettledUnder(true, SideCells(w, right, dims, maxDepth, depth, afterLeft), dims, maxDepth);
      }
    }
  }

  /** Every value is a finite float. */
  predicate Finite(data: seq<Row>, f: nat) {
    forall i :: 0 <= i < |data| ==> f < |data[i]| && -MAX_FLOAT64 <= data[i][f] <= MAX_FLOAT64
  }

  lemma {:induction false} RangeIsAttained(data: seq<Row>, f: nat)
    requires Finite(data, f) && |data| > 0
    ensures exists i :: 0 <= i < |data| && data[i][f] == Lowest(data, f)
    ensures exists i :: 0 <= i < |data| && data[i][f] == Highest(data, f)
  {
    var n := |data| - 1;
    if n == 0 {
      assert data[..0] == [];
      assert Lowest(data[..0], f) == MAX_FLOAT64 && Highest(data[..0], f) == -MAX_FLOAT64;
      assert data[0][f] == Lowest(data, f) && data[0][f] == Highest(data, f);
    } else {
      RangeIsAttained(data[..n], f);
      var i :| 0 <= i < n && data[..n][i][f] == Lowest(data[..n], f);
      var j :| 0 <= j < n && data[..n][j][f] == Highest(data[..n], f);
      assert data[i][f] == Lowest(data[..n], f) && data[j][f] == Highest(data[..n], f);
      assert data[n][f] == data[n][f];
    }
  }

  /** A cut through finite data never empties the right side, and empties the left
      side exactly when the 53-bit draw is zero. */
  lemma CutSides(w: Stream, data: seq<Row>, dims: nat, at: nat)
    requires Rectangular(data, dims) && |data| > 0
    requires DrawCut(w, data, dims, at).lo != DrawCut(w, data, dims, at).hi
    requires Finite(data, DrawCut(w, data, dims, at).feature)
    ensures var c := DrawCut(w, data, dims, at);
      && |RightOf(data, dims, c)| > 0
      && (|LeftOf(data, dims, c)| == 0 <==> ToUnit(w(c.next)) == 0.0)
  {
    var c := DrawCut(w, data, dims, at);
    var u := ToUnit(w(c.next));
    RangeIsAttained(data, c.feature);
    var i :| 0 <= i < |data| && data[i][c.feature] == c.lo;
    var j :| 0 <= j < |data| && data[j][c.feature] == c.hi;
    CutPointBounds(c.lo, c.hi, u);
    FilterKeeps(Turn(c.feature, c.split, true), data, j);
    if u > 0.0 {
      FilterKeeps(Turn(c.feature, c.split, false), data, i);
    } else {
      FilterNone(Turn(c.feature, c.split, false), data);
    }
  }

  lemma FilterKeeps(p: Row -> bool, data: seq<Row>, i: nat)
    requires i < |data| && p(data[i])
    ensures |Filter(p, data)| > 0
  {
    FilterMembers(p, data);
    assert data[i] in Filter(p, data);
  }

  lemma {:induction false} FilterNone(p: Row -> bool, data: seq<Row>)
    requires forall i :: 0 <= i < |data| ==> !p(data[i])
    ensures Filter(p, data) == []
  {
    if |data| == 0 {
    } else {
      FilterNone(p, data[..|data| - 1]);
    }
  }

  /** The cut divides the column's range in the proportion drawn. */
  lemma CutInProportion(w: Stream, data: seq<Row>, dims: nat, at: nat)
    requires Rectangular(data, dims) && |data| > 0
    requires DrawCut(w, data, dims, at).lo != DrawCut(w, data, dims, at).hi
    ensures var c := DrawCut(w, data, dims, at);
      && c.next == at + 2 && c.feature == w(at + 1) % dims
      && c.split - c.lo == ToUnit(w(at + 2)) * (c.hi - c.lo)
      && (forall i :: 0 <= i < |data| ==> c.lo <= data[i][c.feature] <= c.hi)
  {
  }

  lemma CutPointBounds(lo: real, hi: real, u: real)
    requires lo < hi && 0.0 <= u < 1.0
    ensures lo <= CutPoint(lo, hi, u) < hi
    ensures u > 0.0 ==> lo < CutPoint(lo, hi, u)
    ensures u == 0.0 ==> CutPoint(lo, hi, u) == lo
  {
    MulLt(u, 1.0, hi - lo);
    if u > 0.0 {
      MulLt(0.0, u, hi - lo);
    }
  }

  // ----- The forest -----------------------------------------------------------------

  const SEED: Word := 42

  /** The words the forest begins with. */
  lemma ForestDraws()
    ensures DrawsFrom(SEED)(1) == 10481999410520546993 && DrawsFrom(SEED)(2) == 4159066171780167020
  {
    FirstDraws();
  }

  function BuildForest(w: Stream, data: seq<Row>, dims: nat, n: nat, maxDepth: nat, at: nat): (r: (seq<Tree>, nat))
    requires Rectangular(data, dims)
    ensures |r.0| == n && forall i :: 0 <= i < n ==> Fits(r.0[i], dims)
  {
    if n == 0 then ([], at)
    else
      var front := BuildForest(w, data, dims, n - 1, maxDepth, at);
      var t := Build(w, data, dims, maxDepth, 0, front.1);
      (front.0 + [t.0], t.1)
  }

  method NewIsolationForest(features: seq<Row>, dims: nat, nTrees: nat, maxDepth: nat) returns (trees: seq<Tree>)
    requires Rectangular(features, dims)
    ensures |features| == 0 ==> trees == []
    ensures |features| > 0 ==> trees == BuildForest(DrawsFrom(SEED), features, dims, nTrees, maxDepth, 0).0
  {
    trees := [];
    if |features| == 0 {
      return;
    }
    var rng := new Generator(SEED);
    ghost var at := 0;
    for i := 0 to nTrees
      invariant fresh(rng) && rng.state == Iterate(at, SEED)
      invariant (trees, at) == BuildForest(DrawsFrom(SEED), features, dims, i, maxDepth, 0)
    {
      var t, next := BuildTree(features, dims, maxDepth, 0, rng, SEED, at);
      trees := trees + [t];
      at := next;
    }
  }

  function TotalPath(trees: seq<Tree>, x: Row): nat
    requires forall i :: 0 <= i < |trees| ==> Fits(trees[i], |x|)
  {
    if |trees| == 0 then 0
    else TotalPath(trees[..|trees| - 1], x) + PathLength(trees[|trees| - 1], x, 0)
  }

  /** How many turns the lookup of `x` takes in a tree. */
  function TurnsTaken(x: Row): Tree -> real {
    (t: Tree) => if Fits(t, |x|) then |Address(t, x)| as real else 0.0
  }

  /** The total path is the number of turns taken in all trees. */
  lemma {:induction false} TotalPathCountsTurns(trees: seq<Tree>, x: Row)
    requires forall i :: 0 <= i < |trees| ==> Fits(trees[i], |x|)
    ensures TotalPath(trees, x) as real == SumBy(TurnsTaken(x), trees)
  {
    if |trees| == 0 {
    } else {
      TotalPathCountsTurns(trees[..|trees| - 1], x);
      PathIsAddressLength(trees[|trees| - 1], x, 0);
    }
  }

  const NORMALISER: real := 5.04

  function Exponent(totalPath: nat, trees: nat): real
    requires trees > 0
  {
    -(totalPath as real / trees as real) / NORMALISER
  }

  /** Half for every 5.04 of mean path length. */
  lemma ExponentOfMean(totalPath: nat, trees: nat)
    requires trees > 0
    ensures 504.0 * (trees as real * Exponent(totalPath, trees)) == -100.0 * totalPath as real
  {
    var mean := totalPath as real / trees as real;
    assert trees as real * mean == totalPath as real;
    assert 5.04 * Exponent(totalPath, trees) == -mean;
    assert 504.0 * (trees as real * Exponent(totalPath, trees)) == trees as real * (504.0 * Exponent(totalPath, trees));
  }

  lemma ExponentOrder(m: nat, n: nat, trees: nat)
    requires trees > 0
    ensures Exponent(m, trees) > Exponent(n, trees) <==> m < n
  {
    var p, q, k := m as real / trees as real, n as real / trees as real, trees as real;
    assert p * k == m as real && q * k == n as real;
    if p < q {
      MulLt(p, q, k);
    } else {
      MulLe(q, p, k);
    }
  }

  /** Points isolated sooner score higher, and only those. */
  lemma ShorterPathsScoreHigher(trees: seq<Tree>, x: Row, y: Row, exp2: real -> real)
    requires |trees| > 0 && forall i :: 0 <= i < |trees| ==> Fits(trees[i], |x|) && Fits(trees[i], |y|)
    requires forall s, t :: s < t ==> exp2(s) < exp2(t)
    ensures exp2(Exponent(TotalPath(trees, x), |trees|)) > exp2(Exponent(TotalPath(trees, y), |trees|))
       <==> TotalPath(trees, x) < TotalPath(trees, y)
  {
    ExponentOrder(TotalPath(trees, x), TotalPath(trees, y), |trees|);
    ExponentOrder(TotalPath(trees, y), TotalPath(trees, x), |trees|);
  }

  /** Every tree of a forest is what the builder makes of all the rows, from some point
      of the stream on. */
  lemma {:induction false} TreeOfForest(w: Stream, data: seq<Row>, dims: nat, n: nat, maxDepth: nat, at: nat, i: nat)
    returns (start: nat)
    requires Rectangular(data, dims) && i < n
    ensures BuildForest(w, data, dims, n, maxDepth, at).0[i] == Build(w, data, dims, maxDepth, 0, start).0
  {
    if i == n - 1 {
      start := BuildForest(w, data, dims, n - 1, maxDepth, at).1;
    } else {
      start := TreeOfForest(w, data, dims, n - 1, maxDepth, at, i);
    }
  }

  /** No query travels beyond the depth limit in any tree of a forest. */
  lemma ForestPathsAreBounded(w: Stream, data: seq<Row>, dims: nat, n: nat, maxDepth: nat, at: nat, x: Row)
    requires Rectangular(data, dims) && |x| == dims
    ensures forall i :: 0 <= i < n ==> PathLength(BuildForest(w, data, dims, n, maxDepth, at).0[i], x, 0) <= maxDepth
  {
    forall i | 0 <= i < n
      ensures PathLength(BuildForest(w, data, dims, n, maxDepth, at).0[i], x, 0) <= maxDepth
    {
      var start := TreeOfForest(w, data, dims, n, maxDepth, at, i);
      PathIsBounded(w, data, dims, maxDepth, 0, start, x);
    }
  }

  /** `exp2` is `math.Pow(2, .)`. */
  method Score(trees: seq<Tree>, x: Row, exp2: real -> real) returns (score: real)
    requires forall i :: 0 <= i < |trees| ==> Fits(trees[i], |x|)
    ensures |trees| == 0 ==> score == 0.0
    ensures |trees| > 0 ==> score == exp2(Exponent(TotalPath(trees, x), |trees|))
  {
    if |trees| == 0 {
      return 0.0;
    }
    var sumPath := 0.0;
    for i := 0 to |trees|
      invariant sumPath == TotalPath(trees[..i], x) as real
    {
      assert trees[..i + 1][..i] == trees[..i];
      sumPath := sumPath + PathLength(trees[i], x, 0) as real;
    }
    assert trees[..|trees|] == trees;
    var avg := sumPath / |trees| as real;
    score := exp2(-avg / NORMALISER);
  }
}

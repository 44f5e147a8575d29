/** Tents on the map: grid seeding, state rewrites and adding a tent. */
module Tents {
  import opened Optional

  /** `"av"` available, `"pr"` on hold, `"oc"` occupied, `"bl"` blocked. */
  datatype TentState = Av | Pr | Oc | Bl

  /** Where a tent sits: a cell of the seeding grid (row and column out of
      rows by cols, from which the map coordinates are computed), or the map
      centre (0.5, 0.5) where "+ Agregar Toldo" puts a new tent. */
  datatype Position = Cell(row: nat, col: nat, rows: nat, cols: nat) | Centre

  datatype Tent = Tent(id: int, state: TentState, pos: Position)

  // ----- grid seeding -----

  function CeilSqrtFrom(n: nat, c: nat): (r: nat)
    requires c == 0 || (c - 1) * (c - 1) < n
    ensures r * r >= n && (r == 0 || (r - 1) * (r - 1) < n)
    decreases n - c
  {
    if c * c >= n then c else CeilSqrtFrom(n, c + 1)
  }

  /** `Math.ceil(Math.sqrt(n))`: the least c with c * c >= n. */
  function CeilSqrt(n: nat): (c: nat)
    ensures c * c >= n && (c == 0 || (c - 1) * (c - 1) < n)
  {
    CeilSqrtFrom(n, 0)
  }

  /** `Math.ceil(n / d)`. */
  function CeilDiv(n: nat, d: nat): nat
    requires d > 0
  {
    (n + d - 1) / d
  }

  /** The column count of the seeding grid for n tents. */
  function GridCols(n: nat): nat {
    CeilSqrt(n)
  }

  /** The row count of the seeding grid for n tents. */
  function GridRows(n: nat): nat {
    if GridCols(n) == 0 then 0 else CeilDiv(n, GridCols(n))
  }

  /** `makeGrid(count)`: tent i (from 0) gets id i + 1, state `"av"`, and the
      cell at row `i / cols`, column `i % cols`. A count below 1 gives no tents. */
  function MakeGrid(count: int): (g: seq<Tent>)
    ensures |g| == if count < 0 then 0 else count
    ensures forall i :: 0 <= i < |g| ==> g[i].id == i + 1 && g[i].state == Av
    ensures forall i :: 0 <= i < |g| ==>
              (&& g[i].pos.Cell?
               && g[i].pos.row == i / GridCols(|g|) && g[i].pos.col == i % GridCols(|g|)
               && g[i].pos.row < g[i].pos.rows == GridRows(|g|)
               && g[i].pos.col < g[i].pos.cols == GridCols(|g|))
  {
    var n: nat := if count < 0 then 0 else count;
    seq(n, i requires 0 <= i < n => GridTent(i, n))
  }

  function GridTent(i: nat, n: nat): (t: Tent)
    requires i < n
    ensures t.id == i + 1 && t.state == Av && t.pos.Cell? && GridCols(n) > 0
    ensures t.pos.row == i / GridCols(n) && t.pos.col == i % GridCols(n)
    ensures t.pos.row < t.pos.rows == GridRows(n) && t.pos.col < t.pos.cols == GridCols(n)
  {
    var cols := GridCols(n);
    RowBelowRows(i, n, cols);
    Tent(i + 1, Av, Cell(i / cols, i % cols, GridRows(n), cols))
  }

  lemma MulMono(c: nat, x: nat, y: nat)
    requires x <= y
    ensures c * x <= c * y
  {
    var d: nat := y - x;
    assert c * y == c * x + c * d;
  }

  /** Multiplication by a positive factor reflects strict order. */
  lemma MulReflects(c: nat, x: nat, y: nat)
    requires c > 0 && c * x < c * y
    ensures x < y
  {
    if y <= x {
      MulMono(c, y, x);
    }
  }

  /** `d * ceil(n / d)` lies in `[n, n + d - 1]`. */
  lemma CeilDivBounds(n: nat, d: nat)
    requires d > 0
    ensures n <= d * CeilDiv(n, d) <= n + d - 1
  {
    var q := CeilDiv(n, d);
    var m := n + d - 1;
    assert m == d * (m / d) + m % d;
  }

  lemma RowBelowRows(i: nat, n: nat, cols: nat)
    requires i < n && cols > 0
    ensures i / cols < CeilDiv(n, cols) && i % cols < cols
  {
    assert i == cols * (i / cols) + i % cols;
    CeilDivBounds(n, cols);
    MulReflects(cols, i / cols, CeilDiv(n, cols));
  }

  /** The seeding grid has no more rows than columns, fits all n tents, and its last row is not empty. */
  lemma GridShape(n: nat)
    requires n > 0
    ensures GridCols(n) > 0
    ensures GridRows(n) <= GridCols(n)
    ensures GridRows(n) * GridCols(n) >= n
    ensures (GridRows(n) - 1) * GridCols(n) < n
  {
    var cols := GridCols(n);
    var rows := GridRows(n);
    CeilDivBounds(n, cols);
    assert cols * rows <= n + cols - 1;
    assert cols * (rows - 1) == cols * rows - cols;
    assert cols * (cols + 1) == cols * cols + cols;
    MulReflects(cols, rows, cols + 1);
  }

  /** A quotient and a remainder determine the dividend. */
  lemma DivModDetermine(i: nat, j: nat, c: nat)
    requires c > 0 && i / c == j / c && i % c == j % c
    ensures i == j
  {
    assert i == c * (i / c) + i % c;
    assert j == c * (j / c) + j % c;
  }

  /** No two seeded tents share a cell: a cell determines its index. */
  lemma GridCellsDistinct(count: int, i: int, j: int)
    requires 0 <= i < |MakeGrid(count)| && 0 <= j < |MakeGrid(count)|
    requires MakeGrid(count)[i].pos == MakeGrid(count)[j].pos
    ensures i == j
  {
    var g := MakeGrid(count);
    var cols := GridCols(|g|);
    var pi, pj := g[i].pos, g[j].pos;
    assert pi.row == i / cols && pi.col == i % cols;
    assert pj.row == j / cols && pj.col == j % cols;
    DivModDetermine(i, j, cols);
  }

  /** The seed of 20 tents: ids 1..20, all available, on a 5 by 4 grid. */
  lemma SeedGrid()
    ensures var g := MakeGrid(20);
      |g| == 20 && (forall i :: 0 <= i < 20 ==> g[i].id == i + 1 && g[i].state == Av)
      && GridCols(20) == 5 && GridRows(20) == 4
  {
    assert CeilSqrtFrom(20, 5) == 5;
    assert CeilSqrtFrom(20, 0) == 5;
  }

  // ----- state rewrites -----

  /** `tents.map(t => t.id === id ? { ...t, state } : t)`. */
  function WithTentState(tents: seq<Tent>, id: int, state: TentState): (r: seq<Tent>)
    ensures |r| == |tents|
    ensures forall i :: 0 <= i < |tents| ==>
      r[i] == if tents[i].id == id then tents[i].(state := state) else tents[i]
  {
    seq(|tents|, i requires 0 <= i < |tents| => if tents[i].id == id then tents[i].(state := state) else tents[i])
  }

  /** The same rewrite applied twice is the rewrite applied once: with no
      check of the current state, confirming or overriding again changes nothing. */
  lemma WithTentStateIdempotent(tents: seq<Tent>, id: int, state: TentState)
    ensures WithTentState(WithTentState(tents, id, state), id, state) == WithTentState(tents, id, state)
  {
  }

  /** Rewriting states keeps ids and positions, so it keeps every id invariant. */
  lemma WithTentStateKeepsIds(tents: seq<Tent>, id: int, state: TentState)
    ensures Ids(WithTentState(tents, id, state)) == Ids(tents)
  {
  }

  function Ids(tents: seq<Tent>): (r: seq<int>)
    ensures |r| == |tents| && forall i :: 0 <= i < |tents| ==> r[i] == tents[i].id
  {
    seq(|tents|, i requires 0 <= i < |tents| => tents[i].id)
  }

  /** `data.tents.find(x => x.id === id)`: the first tent with that id. */
  function FindTent(tents: seq<Tent>, id: int): (r: Option<Tent>)
    ensures r.Some? <==> exists i :: 0 <= i < |tents| && tents[i].id == id
    ensures r.Some? ==> r.value.id == id && r.value in tents
    ensures r.Some? ==> exists i :: 0 <= i < |tents| && tents[i] == r.value
                          && forall j :: 0 <= j < i ==> tents[j].id != id
    decreases |tents|
  {
    if tents == [] then None
    else if tents[0].id == id then Some(tents[0])
    else
      var r := FindTent(tents[1..], id);
      if r.Some? then
        ghost var k :| 0 <= k < |tents[1..]| && tents[1..][k] == r.value
                       && forall j :: 0 <= j < k ==> tents[1..][j].id != id;
        assert tents[k + 1] == r.value;
        r
      else r
  }

  // ----- adding a tent -----

  predicate Increasing(tents: seq<Tent>) {
    forall i, j :: 0 <= i < j < |tents| ==> tents[i].id < tents[j].id
  }

  predicate UniqueIds(tents: seq<Tent>) {
    forall i, j :: 0 <= i < j < |tents| ==> tents[i].id != tents[j].id
  }

  /** `(last?.id || 0) + 1`: one more than the LAST tent's id (not the largest);
      a last id of 0, being falsy, gives 1 like no tent at all. With
      increasing ids it exceeds every id. */
  function NextTentId(tents: seq<Tent>): (r: int)
    ensures Increasing(tents) ==> forall i :: 0 <= i < |tents| ==> tents[i].id < r
  {
    if tents == [] then 1 else tents[|tents| - 1].id + 1
  }

  /** "+ Agregar Toldo": an available tent at the centre, appended. */
  function AddTent(tents: seq<Tent>): (r: seq<Tent>)
    ensures |r| == |tents| + 1 && r[..|tents|] == tents
    ensures r[|tents|] == Tent(if tents == [] || tents[|tents| - 1].id == 0 then 1 else tents[|tents| - 1].id + 1,
                               Av, Centre)
  {
    tents + [Tent(NextTentId(tents), Av, Centre)]
  }

  /** Ids in increasing order (as the seeding grid makes them) stay increasing, hence unique. */
  lemma AddTentKeepsIncreasing(tents: seq<Tent>)
    requires Increasing(tents)
    ensures Increasing(AddTent(tents)) && UniqueIds(AddTent(tents))
  {
    var r := AddTent(tents);
    forall i, j | 0 <= i < j < |r| ensures r[i].id < r[j].id {
      if j == |tents| && i < |tents| - 1 {
        assert tents[i].id < tents[|tents| - 1].id;
      }
    }
  }

  /** The seeding grid's ids are increasing. */
  lemma GridIncreasing(count: int)
    ensures Increasing(MakeGrid(count))
  {
  }

  /** Out of order ids can make "+ Agregar Toldo" reuse an id: after [2, 1] it adds 2 again. */
  lemma AddTentAfterDisorderRepeatsId()
    ensures var r := AddTent([Tent(2, Av, Centre), Tent(1, Av, Centre)]);
      r[2].id == r[0].id
  {
  }
}

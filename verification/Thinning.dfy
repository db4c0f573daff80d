/** Thinning points by a minimum gap: a grid that looks at nine cells, and the
    plain rule it has to agree with, which looks at everything kept so far. */
module Thinning {

  datatype Point = Point(x: real, y: real)

  /** `math.hypot(dx, dy) < gap`, which is false for a gap of zero or less. */
  predicate Near(p: Point, q: Point, gap: real) {
    gap > 0.0 && (p.x - q.x) * (p.x - q.x) + (p.y - q.y) * (p.y - q.y) < gap * gap
  }

  predicate NearAny(p: Point, kept: seq<Point>, gap: real) {
    exists i :: 0 <= i < |kept| && Near(p, kept[i], gap)
  }

  // ---- the plain rule ----------------------------------------------------

  /** Keep a candidate unless it is near one already kept. */
  function Greedy(cands: seq<Point>, gap: real): seq<Point> {
    if cands == [] then []
    else
      var kept, last := Greedy(cands[..|cands| - 1], gap), cands[|cands| - 1];
      if NearAny(last, kept, gap) then kept else kept + [last]
  }

  /** Which candidates were kept: positions, in order. */
  ghost predicate Picks(cands: seq<Point>, picked: seq<int>, kept: seq<Point>) {
    && |picked| == |kept|
    && (forall i :: 0 <= i < |picked| ==> 0 <= picked[i] < |cands| && cands[picked[i]] == kept[i])
    && (forall i, j :: 0 <= i < j < |picked| ==> picked[i] < picked[j])
  }

  /** What is kept comes in the order it came in. */
  lemma {:induction false} KeptInOrder(cands: seq<Point>, gap: real) returns (picked: seq<int>)
    ensures Picks(cands, picked, Greedy(cands, gap))
  {
    if cands == [] {
      picked := [];
    } else {
      var n := |cands| - 1;
      picked := KeptInOrder(cands[..n], gap);
      if !NearAny(cands[n], Greedy(cands[..n], gap), gap) {
        picked := picked + [n];
      }
    }
  }

  ghost predicate Spread(kept: seq<Point>, gap: real) {
    forall i, j :: 0 <= i < j < |kept| ==> !Near(kept[j], kept[i], gap)
  }

  lemma OneMoreSpread(kept: seq<Point>, p: Point, gap: real)
    requires Spread(kept, gap) && !NearAny(p, kept, gap)
    ensures Spread(kept + [p], gap)
  {
  }

  /** No two kept points are near. */
  lemma {:induction false} KeptIsSpread(cands: seq<Point>, gap: real)
    ensures Spread(Greedy(cands, gap), gap)
  {
    hide Spread;
    hide NearAny;
    if cands == [] {
      NothingIsSpread(gap);
    } else {
      var n := |cands| - 1;
      KeptIsSpread(cands[..n], gap);
      if !NearAny(cands[n], Greedy(cands[..n], gap), gap) {
        OneMoreSpread(Greedy(cands[..n], gap), cands[n], gap);
      }
    }
  }

  /** The square of the distance between two points. */
  function Squared(p: Point, q: Point): real {
    (p.x - q.x) * (p.x - q.x) + (p.y - q.y) * (p.y - q.y)
  }

  lemma NearIsClose(p: Point, q: Point, gap: real)
    ensures Near(p, q, gap) <==> gap > 0.0 && Squared(p, q) < gap * gap
  {
  }

  lemma SquaredIsSymmetric(p: Point, q: Point)
    ensures Squared(p, q) == Squared(q, p)
  {
    SameSquare(p.x - q.x, q.x - p.x);
    SameSquare(p.y - q.y, q.y - p.y);
  }

  lemma SameSquare(d: real, e: real)
    requires d == -e
    ensures d * d == e * e
  {
  }

  /** In distances: no two kept points are less than a positive gap apart. */
  lemma KeptAreApart(cands: seq<Point>, gap: real, i: nat, j: nat)
    requires i < |Greedy(cands, gap)| && j < |Greedy(cands, gap)| && i != j && gap > 0.0
    ensures Squared(Greedy(cands, gap)[i], Greedy(cands, gap)[j]) >= gap * gap
  {
    KeptIsSpread(cands, gap);
    var p, q := Greedy(cands, gap)[i], Greedy(cands, gap)[j];
    NearIsClose(q, p, gap);
    NearIsClose(p, q, gap);
    SquaredIsSymmetric(p, q);
    hide Squared;
    hide Near;
    hide Greedy;
  }

  /** And every candidate dropped is less than the gap from one kept before it. */
  lemma DroppedIsClose(cands: seq<Point>, gap: real, n: nat) returns (k: nat)
    requires n < |cands| && cands[n] !in Greedy(cands, gap)
    ensures k < |Greedy(cands[..n], gap)| && gap > 0.0
    ensures Squared(cands[n], Greedy(cands[..n], gap)[k]) < gap * gap
  {
    NothingIsDroppedInVain(cands, gap, n);
    hide Greedy;
    hide Squared;
    hide Near;
    k :| k < |Greedy(cands[..n], gap)| && Near(cands[n], Greedy(cands[..n], gap)[k], gap);
    NearIsClose(cands[n], Greedy(cands[..n], gap)[k], gap);
  }

  lemma NothingIsSpread(gap: real)
    ensures Spread([], gap)
  {
  }

  lemma {:induction false} KeptOnlyGrows(cands: seq<Point>, gap: real, n: nat)
    requires n <= |cands|
    ensures Greedy(cands[..n], gap) <= Greedy(cands, gap)
    decreases |cands|
  {
    if n == |cands| {
      assert cands[..n] == cands;
    } else {
      KeptOnlyGrows(cands[..|cands| - 1], gap, n);
      assert cands[..|cands| - 1][..n] == cands[..n];
    }
  }

  /** Nothing more could have been kept: every candidate is kept, or near a point
      that was kept before its turn came. */
  lemma NothingIsDroppedInVain(cands: seq<Point>, gap: real, n: nat)
    requires n < |cands|
    ensures NearAny(cands[n], Greedy(cands[..n], gap), gap) || cands[n] in Greedy(cands, gap)
    ensures Greedy(cands[..n], gap) <= Greedy(cands, gap)
  {
    KeptOnlyGrows(cands, gap, n);
    KeptOnlyGrows(cands, gap, n + 1);
    assert cands[..n + 1][..n] == cands[..n];
    if !NearAny(cands[n], Greedy(cands[..n], gap), gap) {
      var kept := Greedy(cands[..n + 1], gap);
      assert kept[|kept| - 1] == cands[n];
      assert Greedy(cands, gap)[|kept| - 1] == cands[n];
    }
  }

  // ---- the grid ----------------------------------------------------------

  type Cell = (int, int)

  function Floor(r: real): int {
    r.Floor
  }

  function CellOf(p: Point, cell: real): Cell
    requires cell > 0.0
  {
    (Floor(p.x / cell), Floor(p.y / cell))
  }

  function Max(a: real, b: real): real {
    if a > b then a else b
  }

  predicate NextTo(a: Cell, b: Cell) {
    -1 <= a.0 - b.0 <= 1 && -1 <= a.1 - b.1 <= 1
  }

  lemma SquaresOrder(d: real, g: real)
    requires g > 0.0 && d * d < g * g
    ensures -g < d < g
  {
    assert d >= g ==> d * d >= g * g;
    assert -d >= g ==> (-d) * (-d) >= g * g;
    assert (-d) * (-d) == d * d;
  }

  lemma CloseCoordinates(a: real, b: real, cell: real)
    requires cell > 0.0 && -cell < a - b < cell
    ensures -1 <= Floor(a / cell) - Floor(b / cell) <= 1
  {
    assert a / cell - b / cell == (a - b) / cell;
    Ratio(a - b, cell);
  }

  lemma Ratio(d: real, cell: real)
    requires cell > 0.0 && -cell < d < cell
    ensures -1.0 < d / cell < 1.0
  {
    var q := d / cell;
    assert q * cell == d;
    assert q >= 1.0 ==> q * cell >= cell;
    assert q <= -1.0 ==> q * cell <= -cell;
  }

  /** A point nearer than the gap is in one of the nine cells around. */
  lemma NearIsNextTo(p: Point, q: Point, gap: real, cell: real)
    requires Near(p, q, gap) && cell >= gap
    ensures NextTo(CellOf(q, cell), CellOf(p, cell))
  {
    var dx, dy := p.x - q.x, p.y - q.y;
    assert dx * dx >= 0.0 && dy * dy >= 0.0;
    SquaresOrder(dx, gap);
    SquaresOrder(dy, gap);
    CloseCoordinates(p.x, q.x, cell);
    CloseCoordinates(p.y, q.y, cell);
  }

  type Grid = map<Cell, seq<Point>>

  function At(grid: Grid, c: Cell): seq<Point> {
    if c in grid then grid[c] else []
  }

  /** Every kept point is filed under its cell, and nothing else is filed. */
  ghost predicate Filed(grid: Grid, kept: seq<Point>, cell: real)
    requires cell > 0.0
  {
    && (forall i :: 0 <= i < |kept| ==> kept[i] in At(grid, CellOf(kept[i], cell)))
    && (forall c, p :: c in grid && p in grid[c] ==> p in kept)
  }

  /** The nine cells hold a near point exactly when anything kept is near. */
  lemma NineCellsAreEnough(grid: Grid, kept: seq<Point>, p: Point, gap: real, cell: real)
    requires cell > 0.0 && cell >= gap && Filed(grid, kept, cell)
    ensures NearAny(p, kept, gap) <==>
            exists c :: c in grid && NextTo(c, CellOf(p, cell)) && NearAny(p, grid[c], gap)
  {
    if NearAny(p, kept, gap) {
      var i :| 0 <= i < |kept| && Near(p, kept[i], gap);
      NearIsNextTo(p, kept[i], gap, cell);
      var c := CellOf(kept[i], cell);
      assert kept[i] in At(grid, c);
      var j :| 0 <= j < |grid[c]| && grid[c][j] == kept[i];
      assert NearAny(p, grid[c], gap);
    }
    if c :| c in grid && NextTo(c, CellOf(p, cell)) && NearAny(p, grid[c], gap) {
      var j :| 0 <= j < |grid[c]| && Near(p, grid[c][j], gap);
      assert grid[c][j] in kept;
    }
  }

  /** One cell's points, looked at one by one. */
  method ProbeCell(points: seq<Point>, p: Point, gap: real) returns (near: bool)
    ensures near == NearAny(p, points, gap)
  {
    near := false;
    for k := 0 to |points|
      invariant near == NearAny(p, points[..k], gap)
    {
      if Near(p, points[k], gap) {
        near := true;
      }
      assert points[..k + 1] == points[..k] + [points[k]];
      assert forall i :: 0 <= i < k ==> points[..k + 1][i] == points[..k][i];
      if near && !Near(p, points[k], gap) {
        var i :| 0 <= i < k && Near(p, points[..k][i], gap);
        assert points[..k + 1][i] == points[..k][i];
      }
      assert points[..k + 1][k] == points[k];
    }
    assert points[..|points|] == points;
  }

  /** The loops over `(gx - 1, gx, gx + 1)` and `(gy - 1, gy, gy + 1)`. */
  method Probe(grid: Grid, p: Point, gap: real, g: Cell) returns (near: bool)
    ensures near <==> exists c :: c in grid && NextTo(c, g) && NearAny(p, grid[c], gap)
  {
    near := false;
    ghost var seen: set<Cell> := {};
    var ix := g.0 - 1;
    while ix <= g.0 + 1
      invariant g.0 - 1 <= ix <= g.0 + 2
      invariant forall c: Cell :: c in seen <==> NextTo(c, g) && c.0 < ix
      invariant near <==> exists c :: c in grid && c in seen && NearAny(p, grid[c], gap)
    {
      var iy := g.1 - 1;
      while iy <= g.1 + 1
        invariant g.1 - 1 <= iy <= g.1 + 2
        invariant forall c: Cell :: c in seen <==> NextTo(c, g) && (c.0 < ix || (c.0 == ix && c.1 < iy))
        invariant near <==> exists c :: c in grid && c in seen && NearAny(p, grid[c], gap)
      {
        var here := ProbeCell(At(grid, (ix, iy)), p, gap);
        near := near || here;
        seen := seen + {(ix, iy)};
        iy := iy + 1;
      }
      ix := ix + 1;
    }
  }

  /** `_thin`: the grid keeps exactly what the plain rule keeps. */
  method Thin(cands: seq<Point>, gap: real) returns (kept: seq<Point>)
    ensures kept == Greedy(cands, gap)
  {
    kept := [];
    var grid: Grid := map[];
    var cell := Max(gap, 1.0);
    for n := 0 to |cands|
      invariant kept == Greedy(cands[..n], gap) && Filed(grid, kept, cell)
    {
      var p := cands[n];
      var g := CellOf(p, cell);
      var near := Probe(grid, p, gap, g);
      NineCellsAreEnough(grid, kept, p, gap, cell);
      assert cands[..n + 1][..n] == cands[..n];
      if !near {
        grid := grid[g := At(grid, g) + [p]];
        kept := kept + [p];
      }
    }
    assert cands[..|cands|] == cands;
  }
}

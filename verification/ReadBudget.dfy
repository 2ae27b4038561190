/** How many cells a search may read at most: fewer than the budget, so it never runs out. */
module ReadBudget {
  import opened Geometry
  import opened Terrain

  function Extent(a: int, b: int): nat {
    if a <= b then b - a + 1 else 0
  }

  ghost predicate AllIn(s: set<Cell>, r: Cells) {
    forall c | c in s :: r.Has(c)
  }

  lemma {:induction false} CellsInColumn(s: set<Cell>, r: Cells)
    requires AllIn(s, r) && r.x0 == r.x1 && r.z0 == r.z1
    ensures |s| <= Extent(r.y0, r.y1)
    decreases Extent(r.y0, r.y1)
  {
    if r.y0 <= r.y1 {
      var top := Cell(r.x0, r.y1, r.z0);
      CellsInColumn(s - {top}, r.(y1 := r.y1 - 1));
      assert |s| <= |s - {top}| + 1;
    } else {
      assert s == {};
    }
  }

  lemma SplitSize(s: set<Cell>, t: set<Cell>)
    requires t <= s
    ensures |s| == |s - t| + |t|
  {
    assert s == (s - t) + t;
  }

  lemma TimesGrows(a: nat, b: nat, c: nat)
    requires a <= b
    ensures a * c <= b * c
  {
    assert b * c == a * c + (b - a) * c;
  }

  lemma OneMoreTimes(m: nat, n: nat)
    requires m > 0
    ensures m * n == (m - 1) * n + n
  {
  }

  lemma {:induction false} CellsInSlice(s: set<Cell>, r: Cells)
    requires AllIn(s, r) && r.x0 == r.x1
    ensures |s| <= Extent(r.z0, r.z1) * Extent(r.y0, r.y1)
    decreases Extent(r.z0, r.z1)
  {
    if r.z0 <= r.z1 {
      var last := set c | c in s && c.z == r.z1;
      SplitSize(s, last);
      CellsInSlice(s - last, r.(z1 := r.z1 - 1));
      CellsInColumn(last, r.(z0 := r.z1));
      OneMoreTimes(Extent(r.z0, r.z1), Extent(r.y0, r.y1));
    } else {
      assert s == {};
    }
  }

  lemma {:induction false} CellsInBox(s: set<Cell>, r: Cells)
    requires AllIn(s, r)
    ensures |s| <= Extent(r.x0, r.x1) * (Extent(r.z0, r.z1) * Extent(r.y0, r.y1))
    decreases Extent(r.x0, r.x1)
  {
    if r.x0 <= r.x1 {
      var last := set c | c in s && c.x == r.x1;
      SplitSize(s, last);
      CellsInBox(s - last, r.(x1 := r.x1 - 1));
      CellsInSlice(last, r.(x0 := r.x1));
      OneMoreTimes(Extent(r.x0, r.x1), Extent(r.z0, r.z1) * Extent(r.y0, r.y1));
    } else {
      assert s == {};
    }
  }

  /** The cells that a search from a point may read: twelve blocks and the body's width to every
      side, and the places that a step may lead to from six blocks below or above. */
  function SearchCells(o: Point): Cells {
    Between(Point(o.x - 12.0, o.y - 8.0, o.z - 12.0), Point(o.x + 12.0, o.y + 7.001, o.z + 12.0))
  }

  lemma SearchIsSmall(o: Point)
    ensures Extent(SearchCells(o).x0, SearchCells(o).x1) <= 26
    ensures Extent(SearchCells(o).y0, SearchCells(o).y1) <= 18
    ensures Extent(SearchCells(o).z0, SearchCells(o).z1) <= 26
  {
  }

  lemma ProductBound(a: nat, b: nat, c: nat)
    requires a <= 26 && b <= 26 && c <= 18
    ensures a * (b * c) <= 12168
  {
    TimesGrows(b, 26, c);
    TimesGrows(a, 26, b * c);
  }

  /** Main result: while nothing outside these cells was read, the budget of reads is not spent. */
  lemma BudgetLasts(terrain: LocalTerrain, o: Point)
    requires terrain.Valid() && terrain.Inside(SearchCells(o))
    ensures !terrain.exhausted && |terrain.blocks| <= 12168
  {
    var r := SearchCells(o);
    CellsInBox(terrain.blocks.Keys, r);
    SearchIsSmall(o);
    ProductBound(Extent(r.x0, r.x1), Extent(r.z0, r.z1), Extent(r.y0, r.y1));
  }

  lemma OriginIsInside(o: Point)
    ensures forall c | Between(o, o).Has(c) :: SearchCells(o).Has(c)
  {
    WiderBetween(o, o, Point(o.x - 12.0, o.y - 8.0, o.z - 12.0), Point(o.x + 12.0, o.y + 7.001, o.z + 12.0));
  }

  predicate Reachable(o: Point, p: Point) {
    Abs(p.x - o.x) <= 12.0 && Abs(p.z - o.z) <= 12.0 && Abs(p.y - o.y) <= 6.0
  }

  lemma SurfacesAreInside(o: Point, x: real, z: real, nearY: real)
    requires Abs(x - o.x) <= 12.0 && Abs(z - o.z) <= 12.0 && Abs(nearY - o.y) <= 6.0
    ensures forall c | SurfaceCells(x, z, nearY).Has(c) :: SearchCells(o).Has(c)
  {
    WiderBetween(Point(x, nearY - 2.0, z), Point(x, nearY + 1.0 + EPS, z),
      Point(o.x - 12.0, o.y - 8.0, o.z - 12.0), Point(o.x + 12.0, o.y + 7.001, o.z + 12.0));
  }

  lemma EdgeIsInside(o: Point, a: Point, b: Point)
    requires Reachable(o, a) && Reachable(o, b)
    ensures forall c | EdgeCells(a, b).Has(c) :: SearchCells(o).Has(c)
  {
    WiderBetween(Point(Least(a.x, b.x), Least(a.y, b.y), Least(a.z, b.z)),
      Point(Max(a.x, b.x), TravelHeight(a, b) + EPS, Max(a.z, b.z)),
      Point(o.x - 12.0, o.y - 8.0, o.z - 12.0), Point(o.x + 12.0, o.y + 7.001, o.z + 12.0));
  }
}

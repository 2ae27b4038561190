/** What local navigation observes of the world: collision shapes read through a
    bounded cache, and the body, footing and edge checks made on them. */
module Terrain {
  import opened Geometry
  import opened Options

  const EPS := 0.001
  const WIDTH := 0.3
  const HEIGHT := 1.8
  const MAX_READS := 24000

  datatype Cell = Cell(x: int, y: int, z: int)

  /** A collision box, relative to the corner of its cell. */
  datatype Box = Box(x0: real, y0: real, z0: real, x1: real, y1: real, z1: real)

  /** hazard stands for the name and waterlogging tests. */
  datatype Observed = Observed(shapes: seq<Box>, hazard: bool)

  /** A question about one cell and what was read there. */
  type Test = (Cell, Option<Observed>) -> bool

  /** One look at the world. None is an unloaded block, a failed read or an unusable shape. */
  type World = Cell -> Option<Observed>

  // ---------------------------------------------------------------------
  // The checks as predicates of the world itself
  // ---------------------------------------------------------------------

  /** A block of cells, both ends included. */
  datatype Cells = Cells(x0: int, x1: int, y0: int, y1: int, z0: int, z1: int) {
    predicate Has(c: Cell) {
      x0 <= c.x <= x1 && y0 <= c.y <= y1 && z0 <= c.z <= z1
    }
  }

  /** The order in which a block of cells is scanned. */
  predicate Earlier(c: Cell, d: Cell) {
    c.x < d.x || (c.x == d.x && (c.z < d.z || (c.z == d.z && c.y < d.y)))
  }

  /** The cell at which a scan for safe cells stops. */
  ghost predicate FirstUnsafe(w: World, r: Cells, safe: Test, at: Cell) {
    && r.Has(at) && !safe(at, w(at))
    && forall c | r.Has(c) && Earlier(c, at) :: safe(c, w(c))
  }

  predicate Overlaps(lo: real, hi: real, c: int, s0: real, s1: real) {
    c as real + s0 < hi && c as real + s1 > lo
  }

  function Left(v: real): real { v - WIDTH + EPS }
  function Right(v: real): real { v + WIDTH - EPS }
  function Feet(y: real): real { y + EPS }
  function Head(y: real): real { y + HEIGHT - EPS }

  /** The cells scanned for a body standing at p. */
  function BodyCells(p: Point): Cells {
    Cells(Left(p.x).Floor, Right(p.x).Floor, Feet(p.y).Floor, Head(p.y).Floor, Left(p.z).Floor, Right(p.z).Floor)
  }

  predicate AtMost(p: Point, q: Point) {
    p.x <= q.x && p.y <= q.y && p.z <= q.z
  }

  /** The cells that the checks of bodies standing anywhere between two corners may read. */
  function Between(low: Point, high: Point): Cells {
    Cells(Left(low.x).Floor, Right(high.x).Floor, (low.y - EPS).Floor, Head(high.y).Floor,
      Left(low.z).Floor, Right(high.z).Floor)
  }

  lemma WiderBetween(low: Point, high: Point, low': Point, high': Point)
    requires AtMost(low', low) && AtMost(high, high')
    ensures forall c | Between(low, high).Has(c) :: Between(low', high').Has(c)
  {
  }

  lemma BodyBetween(low: Point, p: Point, high: Point)
    requires AtMost(low, p) && AtMost(p, high)
    ensures forall c | BodyCells(p).Has(c) :: Between(low, high).Has(c)
    ensures forall c | FootCells(p).Has(c) :: Between(low, high).Has(c)
  {
  }

  /** Box s of cell c meets the body at p, shrunk by EPS on every side. */
  predicate Hits(p: Point, c: Cell, s: Box) {
    && Overlaps(Left(p.x), Right(p.x), c.x, s.x0, s.x1)
    && Overlaps(Left(p.z), Right(p.z), c.z, s.z0, s.z1)
    && Overlaps(Feet(p.y), Head(p.y), c.y, s.y0, s.y1)
  }

  predicate Free(o: Option<Observed>, p: Point, c: Cell) {
    o.Some? && !o.value.hazard && forall s | s in o.value.shapes :: !Hits(p, c, s)
  }

  ghost predicate ClearBody(w: World, p: Point) {
    forall c | BodyCells(p).Has(c) :: Free(w(c), p, c)
  }

  /** The cells scanned for support under p. */
  function FootCells(p: Point): Cells {
    Cells(Left(p.x).Floor, Right(p.x).Floor, (p.y - EPS).Floor, p.y.Floor, Left(p.z).Floor, Right(p.z).Floor)
  }

  predicate Supports(p: Point, c: Cell, s: Box) {
    && Abs(c.y as real + s.y1 - p.y) < 0.08
    && Overlaps(Left(p.x), Right(p.x), c.x, s.x0, s.x1)
    && Overlaps(Left(p.z), Right(p.z), c.z, s.z0, s.z1)
  }

  predicate Holds(o: Option<Observed>, p: Point, c: Cell) {
    o.Some? && exists s | s in o.value.shapes :: Supports(p, c, s)
  }

  predicate Harmless(o: Option<Observed>) {
    o.Some? && !o.value.hazard
  }

  ghost predicate Standable(w: World, p: Point) {
    && ClearBody(w, p)
    && (forall c | FootCells(p).Has(c) :: Harmless(w(c)))
    && (exists c :: FootCells(p).Has(c) && Holds(w(c), p, c))
  }

  /** Box s covers the column at the fractional offset (lx, lz) of its cell. */
  predicate Covers(s: Box, lx: real, lz: real) {
    s.x0 <= lx <= s.x1 && s.z0 <= lz <= s.z1
  }

  /** Height `top` is the upper face of some box of cell c over the column (x, z). */
  predicate HasTop(o: Option<Observed>, c: Cell, x: real, z: real, top: real) {
    && Harmless(o)
    && exists s | s in o.value.shapes ::
         Covers(s, x - x.Floor as real, z - z.Floor as real) && top == c.y as real + s.y1
  }

  /** p is a place to stand on the column (x, z) within a step of nearY, on a top of the cell at height y. */
  ghost predicate IsSurfaceOf(w: World, x: real, z: real, nearY: real, y: int, p: Point) {
    && p.x == x && p.z == z
    && Abs(p.y - nearY) <= 1.0 + EPS
    && ClearBody(w, p)
    && HasTop(w(Cell(x.Floor, y, z.Floor)), Cell(x.Floor, y, z.Floor), x, z, p.y)
  }

  /** The cells that a look for surfaces may read. */
  function SurfaceCells(x: real, z: real, nearY: real): Cells {
    Between(Point(x, nearY - 2.0, z), Point(x, nearY + 1.0 + EPS, z))
  }

  lemma SurfaceCell(x: real, z: real, nearY: real, c: Cell)
    requires c.x == x.Floor && c.z == z.Floor && nearY.Floor - 2 <= c.y <= nearY.Floor + 1
    ensures SurfaceCells(x, z, nearY).Has(c)
  {
  }

  lemma SurfaceBody(x: real, z: real, nearY: real, top: real)
    requires Abs(top - nearY) <= 1.0 + EPS
    ensures forall c | BodyCells(Point(x, top, z)).Has(c) :: SurfaceCells(x, z, nearY).Has(c)
  {
    BodyBetween(Point(x, nearY - 2.0, z), Point(x, top, z), Point(x, nearY + 1.0 + EPS, z));
  }

  ghost predicate IsSurface(w: World, x: real, z: real, nearY: real, p: Point) {
    exists y | nearY.Floor - 2 <= y <= nearY.Floor + 1 :: IsSurfaceOf(w, x, z, nearY, y, p)
  }

  /** Why a check of standing comes out as unknown: the first cell at fault could not be read. */
  ghost predicate FaultUnread(w: World, p: Point) {
    || (exists c :: FirstUnsafe(w, BodyCells(p), BodyTest(p), c) && w(c).None?)
    || (ClearBody(w, p) && exists c :: FirstUnsafe(w, FootCells(p), FootTest(), c) && w(c).None?)
  }

  function BodyTest(p: Point): Test {
    (c: Cell, b: Option<Observed>) => Free(b, p, c)
  }

  function FootTest(): Test {
    (c: Cell, b: Option<Observed>) => Harmless(b)
  }

  lemma OneFirstUnsafe(w: World, r: Cells, safe: Test, c: Cell, d: Cell)
    requires FirstUnsafe(w, r, safe, c) && FirstUnsafe(w, r, safe, d)
    ensures c == d
  {
    assert c == d || Earlier(c, d) || Earlier(d, c);
  }

  function Closeness(nearY: real): Point -> real {
    (p: Point) => Abs(p.y - nearY)
  }

  function TravelHeight(a: Point, b: Point): real {
    Max(a.y, b.y) + if b.y - a.y > 0.6 then 0.25 else 0.0
  }

  lemma TravelHeightBounded(a: Point, b: Point)
    requires Abs(a.y - b.y) <= 1.0 + EPS
    ensures a.y <= TravelHeight(a, b) <= a.y + 1.3
    ensures b.y <= TravelHeight(a, b) <= b.y + 1.3
  {
  }

  function Lift(p: Point, k: nat): Point {
    Point(p.x, p.y + 0.2 * k as real, p.z)
  }

  function Along(start: real, d: real, t: real): real {
    start + d * t
  }

  /** The point a fraction t of the way across, at travelling height. */
  function Across(a: Point, b: Point, t: real): Point {
    Point(Along(a.x, b.x - a.x, t), TravelHeight(a, b), Along(a.z, b.z - a.z, t))
  }

  function Sample(a: Point, b: Point, i: int): Point {
    Across(a, b, i as real / 8.0)
  }

  function Least(a: real, b: real): real {
    if a < b then a else b
  }

  /** The cells that the check of an edge may read. */
  function EdgeCells(a: Point, b: Point): Cells {
    Between(Point(Least(a.x, b.x), Least(a.y, b.y), Least(a.z, b.z)),
      Point(Max(a.x, b.x), TravelHeight(a, b) + EPS, Max(a.z, b.z)))
  }

  lemma AlongBetween(start: real, d: real, t: real)
    requires 0.0 <= t <= 1.0
    ensures Least(start, start + d) <= Along(start, d, t) <= Max(start, start + d)
  {
    if d >= 0.0 {
      PartOf(d, t);
    } else {
      PartOf(-d, t);
      assert d * t == -(-d * t);
    }
  }

  lemma PartOf(d: real, t: real)
    requires d >= 0.0 && 0.0 <= t <= 1.0
    ensures 0.0 <= d * t <= d
  {
    assert d * (1.0 - t) >= 0.0;
    assert d * (1.0 - t) == d - d * t;
  }

  lemma SampleInEdge(a: Point, b: Point, i: int)
    requires 0 <= i <= 8 && Abs(a.y - b.y) <= 1.0 + EPS
    ensures forall c | BodyCells(Sample(a, b, i)).Has(c) :: EdgeCells(a, b).Has(c)
  {
    var t := i as real / 8.0;
    AlongBetween(a.x, b.x - a.x, t);
    AlongBetween(a.z, b.z - a.z, t);
    TravelHeightBounded(a, b);
    hide Along, TravelHeight;
    BodyBetween(Point(Least(a.x, b.x), Least(a.y, b.y), Least(a.z, b.z)), Sample(a, b, i),
      Point(Max(a.x, b.x), TravelHeight(a, b) + EPS, Max(a.z, b.z)));
  }

  /** What the parts of the check of an edge may read. */
  lemma PartsOfEdge(a: Point, b: Point)
    requires Abs(a.y - b.y) <= 1.0 + EPS
    ensures forall c | Between(b, b).Has(c) :: EdgeCells(a, b).Has(c)
    ensures forall c | Between(a, Point(a.x, TravelHeight(a, b) + EPS, a.z)).Has(c) :: EdgeCells(a, b).Has(c)
    ensures forall c | Between(b, Point(b.x, TravelHeight(a, b) + EPS, b.z)).Has(c) :: EdgeCells(a, b).Has(c)
  {
    var low := Point(Least(a.x, b.x), Least(a.y, b.y), Least(a.z, b.z));
    var high := Point(Max(a.x, b.x), TravelHeight(a, b) + EPS, Max(a.z, b.z));
    TravelHeightBounded(a, b);
    hide TravelHeight;
    WiderBetween(b, b, low, high);
    WiderBetween(a, Point(a.x, TravelHeight(a, b) + EPS, a.z), low, high);
    WiderBetween(b, Point(b.x, TravelHeight(a, b) + EPS, b.z), low, high);
  }

  ghost predicate ColumnClear(w: World, p: Point, travelY: real) {
    forall k: nat | Lift(p, k).y <= travelY + EPS :: ClearBody(w, Lift(p, k))
  }

  ghost predicate CrossingClear(w: World, a: Point, b: Point) {
    forall i | 0 <= i <= 8 :: ClearBody(w, Sample(a, b, i))
  }

  ghost predicate EdgeClear(w: World, a: Point, b: Point) {
    && HorizontalSquared(a.x, a.z, b.x, b.z) <= Square(1.5)
    && Abs(a.y - b.y) <= 1.0 + EPS
    && Standable(w, b)
    && ColumnClear(w, a, TravelHeight(a, b))
    && ColumnClear(w, b, TravelHeight(a, b))
    && CrossingClear(w, a, b)
  }

  // ---------------------------------------------------------------------
  // Sorting, as the array sort does it: by a key, stably
  // ---------------------------------------------------------------------

  ghost predicate Ordered(ps: seq<Point>, key: Point -> real) {
    forall i, j | 0 <= i < j < |ps| :: key(ps[i]) <= key(ps[j])
  }

  /** p goes behind the points whose key equals its own. */
  function Insert(ps: seq<Point>, p: Point, key: Point -> real): (r: seq<Point>) {
    if |ps| == 0 then [p]
    else if key(p) < key(ps[0]) then [p] + ps
    else [ps[0]] + Insert(ps[1..], p, key)
  }

  function SortBy(ps: seq<Point>, key: Point -> real): (r: seq<Point>) {
    if |ps| == 0 then [] else Insert(SortBy(ps[..|ps| - 1], key), ps[|ps| - 1], key)
  }

  lemma {:induction false} InsertKeeps(ps: seq<Point>, p: Point, key: Point -> real)
    ensures multiset(Insert(ps, p, key)) == multiset(ps) + multiset{p}
  {
    if |ps| > 0 && key(p) >= key(ps[0]) {
      InsertKeeps(ps[1..], p, key);
      assert ps == [ps[0]] + ps[1..];
    }
  }

  lemma {:induction false} InsertSorts(ps: seq<Point>, p: Point, key: Point -> real)
    requires Ordered(ps, key)
    ensures Ordered(Insert(ps, p, key), key)
  {
    if |ps| > 0 && key(p) >= key(ps[0]) {
      var rest := Insert(ps[1..], p, key);
      InsertSorts(ps[1..], p, key);
      InsertKeeps(ps[1..], p, key);
      forall i | 0 <= i < |rest|
        ensures key(ps[0]) <= key(rest[i])
      {
        assert rest[i] in multiset(rest);
        assert rest[i] == p || rest[i] in ps[1..];
      }
    }
  }

  lemma {:induction false} SortIsSorted(ps: seq<Point>, key: Point -> real)
    ensures multiset(SortBy(ps, key)) == multiset(ps)
    ensures Ordered(SortBy(ps, key), key)
  {
    if |ps| > 0 {
      SortIsSorted(ps[..|ps| - 1], key);
      InsertKeeps(SortBy(ps[..|ps| - 1], key), ps[|ps| - 1], key);
      InsertSorts(SortBy(ps[..|ps| - 1], key), ps[|ps| - 1], key);
      assert ps == ps[..|ps| - 1] + [ps[|ps| - 1]];
    }
  }

  lemma SortSameMembers(ps: seq<Point>, key: Point -> real)
    ensures Ordered(SortBy(ps, key), key)
    ensures forall p :: p in SortBy(ps, key) <==> p in ps
  {
    SortIsSorted(ps, key);
    assert forall p :: p in SortBy(ps, key) <==> p in multiset(SortBy(ps, key));
    assert forall p :: p in ps <==> p in multiset(ps);
  }

  // ---------------------------------------------------------------------
  // The checks through the read cache
  // ---------------------------------------------------------------------

  /** The observation cache of one search. Every check answers as the world
      would, or refuses because the read budget ran out. */
  class LocalTerrain {
    const world: World
    var blocks: map<Cell, Option<Observed>>
    var unknown: bool
    var exhausted: bool

    ghost predicate Valid()
      reads this
    {
      && |blocks| <= MAX_READS
      && (forall c | c in blocks :: blocks[c] == world(c))
      && (unknown <==> exists c :: c in blocks && world(c).None?)
      && (exhausted ==> |blocks| == MAX_READS)
    }

    /** Nothing outside a block of cells was read since. */
    twostate predicate ReadIn(r: Cells)
      reads this
    {
      forall c | c in blocks :: c in old(blocks) || r.Has(c)
    }

    /** Nothing outside a block of cells was ever read. */
    ghost predicate Inside(r: Cells)
      reads this
    {
      forall c | c in blocks :: r.Has(c)
    }

    constructor (world: World)
      ensures Valid() && this.world == world && !exhausted && !unknown && blocks == map[]
    {
      this.world := world;
      blocks := map[];
      unknown := false;
      exhausted := false;
    }

    method Block(c: Cell) returns (result: Option<Observed>)
      requires Valid()
      modifies this
      ensures Valid() && (old(exhausted) ==> exhausted)
      ensures result == world(c) || (exhausted && result.None?)
      ensures forall d | d in old(blocks) :: d in blocks
      ensures forall d | d in blocks :: d in old(blocks) || d == c
      ensures !exhausted ==> (unknown <==> old(unknown) || result.None?)
    {
      if c in blocks {
        return blocks[c];
      }
      if |blocks| >= MAX_READS {
        exhausted := true;
        return None;
      }
      result := world(c);
      if result.None? {
        unknown := true;
      }
      blocks := blocks[c := result];
    }

    ghost predicate AllSafe(r: Cells, safe: Test) {
      forall c | r.Has(c) :: safe(c, world(c))
    }

    ghost predicate SomeGood(r: Cells, good: Test) {
      exists c :: r.Has(c) && good(c, world(c))
    }

    /** The scan that the body and footing checks share: it stops at the first cell
        that is not safe, and notes whether a good one was seen. */
    method Scan(r: Cells, safe: Test, good: Test) returns (ok: bool, found: bool, ghost at: Cell)
      requires Valid() && forall c :: !safe(c, None)
      modifies this
      ensures Valid() && (old(exhausted) ==> exhausted)
      ensures ok ==> AllSafe(r, safe) && (found <==> SomeGood(r, good))
      ensures !ok ==> exhausted || !AllSafe(r, safe)
      ensures ReadIn(r)
      ensures ok && !exhausted ==> unknown == old(unknown)
      ensures !ok && !exhausted ==> FirstUnsafe(world, r, safe, at) && (unknown <==> old(unknown) || world(at).None?)
    {
      hide LocalTerrain.Valid;
      ok, found, at := true, false, Cell(0, 0, 0);
      var x := r.x0;
      while x <= r.x1 && ok
        invariant Valid() && (old(exhausted) ==> exhausted)
        invariant r.x0 <= x
        invariant ok ==> AllSafe(r.(x1 := x - 1), safe) && (found <==> SomeGood(r.(x1 := x - 1), good))
        invariant ok ==> x <= r.x1 + 1 || x == r.x0
        invariant !ok ==> exhausted || !AllSafe(r, safe)
        invariant ReadIn(r)
        invariant ok && !exhausted ==> unknown == old(unknown)
        invariant !ok && !exhausted ==>
          FirstUnsafe(world, r, safe, at) && (unknown <==> old(unknown) || world(at).None?)
        decreases r.x1 - x, ok
      {
        var here;
        ok, here, at := ScanSlice(r.(x0 := x, x1 := x), safe, good);
        found := found || here;
        x := x + 1;
      }
    }

    /** One slice of the scan, a single x. */
    method ScanSlice(r: Cells, safe: Test, good: Test) returns (ok: bool, found: bool, ghost at: Cell)
      requires Valid() && r.x0 == r.x1 && forall c :: !safe(c, None)
      modifies this
      ensures Valid() && (old(exhausted) ==> exhausted)
      ensures ok ==> AllSafe(r, safe) && (found <==> SomeGood(r, good))
      ensures !ok ==> exhausted || !AllSafe(r, safe)
      ensures ReadIn(r)
      ensures ok && !exhausted ==> unknown == old(unknown)
      ensures !ok && !exhausted ==> FirstUnsafe(world, r, safe, at) && (unknown <==> old(unknown) || world(at).None?)
    {
      hide LocalTerrain.Valid;
      ok, found, at := true, false, Cell(0, 0, 0);
      var z := r.z0;
      while z <= r.z1 && ok
        invariant Valid() && (old(exhausted) ==> exhausted)
        invariant r.z0 <= z
        invariant ok ==> AllSafe(r.(z1 := z - 1), safe) && (found <==> SomeGood(r.(z1 := z - 1), good))
        invariant ok ==> z <= r.z1 + 1 || z == r.z0
        invariant !ok ==> exhausted || !AllSafe(r, safe)
        invariant ReadIn(r)
        invariant ok && !exhausted ==> unknown == old(unknown)
        invariant !ok && !exhausted ==>
          FirstUnsafe(world, r, safe, at) && (unknown <==> old(unknown) || world(at).None?)
        decreases r.z1 - z, ok
      {
        var here;
        ok, here, at := ScanColumn(r.(z0 := z, z1 := z), safe, good);
        found := found || here;
        z := z + 1;
      }
    }

    /** One column of the scan, a single x and z. */
    method ScanColumn(r: Cells, safe: Test, good: Test) returns (ok: bool, found: bool, ghost at: Cell)
      requires Valid() && r.x0 == r.x1 && r.z0 == r.z1 && forall c :: !safe(c, None)
      modifies this
      ensures Valid() && (old(exhausted) ==> exhausted)
      ensures ok ==> AllSafe(r, safe) && (found <==> SomeGood(r, good))
      ensures !ok ==> exhausted || !AllSafe(r, safe)
      ensures ReadIn(r)
      ensures ok && !exhausted ==> unknown == old(unknown)
      ensures !ok && !exhausted ==> FirstUnsafe(world, r, safe, at) && (unknown <==> old(unknown) || world(at).None?)
    {
      hide LocalTerrain.Valid;
      ok, found, at := true, false, Cell(0, 0, 0);
      var y := r.y0;
      while y <= r.y1 && ok
        invariant Valid() && (old(exhausted) ==> exhausted)
        invariant r.y0 <= y
        invariant ok ==> AllSafe(r.(y1 := y - 1), safe) && (found <==> SomeGood(r.(y1 := y - 1), good))
        invariant ok ==> y <= r.y1 + 1 || y == r.y0
        invariant !ok ==> exhausted || !AllSafe(r, safe)
        invariant ReadIn(r)
        invariant ok && !exhausted ==> unknown == old(unknown)
        invariant !ok && !exhausted ==>
          FirstUnsafe(world, r, safe, at) && (unknown <==> old(unknown) || world(at).None?)
        decreases r.y1 - y, ok
      {
        var c := Cell(r.x0, y, r.z0);
        assert forall d :: r.(y1 := y).Has(d) <==> r.(y1 := y - 1).Has(d) || d == c;
        assert r.Has(c);
        var b := Block(c);
        ok := safe(c, b);
        at := c;
        found := found || good(c, b);
        y := y + 1;
      }
    }

    method CheckBody(p: Point) returns (clear: bool, ghost at: Cell)
      requires Valid()
      modifies this
      ensures Valid() && (old(exhausted) ==> exhausted)
      ensures clear ==> ClearBody(world, p)
      ensures !clear ==> exhausted || !ClearBody(world, p)
      ensures ReadIn(BodyCells(p))
      ensures clear && !exhausted ==> unknown == old(unknown)
      ensures !clear && !exhausted ==>
        FirstUnsafe(world, BodyCells(p), BodyTest(p), at) && (unknown <==> old(unknown) || world(at).None?)
    {
      hide LocalTerrain.Valid;
      var found;
      clear, found, at := Scan(BodyCells(p), BodyTest(p), (c: Cell, b: Option<Observed>) => false);
    }

    method Surfaces(x: real, z: real, nearY: real) returns (out: seq<Point>)
      requires Valid()
      modifies this
      ensures Valid() && (old(exhausted) ==> exhausted)
      ensures forall p | p in out :: IsSurface(world, x, z, nearY, p)
      ensures exhausted || forall p | IsSurface(world, x, z, nearY, p) :: p in out
      ensures Ordered(out, Closeness(nearY))
      ensures ReadIn(SurfaceCells(x, z, nearY))
    {
      hide LocalTerrain.Valid, ClearBody, HasTop;
      out := [];
      for y := nearY.Floor - 2 to nearY.Floor + 2
        invariant Valid() && (old(exhausted) ==> exhausted)
        invariant forall p | p in out :: IsSurface(world, x, z, nearY, p)
        invariant ReadIn(SurfaceCells(x, z, nearY))
        invariant exhausted || forall p, v | nearY.Floor - 2 <= v < y && IsSurfaceOf(world, x, z, nearY, v, p) ::
          p in out
      {
        out := SurfacesAt(Cell(x.Floor, y, z.Floor), x, z, nearY, out);
      }
      SortSameMembers(out, Closeness(nearY));
      out := SortBy(out, Closeness(nearY));
    }

    /** The body of the loop over heights: the walkable tops of one cell. */
    method SurfacesAt(c: Cell, x: real, z: real, nearY: real, sofar: seq<Point>) returns (out: seq<Point>)
      requires Valid() && c.x == x.Floor && c.z == z.Floor && nearY.Floor - 2 <= c.y <= nearY.Floor + 1
      requires forall p | p in sofar :: IsSurface(world, x, z, nearY, p)
      modifies this
      ensures Valid() && (old(exhausted) ==> exhausted)
      ensures sofar <= out
      ensures forall p | p in out :: IsSurface(world, x, z, nearY, p)
      ensures exhausted || forall p | IsSurfaceOf(world, x, z, nearY, c.y, p) :: p in out
      ensures ReadIn(SurfaceCells(x, z, nearY))
    {
      hide LocalTerrain.Valid, ClearBody;
      SurfaceCell(x, z, nearY, c);
      out := sofar;
      var b := Block(c);
      if b.None? || b.value.hazard {
        return;
      }
      var seen: set<real> := {};
      for i := 0 to |b.value.shapes|
        invariant Valid() && (old(exhausted) ==> exhausted)
        invariant sofar <= out && ReadIn(SurfaceCells(x, z, nearY))
        invariant forall p | p in out :: IsSurface(world, x, z, nearY, p)
        invariant forall j | 0 <= j < i && Covers(b.value.shapes[j], x - x.Floor as real, z - z.Floor as real)
            :: c.y as real + b.value.shapes[j].y1 in seen
        invariant exhausted || forall top | top in seen && Abs(top - nearY) <= 1.0 + EPS
            && ClearBody(world, Point(x, top, z)) :: Point(x, top, z) in out
      {
        var s := b.value.shapes[i];
        var top := c.y as real + s.y1;
        if Covers(s, x - x.Floor as real, z - z.Floor as real) && top !in seen {
          seen := seen + {top};
          if Abs(top - nearY) <= 1.0 + EPS {
            SurfaceBody(x, z, nearY, top);
            var clear, at := CheckBody(Point(x, top, z));
            if clear {
              assert HasTop(world(c), c, x, z, top);
              assert c == Cell(x.Floor, c.y, z.Floor);
              assert IsSurfaceOf(world, x, z, nearY, c.y, Point(x, top, z));
              out := out + [Point(x, top, z)];
            }
          }
        }
      }
      forall p | !exhausted && IsSurfaceOf(world, x, z, nearY, c.y, p)
        ensures p in out
      {
        assert p == Point(x, p.y, z) && p.y in seen;
      }
    }

    method CheckStanding(p: Point) returns (ok: bool)
      requires Valid()
      modifies this
      ensures Valid() && (old(exhausted) ==> exhausted)
      ensures ok ==> Standable(world, p)
      ensures !ok ==> exhausted || !Standable(world, p)
      ensures ReadIn(Between(p, p))
      ensures !ok && !exhausted ==> (unknown <==> old(unknown) || FaultUnread(world, p))
      ensures ok && !exhausted ==> unknown == old(unknown)
    {
      hide LocalTerrain.Valid;
      BodyBetween(p, p, p);
      ghost var at;
      ok, at := CheckBody(p);
      if !ok {
        if !exhausted {
          BodyFault(p, at);
        }
        return;
      }
      var supported;
      ghost var foot;
      ok, supported, foot := Scan(FootCells(p), FootTest(), (c: Cell, b: Option<Observed>) => Holds(b, p, c));
      if !exhausted {
        FootFault(p, ok, foot);
      }
      ok := ok && supported;
    }

    lemma BodyFault(p: Point, at: Cell)
      requires FirstUnsafe(world, BodyCells(p), BodyTest(p), at)
      ensures FaultUnread(world, p) <==> world(at).None?
    {
      assert !ClearBody(world, p);
      forall c | FirstUnsafe(world, BodyCells(p), BodyTest(p), c)
        ensures c == at
      {
        OneFirstUnsafe(world, BodyCells(p), BodyTest(p), at, c);
      }
    }

    lemma FootFault(p: Point, ok: bool, at: Cell)
      requires ClearBody(world, p)
      requires if ok then AllSafe(FootCells(p), FootTest()) else FirstUnsafe(world, FootCells(p), FootTest(), at)
      ensures FaultUnread(world, p) <==> !ok && world(at).None?
    {
      forall c | !ok && FirstUnsafe(world, FootCells(p), FootTest(), c)
        ensures c == at
      {
        OneFirstUnsafe(world, FootCells(p), FootTest(), at, c);
      }
    }

    method CheckColumn(p: Point, travelY: real) returns (clear: bool)
      requires Valid() && p.y <= travelY <= p.y + 1.3
      modifies this
      ensures Valid() && (old(exhausted) ==> exhausted)
      ensures clear ==> ColumnClear(world, p, travelY)
      ensures !clear ==> exhausted || !ColumnClear(world, p, travelY)
      ensures ReadIn(Between(p, Point(p.x, travelY + EPS, p.z)))
    {
      hide LocalTerrain.Valid, ClearBody;
      var k: nat := 0;
      while Lift(p, k).y <= travelY + EPS
        invariant Valid() && (old(exhausted) ==> exhausted)
        invariant forall j: nat | j < k :: ClearBody(world, Lift(p, j))
        invariant ReadIn(Between(p, Point(p.x, travelY + EPS, p.z)))
        decreases 10 - k
      {
        BodyBetween(p, Lift(p, k), Point(p.x, travelY + EPS, p.z));
        ghost var at;
        clear, at := CheckBody(Lift(p, k));
        if !clear {
          return;
        }
        k := k + 1;
      }
      clear := true;
    }

    method CheckEdge(a: Point, b: Point) returns (clear: bool)
      requires Valid()
      modifies this
      ensures Valid() && (old(exhausted) ==> exhausted)
      ensures clear ==> EdgeClear(world, a, b)
      ensures !clear ==> exhausted || !EdgeClear(world, a, b)
      ensures ReadIn(EdgeCells(a, b))
    {
      hide LocalTerrain.Valid, Standable, ColumnClear, CrossingClear, HorizontalSquared, Square, Abs;
      hide Between, EdgeCells, Cells.Has, TravelHeight;
      if HorizontalSquared(a.x, a.z, b.x, b.z) > Square(1.5) || Abs(a.y - b.y) > 1.0 + EPS {
        return false;
      }
      TravelHeightBounded(a, b);
      PartsOfEdge(a, b);
      clear := CheckStanding(b);
      if !clear {
        return;
      }
      clear := CheckColumn(a, TravelHeight(a, b));
      if !clear {
        return;
      }
      clear := CheckColumn(b, TravelHeight(a, b));
      if !clear {
        return;
      }
      clear := CheckCrossing(a, b);
    }

    method CheckCrossing(a: Point, b: Point) returns (clear: bool)
      requires Valid() && Abs(a.y - b.y) <= 1.0 + EPS
      modifies this
      ensures Valid() && (old(exhausted) ==> exhausted)
      ensures clear ==> CrossingClear(world, a, b)
      ensures !clear ==> exhausted || !CrossingClear(world, a, b)
      ensures ReadIn(EdgeCells(a, b))
    {
      hide LocalTerrain.Valid, ClearBody, Sample;
      for i := 0 to 9
        invariant Valid() && (old(exhausted) ==> exhausted)
        invariant forall j | 0 <= j < i :: ClearBody(world, Sample(a, b, j))
        invariant ReadIn(EdgeCells(a, b))
      {
        SampleInEdge(a, b, i);
        ghost var at;
        clear, at := CheckBody(Sample(a, b, i));
        if !clear {
          return;
        }
      }
      clear := true;
    }
  }
}

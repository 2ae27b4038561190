/** From the finitely many positions an edge check samples to every position the
    body passes through: when the samples cover the motion, and when they cannot. */
module Sweep {
  import opened Geometry
  import opened Options
  import opened Terrain

  /** Collision boxes are in order and stay inside their own cell. */
  ghost predicate UnitShapes(w: World) {
    forall c, s | w(c).Some? && s in w(c).value.shapes :: UnitBox(s)
  }

  predicate UnitBox(s: Box) {
    0.0 <= s.x0 <= s.x1 <= 1.0 && 0.0 <= s.y0 <= s.y1 <= 1.0 && 0.0 <= s.z0 <= s.z1 <= 1.0
  }

  /** Every box has a volume. */
  ghost predicate SolidShapes(w: World) {
    forall c, s | w(c).Some? && s in w(c).value.shapes :: s.x0 < s.x1 && s.y0 < s.y1 && s.z0 < s.z1
  }

  /** Some box, in whatever cell, meets the body at p. */
  ghost predicate Collides(w: World, p: Point) {
    exists c, s :: w(c).Some? && s in w(c).value.shapes && Hits(p, c, s)
  }

  /** q is passed on the way: up from a, across, or down to b. */
  ghost predicate Passes(a: Point, b: Point, q: Point) {
    || (q.x == a.x && q.z == a.z && a.y <= q.y <= TravelHeight(a, b))
    || (q.x == b.x && q.z == b.z && b.y <= q.y <= TravelHeight(a, b))
    || exists t | 0.0 <= t <= 1.0 :: q == Across(a, b, t)
  }

  ghost predicate SweepClear(w: World, a: Point, b: Point) {
    forall q | Passes(a, b, q) :: ClearBody(w, q) && !Collides(w, q)
  }

  // ---------------------------------------------------------------------
  // The local scan decides global collision
  // ---------------------------------------------------------------------

  lemma HitIsScanned(p: Point, c: Cell, s: Box)
    requires UnitBox(s) && Hits(p, c, s)
    ensures BodyCells(p).Has(c)
  {
  }

  /** Only the cells around the body are read, yet the verdict holds of the whole world. */
  lemma LocalScanIsGlobal(w: World, p: Point)
    requires UnitShapes(w)
    ensures ClearBody(w, p)
       <==> (forall c | BodyCells(p).Has(c) :: Harmless(w(c))) && !Collides(w, p)
  {
    forall c, s | w(c).Some? && s in w(c).value.shapes && Hits(p, c, s)
      ensures BodyCells(p).Has(c)
    {
      HitIsScanned(p, c, s);
    }
  }

  // ---------------------------------------------------------------------
  // Between two clear positions that overlap along one axis
  // ---------------------------------------------------------------------

  /** An interval between two others that overlap reaches only the cells, and only the spans, that they reach. */
  lemma Straddle(lo: real, hi: real, lo1: real, hi1: real, lo2: real, hi2: real, c: int, s0: real, s1: real)
    requires lo1 <= lo <= lo2 < hi1 <= hi <= hi2
    requires lo.Floor <= c <= hi.Floor && 0.0 <= s0 <= s1 <= 1.0
    ensures lo1.Floor <= c <= hi1.Floor || lo2.Floor <= c <= hi2.Floor
    ensures Overlaps(lo, hi, c, s0, s1) ==>
      || (lo1.Floor <= c <= hi1.Floor && Overlaps(lo1, hi1, c, s0, s1))
      || (lo2.Floor <= c <= hi2.Floor && Overlaps(lo2, hi2, c, s0, s1))
  {
  }

  lemma ClearBetweenX(w: World, p1: Point, p2: Point, q: Point)
    requires UnitShapes(w) && ClearBody(w, p1) && ClearBody(w, p2)
    requires p1.x <= q.x <= p2.x < p1.x + 0.5
    requires p1.y == q.y == p2.y && p1.z == q.z == p2.z
    ensures ClearBody(w, q)
  {
    forall c | BodyCells(q).Has(c)
      ensures Free(w(c), q, c)
    {
      Straddle(Left(q.x), Right(q.x), Left(p1.x), Right(p1.x), Left(p2.x), Right(p2.x), c.x, 0.0, 0.0);
      assert BodyCells(p1).Has(c) || BodyCells(p2).Has(c);
      forall s | s in w(c).value.shapes
        ensures !Hits(q, c, s)
      {
        assert UnitBox(s);
        Straddle(Left(q.x), Right(q.x), Left(p1.x), Right(p1.x), Left(p2.x), Right(p2.x), c.x, s.x0, s.x1);
      }
    }
  }

  lemma ClearBetweenZ(w: World, p1: Point, p2: Point, q: Point)
    requires UnitShapes(w) && ClearBody(w, p1) && ClearBody(w, p2)
    requires p1.z <= q.z <= p2.z < p1.z + 0.5
    requires p1.y == q.y == p2.y && p1.x == q.x == p2.x
    ensures ClearBody(w, q)
  {
    forall c | BodyCells(q).Has(c)
      ensures Free(w(c), q, c)
    {
      Straddle(Left(q.z), Right(q.z), Left(p1.z), Right(p1.z), Left(p2.z), Right(p2.z), c.z, 0.0, 0.0);
      assert BodyCells(p1).Has(c) || BodyCells(p2).Has(c);
      forall s | s in w(c).value.shapes
        ensures !Hits(q, c, s)
      {
        assert UnitBox(s);
        Straddle(Left(q.z), Right(q.z), Left(p1.z), Right(p1.z), Left(p2.z), Right(p2.z), c.z, s.z0, s.z1);
      }
    }
  }

  lemma ClearBetweenY(w: World, p1: Point, p2: Point, q: Point)
    requires UnitShapes(w) && ClearBody(w, p1) && ClearBody(w, p2)
    requires p1.y <= q.y <= p2.y < p1.y + 0.5
    requires p1.x == q.x == p2.x && p1.z == q.z == p2.z
    ensures ClearBody(w, q)
  {
    forall c | BodyCells(q).Has(c)
      ensures Free(w(c), q, c)
    {
      Straddle(Feet(q.y), Head(q.y), Feet(p1.y), Head(p1.y), Feet(p2.y), Head(p2.y), c.y, 0.0, 0.0);
      assert BodyCells(p1).Has(c) || BodyCells(p2).Has(c);
      forall s | s in w(c).value.shapes
        ensures !Hits(q, c, s)
      {
        assert UnitBox(s);
        Straddle(Feet(q.y), Head(q.y), Feet(p1.y), Head(p1.y), Feet(p2.y), Head(p2.y), c.y, s.y0, s.y1);
      }
    }
  }

  // ---------------------------------------------------------------------
  // The three legs of a step
  // ---------------------------------------------------------------------

  /** Samples 0.2 apart and the one at travelling height cover a vertical leg. */
  lemma VerticalLeg(w: World, p: Point, travelY: real, q: Point)
    requires UnitShapes(w) && ColumnClear(w, p, travelY) && ClearBody(w, Point(p.x, travelY, p.z))
    requires q.x == p.x && q.z == p.z && p.y <= q.y <= travelY
    ensures ClearBody(w, q)
  {
    var k := ((q.y - p.y) * 5.0).Floor;
    assert Lift(p, k).y <= q.y < Lift(p, k).y + 0.2;
    if Lift(p, k + 1).y <= travelY {
      ClearBetweenY(w, Lift(p, k), Lift(p, k + 1), q);
    } else {
      ClearBetweenY(w, Lift(p, k), Point(p.x, travelY, p.z), q);
    }
  }

  lemma StepIsShort(a: Point, b: Point)
    requires HorizontalSquared(a.x, a.z, b.x, b.z) <= Square(1.5)
    ensures Abs(b.x - a.x) <= 1.5 && Abs(b.z - a.z) <= 1.5
  {
    SquareNonNegative(a.x - b.x);
    SquareNonNegative(a.z - b.z);
    AbsBound(a.x - b.x);
    AbsBound(a.z - b.z);
  }

  lemma AbsBound(d: real)
    requires Square(d) <= Square(1.5)
    ensures Abs(d) <= 1.5
  {
    if Abs(d) > 1.5 {
      SquareStrict(Abs(d), 1.5);
    }
  }

  lemma AlongMonotone(start: real, d: real, u: real, v: real)
    requires u <= v
    ensures d >= 0.0 ==> Along(start, d, u) <= Along(start, d, v)
    ensures d <= 0.0 ==> Along(start, d, v) <= Along(start, d, u)
    ensures Along(start, d, v) == Along(start, d, u) + d * (v - u)
  {
    var gap := v - u;
    assert d * v == d * u + d * gap;
    assert d >= 0.0 ==> d * gap >= 0.0;
    assert d <= 0.0 ==> d * gap <= 0.0;
  }

  lemma AlongStill(start: real, d: real, u: real)
    requires d == 0.0
    ensures Along(start, d, u) == start
  {
  }

  /** Where t lies among the nine samples. */
  lemma Segment(start: real, d: real, t: real) returns (i: int)
    requires 0.0 <= t <= 1.0 && -1.5 <= d <= 1.5
    ensures 0 <= i <= 7
    ensures var p, q, r := Along(start, d, i as real / 8.0), Along(start, d, t), Along(start, d, (i + 1) as real / 8.0);
      (d >= 0.0 ==> p <= q <= r < p + 0.5) && (d <= 0.0 ==> r <= q <= p < r + 0.5)
  {
    i := if t == 1.0 then 7 else (8.0 * t).Floor;
    var u, v := i as real / 8.0, (i + 1) as real / 8.0;
    assert u <= t <= v && v == u + 0.125;
    AlongMonotone(start, d, u, t);
    AlongMonotone(start, d, t, v);
    AlongMonotone(start, d, u, v);
  }

  /** Nine samples, at most 0.1875 apart, cover an axis-aligned crossing. */
  lemma AlignedCrossing(w: World, a: Point, b: Point, t: real)
    requires UnitShapes(w) && CrossingClear(w, a, b)
    requires HorizontalSquared(a.x, a.z, b.x, b.z) <= Square(1.5)
    requires a.x == b.x || a.z == b.z
    requires 0.0 <= t <= 1.0
    ensures ClearBody(w, Across(a, b, t))
  {
    StepIsShort(a, b);
    if a.z == b.z {
      var i := Segment(a.x, b.x - a.x, t);
      AlongStill(a.z, b.z - a.z, t);
      AlongStill(a.z, b.z - a.z, i as real / 8.0);
      AlongStill(a.z, b.z - a.z, (i + 1) as real / 8.0);
      var p1, p2 := Sample(a, b, i), Sample(a, b, i + 1);
      if b.x >= a.x {
        ClearBetweenX(w, p1, p2, Across(a, b, t));
      } else {
        ClearBetweenX(w, p2, p1, Across(a, b, t));
      }
    } else {
      var i := Segment(a.z, b.z - a.z, t);
      AlongStill(a.x, b.x - a.x, t);
      AlongStill(a.x, b.x - a.x, i as real / 8.0);
      AlongStill(a.x, b.x - a.x, (i + 1) as real / 8.0);
      var p1, p2 := Sample(a, b, i), Sample(a, b, i + 1);
      if b.z >= a.z {
        ClearBetweenZ(w, p1, p2, Across(a, b, t));
      } else {
        ClearBetweenZ(w, p2, p1, Across(a, b, t));
      }
    }
  }

  lemma AlongEnds(start: real, d: real)
    ensures Along(start, d, 0.0) == start && Along(start, d, 1.0) == start + d
  {
    assert d * 0.0 == 0.0 && d * 1.0 == d;
  }

  lemma EndSamples(a: Point, b: Point)
    ensures Sample(a, b, 0) == Point(a.x, TravelHeight(a, b), a.z)
    ensures Sample(a, b, 8) == Point(b.x, TravelHeight(a, b), b.z)
  {
    AlongEnds(a.x, b.x - a.x);
    AlongEnds(a.z, b.z - a.z);
    assert 0 as real / 8.0 == 0.0 && 8 as real / 8.0 == 1.0;
  }

  /** Main result: along an axis-aligned edge the sampled check rules out a
      collision at every real point of the motion, with any block of the world. */
  lemma AlignedEdgeSweeps(w: World, a: Point, b: Point)
    requires UnitShapes(w) && EdgeClear(w, a, b)
    requires a.x == b.x || a.z == b.z
    ensures SweepClear(w, a, b)
  {
    EndSamples(a, b);
    assert ClearBody(w, Sample(a, b, 0)) && ClearBody(w, Sample(a, b, 8));
    forall q | Passes(a, b, q)
      ensures ClearBody(w, q) && !Collides(w, q)
    {
      if q.x == a.x && q.z == a.z && a.y <= q.y <= TravelHeight(a, b) {
        VerticalLeg(w, a, TravelHeight(a, b), q);
      } else if q.x == b.x && q.z == b.z && b.y <= q.y <= TravelHeight(a, b) {
        VerticalLeg(w, b, TravelHeight(a, b), q);
      } else {
        var t :| 0.0 <= t <= 1.0 && q == Across(a, b, t);
        AlignedCrossing(w, a, b, t);
      }
      LocalScanIsGlobal(w, q);
    }
  }

  // ---------------------------------------------------------------------
  // Diagonal edges: how much is still guaranteed, and that no more is
  // ---------------------------------------------------------------------

  /** Hits for a body narrowed by mx and mz on either side. */
  predicate HitsNarrowed(p: Point, c: Cell, s: Box, mx: real, mz: real) {
    && Overlaps(Left(p.x) + mx, Right(p.x) - mx, c.x, s.x0, s.x1)
    && Overlaps(Left(p.z) + mz, Right(p.z) - mz, c.z, s.z0, s.z1)
    && Overlaps(Feet(p.y), Head(p.y), c.y, s.y0, s.y1)
  }

  lemma NearestSample(start: real, d: real, t: real) returns (i: int)
    requires 0.0 <= t <= 1.0
    ensures 0 <= i <= 8 && i == (8.0 * t + 0.5).Floor
    ensures Abs(Along(start, d, t) - Along(start, d, i as real / 8.0)) <= Abs(d) / 16.0
  {
    i := (8.0 * t + 0.5).Floor;
    var u := i as real / 8.0;
    var gap := t - u;
    assert -0.0625 <= gap <= 0.0625;
    assert d * t == d * u + d * gap;
    AlongMonotone(0.0, d, gap, 0.0625);
    AlongMonotone(0.0, d, -0.0625, gap);
  }

  /** In any direction, a body narrowed by half the spacing of the samples crosses
      without meeting anything. */
  lemma AnyEdgeSweepsNarrowed(w: World, a: Point, b: Point, t: real, c: Cell, s: Box)
    requires UnitShapes(w) && EdgeClear(w, a, b) && 0.0 <= t <= 1.0
    requires w(c).Some? && s in w(c).value.shapes
    ensures !HitsNarrowed(Across(a, b, t), c, s, Abs(b.x - a.x) / 16.0, Abs(b.z - a.z) / 16.0)
  {
    var i := NearestSample(a.x, b.x - a.x, t);
    var j := NearestSample(a.z, b.z - a.z, t);
    LocalScanIsGlobal(w, Sample(a, b, i));
    assert !Hits(Sample(a, b, i), c, s);
  }

  function Sign(d: real): real {
    if d < 0.0 then -1.0 else 1.0
  }

  /** Part of one cell along one axis. */
  datatype Span = Span(cell: int, lo: real, hi: real)

  /** The part of a cell that starts at v and goes up, or ends at v and comes from below. */
  function Beyond(v: real, sign: real): (r: Span)
    ensures 0.0 <= r.lo < r.hi <= 1.0
    ensures sign > 0.0 ==> r.cell as real + r.lo == v < r.cell as real + r.hi
    ensures sign <= 0.0 ==> r.cell as real + r.lo < v == r.cell as real + r.hi
  {
    if sign > 0.0 then Span(v.Floor, v - v.Floor as real, 1.0)
    else
      var c := -((-v).Floor) - 1;
      Span(c, 0.0, v - c as real)
  }

  /** A block of matter inside one cell. */
  datatype Chunk = Chunk(x: Span, y: Span, z: Span) {
    function Home(): Cell {
      Cell(x.cell, y.cell, z.cell)
    }

    function Shape(): Box {
      Box(x.lo, y.lo, z.lo, x.hi, y.hi, z.hi)
    }

    predicate MeetsBody(p: Point) {
      Hits(p, Home(), Shape())
    }
  }

  function ChunkIn(c: Cell, m: Chunk): seq<Box> {
    if c == m.Home() then [m.Shape()] else []
  }

  /** A world that is empty but for two chunks of matter. */
  function TwoChunks(m: Chunk, n: Chunk): World {
    (c: Cell) => Some(Observed(ChunkIn(c, m) + ChunkIn(c, n), false))
  }

  lemma ClearOfTwoChunks(m: Chunk, n: Chunk, p: Point)
    requires !m.MeetsBody(p) && !n.MeetsBody(p)
    ensures ClearBody(TwoChunks(m, n), p)
  {
  }

  /** Matter behind the trailing corner, extending away from the body: out of reach at every
      sample, but not between the first two. */
  function Snag(a: Point, b: Point): Chunk {
    Chunk(Beyond(Along(a.x, b.x - a.x, 0.125) - Sign(b.x - a.x) * (WIDTH - EPS), -Sign(b.x - a.x)),
      Beyond(TravelHeight(a, b) + 1.0, 1.0),
      Beyond(a.z + Sign(b.z - a.z) * (WIDTH - EPS), Sign(b.z - a.z)))
  }

  /** Just enough support for standing at b, beyond the reach of the body over a. */
  function Foothold(a: Point, b: Point): Chunk {
    var d := Abs(b.x - a.x);
    Chunk(Beyond(b.x + Sign(b.x - a.x) * (WIDTH - EPS - (if d < WIDTH - EPS then d else WIDTH - EPS) / 2.0),
      Sign(b.x - a.x)),
      Beyond(b.y, -1.0),
      Beyond(b.z, 1.0))
  }

  function Snagged(a: Point, b: Point): World {
    TwoChunks(Snag(a, b), Foothold(a, b))
  }

  ghost predicate Diagonal(a: Point, b: Point) {
    && HorizontalSquared(a.x, a.z, b.x, b.z) <= Square(1.5)
    && Abs(a.y - b.y) <= 1.0 + EPS
    && a.x != b.x && a.z != b.z
  }

  lemma SnaggedIsSolid(a: Point, b: Point)
    ensures UnitShapes(Snagged(a, b)) && SolidShapes(Snagged(a, b))
  {
    hide Beyond;
  }

  lemma SamplesMissSnag(a: Point, b: Point, i: int)
    requires Diagonal(a, b) && 0 <= i <= 8
    ensures !Snag(a, b).MeetsBody(Sample(a, b, i)) && !Foothold(a, b).MeetsBody(Sample(a, b, i))
  {
    hide Beyond;
    EndSamples(a, b);
    if i > 0 {
      assert i as real / 8.0 >= 0.125;
      AlongMonotone(a.x, b.x - a.x, 0.125, i as real / 8.0);
    }
  }

  lemma ColumnsMissSnag(a: Point, b: Point, y: real)
    requires Diagonal(a, b)
    ensures !Snag(a, b).MeetsBody(Point(a.x, y, a.z)) && !Foothold(a, b).MeetsBody(Point(a.x, y, a.z))
    ensures !Snag(a, b).MeetsBody(Point(b.x, y, b.z))
    ensures y >= b.y ==> !Foothold(a, b).MeetsBody(Point(b.x, y, b.z))
  {
    hide Beyond;
    AlongEnds(a.x, b.x - a.x);
    AlongMonotone(a.x, b.x - a.x, 0.125, 1.0);
  }

  lemma FootholdHolds(a: Point, b: Point)
    requires Diagonal(a, b)
    ensures Standable(Snagged(a, b), b)
  {
    hide Beyond;
    var m, f := Snag(a, b), Foothold(a, b);
    ColumnsMissSnag(a, b, b.y);
    ClearOfTwoChunks(m, f, b);
    assert FootCells(b).Has(f.Home());
    assert Supports(b, f.Home(), f.Shape());
    assert f.Shape() in Snagged(a, b)(f.Home()).value.shapes;
    assert Holds(Snagged(a, b)(f.Home()), b, f.Home());
  }

  lemma SnaggedEdgePasses(a: Point, b: Point)
    requires Diagonal(a, b)
    ensures EdgeClear(Snagged(a, b), a, b)
  {
    hide Beyond, Snag, Foothold, Chunk.MeetsBody;
    var m, f := Snag(a, b), Foothold(a, b);
    FootholdHolds(a, b);
    forall i | 0 <= i <= 8
      ensures ClearBody(Snagged(a, b), Sample(a, b, i))
    {
      SamplesMissSnag(a, b, i);
      ClearOfTwoChunks(m, f, Sample(a, b, i));
    }
    forall k: nat
      ensures ClearBody(Snagged(a, b), Lift(a, k)) && ClearBody(Snagged(a, b), Lift(b, k))
    {
      ColumnsMissSnag(a, b, Lift(a, k).y);
      ColumnsMissSnag(a, b, Lift(b, k).y);
      ClearOfTwoChunks(m, f, Lift(a, k));
      ClearOfTwoChunks(m, f, Lift(b, k));
    }
  }

  lemma SnagIsMet(a: Point, b: Point)
    requires Diagonal(a, b)
    ensures Collides(Snagged(a, b), Across(a, b, 0.0625))
  {
    hide Beyond;
    var m, q := Snag(a, b), Across(a, b, 0.0625);
    StepIsShort(a, b);
    AlongEnds(a.z, b.z - a.z);
    AlongMonotone(a.x, b.x - a.x, 0.0625, 0.125);
    AlongMonotone(a.z, b.z - a.z, 0.0, 0.0625);
    assert Hits(q, m.Home(), m.Shape());
    assert m.Shape() in Snagged(a, b)(m.Home()).value.shapes;
  }

  /** The samples cover the whole motion over an edge, in the worlds of interest. */
  ghost predicate Covered(a: Point, b: Point, solid: bool) {
    forall w | UnitShapes(w) && (solid ==> SolidShapes(w)) && EdgeClear(w, a, b) :: SweepClear(w, a, b)
  }

  /** Main result: among the edges within the step limits, the sampled check covers the whole
      motion in every world exactly when the edge is axis-aligned, whether or not boxes
      without volume are admitted. */
  lemma SweepCoveredIffAligned(a: Point, b: Point, solid: bool)
    requires HorizontalSquared(a.x, a.z, b.x, b.z) <= Square(1.5)
    requires Abs(a.y - b.y) <= 1.0 + EPS
    ensures Covered(a, b, solid) <==> (a.x == b.x || a.z == b.z)
  {
    hide UnitShapes, SolidShapes, EdgeClear, Snagged;
    if a.x == b.x || a.z == b.z {
      forall w | UnitShapes(w) && EdgeClear(w, a, b)
        ensures SweepClear(w, a, b)
      {
        AlignedEdgeSweeps(w, a, b);
      }
    } else {
      SnaggedIsSolid(a, b);
      SnaggedEdgePasses(a, b);
      SnagIsMet(a, b);
      assert Passes(a, b, Across(a, b, 0.0625));
      assert !SweepClear(Snagged(a, b), a, b);
    }
  }
}

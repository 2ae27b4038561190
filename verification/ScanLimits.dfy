/** What the scan of the cells around the body can decide: exactly the boxes that stay inside
    their own cells. */
module ScanLimits {
  import opened Geometry
  import opened Options
  import opened Sweep
  import opened Terrain

  predicate OrderedBox(s: Box) {
    s.x0 <= s.x1 && s.y0 <= s.y1 && s.z0 <= s.z1
  }

  ghost predicate OrderedShapes(w: World) {
    forall c, s | w(c).Some? && s in w(c).value.shapes :: OrderedBox(s)
  }

  /** Whatever position the body is in, the scan reads the box if the two meet. */
  ghost predicate AlwaysScanned(c: Cell, s: Box) {
    forall p | Hits(p, c, s) :: BodyCells(p).Has(c)
  }

  /** Along one axis, a span that leaves its cell can be reached without touching the cell. */
  lemma Reach(c: int, s0: real, s1: real, size: real) returns (lo: real)
    requires s0 <= s1 && size > 0.0
    ensures Overlaps(lo, lo + size, c, s0, s1)
    ensures (0.0 <= s0 && s1 <= 1.0) || !(lo.Floor <= c <= (lo + size).Floor)
  {
    if s1 > 1.0 {
      lo := c as real + Max(1.0, s0 - size / 2.0);
    } else if s0 < 0.0 {
      var top := if s1 + size / 2.0 < 0.0 then s1 + size / 2.0 else 0.0;
      lo := c as real + (s0 + top) / 2.0 - size;
    } else {
      lo := c as real + s0 - size / 2.0;
    }
  }

  /** Main result: the scan is never blind to a box exactly when the box stays inside its cell. */
  lemma BoxIsScannedIff(c: Cell, s: Box)
    requires OrderedBox(s)
    ensures AlwaysScanned(c, s) <==> UnitBox(s)
  {
    if UnitBox(s) {
      forall p | Hits(p, c, s)
        ensures BodyCells(p).Has(c)
      {
        HitIsScanned(p, c, s);
      }
    } else {
      var x := Reach(c.x, s.x0, s.x1, 2.0 * (WIDTH - EPS));
      var y := Reach(c.y, s.y0, s.y1, HEIGHT - 2.0 * EPS);
      var z := Reach(c.z, s.z0, s.z1, 2.0 * (WIDTH - EPS));
      var p := Point(x + WIDTH - EPS, y - EPS, z + WIDTH - EPS);
      assert Hits(p, c, s) && !BodyCells(p).Has(c);
    }
  }

  /** The same for whole worlds: every box that meets a body is read exactly if all stay in their cells. */
  lemma ShapesAreScannedIff(w: World)
    requires OrderedShapes(w)
    ensures (forall c, s | w(c).Some? && s in w(c).value.shapes :: AlwaysScanned(c, s)) <==> UnitShapes(w)
  {
    forall c, s | w(c).Some? && s in w(c).value.shapes
      ensures AlwaysScanned(c, s) <==> UnitBox(s)
    {
      BoxIsScannedIff(c, s);
    }
  }

  /** A world that is empty but for one box. */
  function Lone(c: Cell, s: Box): World {
    (d: Cell) => Some(Observed(if d == c then [s] else [], false))
  }

  /** Main result: around a single box the verdict of the scan is right in every position exactly
      when the box stays inside its cell. */
  lemma LoneScanIsRightIff(c: Cell, s: Box)
    requires OrderedBox(s)
    ensures (forall p :: ClearBody(Lone(c, s), p) <==> !Collides(Lone(c, s), p)) <==> UnitBox(s)
  {
    var w := Lone(c, s);
    BoxIsScannedIff(c, s);
    forall p
      ensures Collides(w, p) <==> Hits(p, c, s)
      ensures ClearBody(w, p) <==> !(Hits(p, c, s) && BodyCells(p).Has(c))
    {
      LoneVerdict(c, s, p);
    }
    hide Hits, UnitBox;
  }

  lemma LoneVerdict(c: Cell, s: Box, p: Point)
    ensures Collides(Lone(c, s), p) <==> Hits(p, c, s)
    ensures ClearBody(Lone(c, s), p) <==> !(Hits(p, c, s) && BodyCells(p).Has(c))
  {
    assert s in Lone(c, s)(c).value.shapes;
  }

  // ---------------------------------------------------------------------
  // Carpets on fences
  // ---------------------------------------------------------------------

  const CUBE := Box(0.0, 0.0, 0.0, 1.0, 1.0, 1.0)
  const FENCE := Box(0.375, 0.0, 0.375, 0.625, 1.5, 0.625)
  const CARPET := Box(0.0, 0.0, 0.0, 1.0, 0.0625, 1.0)

  /** Solid ground, and east of it fences, which are hazards, one block and a half high, with
      carpets on top of their cells. */
  function CarpetedFences(): World {
    (c: Cell) => Some(
      if c.y == 63 then (if c.x <= 0 then Observed([CUBE], false) else Observed([FENCE], true))
      else if c.y == 64 && c.x >= 1 then Observed([CARPET], false)
      else Observed([], false))
  }

  const ON_GROUND := Point(0.5, 64.0, 0.5)
  const ON_CARPET := Point(1.5, 64.0625, 0.5)

  lemma GroundIsClear()
    ensures ClearBody(CarpetedFences(), ON_GROUND) && !Collides(CarpetedFences(), ON_GROUND)
  {
  }

  lemma CarpetIsClear(p: Point)
    requires 64.0625 <= p.y < 65.0
    ensures ClearBody(CarpetedFences(), p)
  {
  }

  lemma GroundHolds()
    ensures Standable(CarpetedFences(), ON_GROUND)
  {
    GroundIsClear();
    var c := Cell(0, 63, 0);
    assert FootCells(ON_GROUND).Has(c) && Supports(ON_GROUND, c, CUBE);
    assert CUBE in CarpetedFences()(c).value.shapes;
    assert Holds(CarpetedFences()(c), ON_GROUND, c);
  }

  lemma CarpetHolds()
    ensures Standable(CarpetedFences(), ON_CARPET)
  {
    CarpetIsClear(ON_CARPET);
    var c := Cell(1, 64, 0);
    assert FootCells(ON_CARPET).Has(c) && Supports(ON_CARPET, c, CARPET);
    assert CARPET in CarpetedFences()(c).value.shapes;
    assert Holds(CarpetedFences()(c), ON_CARPET, c);
  }

  /** At the centre of any cell with a carpet the body meets the fence below. */
  lemma FenceIsMet(p: Point)
    requires p.x == p.x.Floor as real + 0.5 && p.z == p.z.Floor as real + 0.5
    requires p.x >= 1.0 && p.y == 64.0625
    ensures Collides(CarpetedFences(), p)
  {
    var c := Cell(p.x.Floor, 63, p.z.Floor);
    assert Hits(p, c, FENCE);
    assert FENCE in CarpetedFences()(c).value.shapes;
  }

  /** A fence under a carpet stands in the body, and neither its shape nor its being a hazard is
      seen, because the cell below the carpet is never read: from free ground an axis-aligned
      edge passes whose motion is not free of collisions. */
  lemma TallShapeIsMissed()
    ensures Standable(CarpetedFences(), ON_GROUND) && !Collides(CarpetedFences(), ON_GROUND)
    ensures Standable(CarpetedFences(), ON_CARPET) && Collides(CarpetedFences(), ON_CARPET)
    ensures EdgeClear(CarpetedFences(), ON_GROUND, ON_CARPET)
    ensures !SweepClear(CarpetedFences(), ON_GROUND, ON_CARPET)
  {
    GroundHolds();
    GroundIsClear();
    CarpetHolds();
    FenceIsMet(ON_CARPET);
    CarpetedEdgePasses();
    hide CarpetedFences;
    assert Passes(ON_GROUND, ON_CARPET, ON_CARPET);
  }

  lemma CarpetedEdgePasses()
    ensures EdgeClear(CarpetedFences(), ON_GROUND, ON_CARPET)
  {
    var a, b := ON_GROUND, ON_CARPET;
    CarpetHolds();
    GroundIsClear();
    forall p: Point | 64.0625 <= p.y < 65.0
      ensures ClearBody(CarpetedFences(), p)
    {
      CarpetIsClear(p);
    }
    hide CarpetedFences;
    assert TravelHeight(a, b) == 64.0625;
    assert Lift(a, 0) == a && forall k: nat | k > 0 :: Lift(a, k).y > 64.0635;
    assert forall k: nat :: Lift(b, k).y >= 64.0625;
    assert HorizontalSquared(a.x, a.z, b.x, b.z) <= Square(1.5);
  }
}

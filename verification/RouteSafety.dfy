/** What the sweep results say about a whole planned route. */
module RouteSafety {
  import opened Geometry
  import opened RouteSearch
  import opened ScanLimits
  import opened ShortestPath
  import opened Sweep
  import opened Terrain

  ghost predicate Aligned(a: Point, b: Point) {
    a.x == b.x || a.z == b.z
  }

  /** No box of the world meets the body at p, narrowed by 3/32 on each side. */
  ghost predicate NarrowlyClear(w: World, p: Point) {
    forall c, s | w(c).Some? && s in w(c).value.shapes :: !HitsNarrowed(p, c, s, 0.09375, 0.09375)
  }

  ghost predicate CrossesNarrowed(w: World, a: Point, b: Point) {
    forall t | 0.0 <= t <= 1.0 :: NarrowlyClear(w, Across(a, b, t))
  }

  predicate Centred(p: Point) {
    p.x == p.x.Floor as real + 0.5 && p.z == p.z.Floor as real + 0.5
  }

  lemma ColumnsAreCentres(p: Point, x: real, z: real) returns (i: int, j: int)
    requires (x, z) in Columns(p)
    ensures x == i as real + 0.5 && z == j as real + 0.5
  {
    hide HorizontalSquared, Square;
    var cx, cz := p.x.Floor, p.z.Floor;
    i := if x == cx as real + 0.5 then cx else if x == cx as real + 1.5 then cx + 1 else cx - 1;
    j := if z == cz as real + 0.5 then cz else if z == cz as real + 1.5 then cz + 1 else cz - 1;
  }

  /** Every step ends at the centre of a cell. */
  lemma StepsEndCentred(q: Query, p: Point, r: Point)
    requires q.Edge(p, r)
    ensures Centred(r)
  {
    hide IsSurface, EdgeClear, LocalEdgeKey, Columns, Query.InRange, Query.Allowed;
    var i, j := ColumnsAreCentres(p, r.x, r.z);
    assert r.x.Floor == i && r.z.Floor == j;
  }

  /** From a centre the only way is straight on, by exactly one block. */
  lemma CentredStepsAreStraight(q: Query, p: Point, r: Point)
    requires q.Edge(p, r) && Centred(p)
    ensures Aligned(p, r) && Abs(p.x - r.x) + Abs(p.z - r.z) == 1.0
  {
    hide IsSurface, EdgeClear, LocalEdgeKey, Query.InRange, Query.Allowed;
    assert HorizontalSquared(p.x, p.z, p.x, p.z) == 0.0;
  }

  /** Main result: after its first step, a planned route is swept in full, its first step too if it
      is axis-aligned; and every step is swept with the body narrowed by 3/32. */
  lemma PlannedRouteSweeps(q: Query, ps: seq<Point>, i: nat)
    requires UnitShapes(q.world) && q.Graph().Path(ps) && 0 < i < |ps|
    ensures i > 1 || Aligned(ps[0], ps[1]) ==> SweepClear(q.world, ps[i - 1], ps[i])
    ensures CrossesNarrowed(q.world, ps[i - 1], ps[i])
  {
    hide IsSurface, EdgeClear, LocalEdgeKey, SweepClear, NarrowlyClear, Centred, Aligned, UnitShapes, Query.InRange,
      Query.Allowed, Columns;
    var a, b := ps[i - 1], ps[i];
    assert q.Graph().edge(a, b);
    assert q.Edge(a, b) && EdgeClear(q.world, a, b);
    if i > 1 {
      assert q.Graph().edge(ps[i - 2], a);
      StepsEndCentred(q, ps[i - 2], a);
      CentredStepsAreStraight(q, a, b);
    }
    if Aligned(a, b) {
      AlignedSweep(q.world, a, b);
    }
    forall t | 0.0 <= t <= 1.0
      ensures NarrowlyClear(q.world, Across(a, b, t))
    {
      NarrowerStillMisses(q.world, a, b, t);
    }
  }

  /** Box s of cell c meets a bot whose feet are at p: 0.6 wide and 1.8 high, less a thousandth on every side. */
  predicate Touches(p: Point, c: Cell, s: Box) {
    && c.x as real + s.x0 < p.x + 0.299 && c.x as real + s.x1 > p.x - 0.299
    && c.y as real + s.y0 < p.y + 1.799 && c.y as real + s.y1 > p.y + 0.001
    && c.z as real + s.z0 < p.z + 0.299 && c.z as real + s.z1 > p.z - 0.299
  }

  /** Box s of cell c carries a bot whose feet are at p. */
  predicate Carries(p: Point, c: Cell, s: Box) {
    && -0.08 < c.y as real + s.y1 - p.y < 0.08
    && c.x as real + s.x0 < p.x + 0.299 && c.x as real + s.x1 > p.x - 0.299
    && c.z as real + s.z0 < p.z + 0.299 && c.z as real + s.z1 > p.z - 0.299
  }

  /** Main result: every place a route leads to is in range, safe, known, free and on firm ground, and
      the step to it is short and not one that failed before. */
  lemma PlannedPlaceIsSafe(q: Query, ps: seq<Point>, i: nat)
    requires q.Graph().Path(ps) && 0 < i < |ps|
    ensures var o, b := q.origin, ps[i];
      -12.0 <= b.x - o.x <= 12.0 && -12.0 <= b.z - o.z <= 12.0 && -6.0 <= b.y - o.y <= 6.0
    ensures !q.dangerous(ps[i]) && EdgeKey(Key(ps[i - 1]), Key(ps[i])) !in q.blocked
    ensures var a, b := ps[i - 1], ps[i];
      -1.001 <= b.y - a.y <= 1.001 && (a.x - b.x) * (a.x - b.x) + (a.z - b.z) * (a.z - b.z) <= 2.25
    ensures forall c | Touches(ps[i], c, Box(0.0, 0.0, 0.0, 1.0, 1.0, 1.0)) ::
      && q.world(c).Some? && !q.world(c).value.hazard
      && forall s | s in q.world(c).value.shapes :: !Touches(ps[i], c, s)
    ensures exists c, s ::
      && q.world(c).Some? && !q.world(c).value.hazard && s in q.world(c).value.shapes && Carries(ps[i], c, s)
  {
    StepIsWithin(q, ps, i);
    hide EdgeClear, Standable, Query.Edge, Query.Graph, Touches, Carries;
    PlaceIsNear(q, ps[i - 1], ps[i]);
    PlaceIsFree(q.world, ps[i]);
    PlaceIsFirm(q.world, ps[i]);
  }

  lemma StepIsWithin(q: Query, ps: seq<Point>, i: nat)
    requires q.Graph().Path(ps) && 0 < i < |ps|
    ensures q.InRange(ps[i].x, ps[i].z) && q.Allowed(ps[i - 1], ps[i]) && EdgeClear(q.world, ps[i - 1], ps[i])
    ensures Standable(q.world, ps[i])
  {
    hide IsSurface, ColumnClear, CrossingClear, Columns, Standable, Query.InRange, Query.Allowed;
    assert q.Graph().edge(ps[i - 1], ps[i]);
    assert q.Edge(ps[i - 1], ps[i]);
  }

  lemma PlaceIsNear(q: Query, a: Point, b: Point)
    requires q.InRange(b.x, b.z) && q.Allowed(a, b) && EdgeClear(q.world, a, b)
    ensures -12.0 <= b.x - q.origin.x <= 12.0 && -12.0 <= b.z - q.origin.z <= 12.0
    ensures -6.0 <= b.y - q.origin.y <= 6.0 && !q.dangerous(b) && EdgeKey(Key(a), Key(b)) !in q.blocked
    ensures -1.001 <= b.y - a.y <= 1.001 && (a.x - b.x) * (a.x - b.x) + (a.z - b.z) * (a.z - b.z) <= 2.25
  {
    hide ColumnClear, CrossingClear, Standable;
    hide Key;
  }

  lemma PlaceIsFree(w: World, p: Point)
    requires Standable(w, p)
    ensures forall c | Touches(p, c, Box(0.0, 0.0, 0.0, 1.0, 1.0, 1.0)) ::
      w(c).Some? && !w(c).value.hazard && forall s | s in w(c).value.shapes :: !Touches(p, c, s)
  {
    hide Holds;
    forall c | Touches(p, c, Box(0.0, 0.0, 0.0, 1.0, 1.0, 1.0))
      ensures w(c).Some? && !w(c).value.hazard && forall s | s in w(c).value.shapes :: !Touches(p, c, s)
    {
      assert BodyCells(p).Has(c);
      assert Free(w(c), p, c);
    }
  }

  lemma PlaceIsFirm(w: World, p: Point)
    requires Standable(w, p)
    ensures exists c, s ::
      w(c).Some? && !w(c).value.hazard && s in w(c).value.shapes && Carries(p, c, s)
  {
    hide ClearBody;
    var c :| FootCells(p).Has(c) && Holds(w(c), p, c);
    assert Harmless(w(c));
    var s :| s in w(c).value.shapes && Supports(p, c, s);
    assert Carries(p, c, s);
  }

  /** Cells that a body at p reaches into, from low to high above its feet. */
  predicate Spans(p: Point, low: real, high: real, c: Cell) {
    && (p.x - 0.299).Floor <= c.x <= (p.x + 0.299).Floor && (p.z - 0.299).Floor <= c.z <= (p.z + 0.299).Floor
    && (p.y + low).Floor <= c.y <= (p.y + high).Floor
  }

  ghost predicate Known(w: World, c: Cell) {
    w(c).Some? && !w(c).value.hazard
  }

  ghost predicate Roomy(w: World, p: Point) {
    forall c | Spans(p, 0.001, 1.799, c) :: Known(w, c) && forall s | s in w(c).value.shapes :: !Touches(p, c, s)
  }

  /** A place to stand, in numbers. */
  lemma StandableIff(w: World, p: Point)
    ensures ClearBody(w, p) <==> Roomy(w, p)
    ensures Standable(w, p) <==>
      && Roomy(w, p) && (forall c | Spans(p, -0.001, 0.0, c) :: Known(w, c))
      && exists c, s :: Spans(p, -0.001, 0.0, c) && Known(w, c) && s in w(c).value.shapes && Carries(p, c, s)
  {
    BodySpans(p);
    FootSpans(p);
    hide BodyCells, FootCells, Spans;
    assert ClearBody(w, p) <==> Roomy(w, p) by {
      assert forall c :: BodyCells(p).Has(c) ==>
        (Free(w(c), p, c) <==> Known(w, c) && forall s | s in w(c).value.shapes :: !Touches(p, c, s));
    }
    hide ClearBody, Roomy, Touches;
    assert forall c :: Harmless(w(c)) <==> Known(w, c);
    if forall c | FootCells(p).Has(c) :: Known(w, c) {
      SupportIff(w, p);
    }
  }

  lemma SupportIff(w: World, p: Point)
    requires forall c :: FootCells(p).Has(c) <==> Spans(p, -0.001, 0.0, c)
    requires forall c | FootCells(p).Has(c) :: Known(w, c)
    ensures (exists c :: FootCells(p).Has(c) && Holds(w(c), p, c)) <==>
      exists c, s :: Spans(p, -0.001, 0.0, c) && Known(w, c) && s in w(c).value.shapes && Carries(p, c, s)
  {
    hide FootCells, Spans;
    assert forall c, s :: Supports(p, c, s) <==> Carries(p, c, s);
  }

  lemma BodySpans(p: Point)
    ensures forall c :: BodyCells(p).Has(c) <==> Spans(p, 0.001, 1.799, c)
  {
  }

  lemma FootSpans(p: Point)
    ensures forall c :: FootCells(p).Has(c) <==> Spans(p, -0.001, 0.0, c)
  {
  }

  /** A clear edge, in numbers: a short step to a place to stand, with room up, across and down. */
  lemma EdgeClearIff(w: World, a: Point, b: Point)
    ensures EdgeClear(w, a, b) <==>
      var top := (if a.y < b.y then b.y else a.y) + (if b.y - a.y > 0.6 then 0.25 else 0.0);
      && (a.x - b.x) * (a.x - b.x) + (a.z - b.z) * (a.z - b.z) <= 2.25 && -1.001 <= b.y - a.y <= 1.001
      && Standable(w, b) && ColumnClear(w, a, top) && ColumnClear(w, b, top) && CrossingClear(w, a, b)
  {
    hide ColumnClear, CrossingClear, Standable;
  }

  /** The limits of a search, in numbers. */
  lemma LimitsOfSearch(q: Query, p: Point, r: Point)
    ensures MAX_NODES == 2048 && MAX_READS == 24000
    ensures q.InRange(r.x, r.z) && q.Allowed(p, r) <==>
      && -12.0 <= r.x - q.origin.x <= 12.0 && -12.0 <= r.z - q.origin.z <= 12.0 && -6.0 <= r.y - q.origin.y <= 6.0
      && !q.dangerous(r) && EdgeKey(Key(p), Key(r)) !in q.blocked
    ensures q.OnFrontier(p) <==> !(-11.0 < p.x - q.origin.x < 11.0 && -11.0 < p.z - q.origin.z < 11.0)
  {
    hide Key;
  }

  function Length(dist: Metric, ps: seq<Point>): real {
    if |ps| < 2 then 0.0 else dist(ps[0], ps[1]) + Length(dist, ps[1..])
  }

  /** How often the places a route leads to were visited. */
  function Visits(visits: map<CellKey, nat>, ps: seq<Point>): nat {
    if |ps| < 2 then 0
    else (if Key(ps[1]) in visits then visits[Key(ps[1])] else 0) + Visits(visits, ps[1..])
  }

  /** What the search makes cheapest: the way walked, and two blocks more for every visit before. */
  lemma {:induction false} CostIsLengthAndVisits(q: Query, ps: seq<Point>)
    requires |ps| > 0
    ensures q.Graph().Cost(ps) == Length(q.dist, ps) + 2.0 * Visits(q.visits, ps) as real
    decreases |ps|
  {
    hide Query.Edge;
    if |ps| > 1 {
      var front, p, r := ps[..|ps| - 1], ps[|ps| - 2], ps[|ps| - 1];
      CostIsLengthAndVisits(q, front);
      LengthToEnd(q, front, r);
      assert front + [r] == ps;
    }
  }

  lemma {:induction false} LengthToEnd(q: Query, ps: seq<Point>, r: Point)
    requires |ps| > 0
    ensures Length(q.dist, ps + [r]) == Length(q.dist, ps) + q.dist(ps[|ps| - 1], r)
    ensures Visits(q.visits, ps + [r]) ==
      Visits(q.visits, ps) + if Key(r) in q.visits then q.visits[Key(r)] else 0
    decreases |ps|
  {
    if |ps| > 1 {
      LengthToEnd(q, ps[1..], r);
      assert (ps + [r])[1..] == ps[1..] + [r];
    } else {
      assert (ps + [r])[1..] == [r];
    }
  }

  lemma AlignedSweep(w: World, a: Point, b: Point)
    requires UnitShapes(w) && EdgeClear(w, a, b) && Aligned(a, b)
    ensures SweepClear(w, a, b)
  {
    hide UnitShapes, EdgeClear, SweepClear;
    AlignedEdgeSweeps(w, a, b);
  }

  lemma NarrowerStillMisses(w: World, a: Point, b: Point, t: real)
    requires UnitShapes(w) && EdgeClear(w, a, b) && 0.0 <= t <= 1.0
    ensures NarrowlyClear(w, Across(a, b, t))
  {
    hide UnitShapes;
    StepIsShort(a, b);
    forall c, s | w(c).Some? && s in w(c).value.shapes
      ensures !HitsNarrowed(Across(a, b, t), c, s, 0.09375, 0.09375)
    {
      AnyEdgeSweepsNarrowed(w, a, b, t, c, s);
    }
  }

  // ---------------------------------------------------------------------
  // Where shapes leave their cells
  // ---------------------------------------------------------------------

  /** A search that starts on free ground and whose goal, which has a carpet in it, lies
      among carpets on fences. */
  ghost predicate TowardsCarpets(q: Query) {
    && q.world == CarpetedFences() && q.origin == ON_GROUND
    && q.AtGoal(ON_CARPET) && (forall p | q.AtGoal(p) :: p.x >= 1.0)
    && !q.dangerous(ON_CARPET) && LocalEdgeKey(ON_GROUND, ON_CARPET) !in q.blocked
  }

  lemma CarpetColumn()
    ensures (ON_CARPET.x, ON_CARPET.z) in Columns(ON_GROUND)
  {
    assert Columns(ON_GROUND)[0] == (1.5, 0.5);
  }

  lemma CarpetIsSurface()
    ensures IsSurface(CarpetedFences(), ON_CARPET.x, ON_CARPET.z, ON_GROUND.y, ON_CARPET)
  {
    CarpetIsClear(ON_CARPET);
    var c := Cell(1, 64, 0);
    assert CARPET in CarpetedFences()(c).value.shapes;
    assert HasTop(CarpetedFences()(c), c, 1.5, 0.5, 64.0625);
    assert IsSurfaceOf(CarpetedFences(), 1.5, 0.5, 64.0, 64, ON_CARPET);
  }

  /** There is a route: one step onto the carpet. */
  lemma CarpetIsReachable(q: Query)
    requires TowardsCarpets(q)
    ensures q.Graph().Path([ON_GROUND, ON_CARPET]) && !NoRoute(q.Graph())
  {
    TallShapeIsMissed();
    CarpetIsSurface();
    CarpetColumn();
    hide CarpetedFences, EdgeClear, SweepClear, IsSurface, Columns;
    assert q.Edge(ON_GROUND, ON_CARPET);
    assert q.Graph().Path([ON_GROUND, ON_CARPET]) && q.Graph().goal(ON_CARPET);
  }

  /** The only surfaces among the fences are the carpets. */
  lemma OnlyCarpets(nearY: real, p: Point)
    requires p.x >= 1.0 && IsSurface(CarpetedFences(), p.x, p.z, nearY, p)
    ensures p.y == 64.0625
  {
    var y :| nearY.Floor - 2 <= y <= nearY.Floor + 1 && IsSurfaceOf(CarpetedFences(), p.x, p.z, nearY, y, p);
    assert HasTop(CarpetedFences()(Cell(p.x.Floor, y, p.z.Floor)), Cell(p.x.Floor, y, p.z.Floor), p.x, p.z, p.y);
  }

  /** So any step to there ends inside a fence. */
  lemma StepMeetsFence(q: Query, p: Point, r: Point)
    requires q.world == CarpetedFences() && q.Edge(p, r) && r.x >= 1.0
    ensures Collides(q.world, r) && !SweepClear(q.world, p, r)
  {
    hide CarpetedFences, EdgeClear, IsSurface, Columns, Collides;
    StepsEndCentred(q, p, r);
    OnlyCarpets(p.y, r);
    FenceIsMet(r);
    CarriesTo(q.world, p, r);
  }

  lemma CarriesTo(w: World, p: Point, r: Point)
    requires EdgeClear(w, p, r)
    ensures SweepClear(w, p, r) ==> !Collides(w, r)
  {
    TravelHeightBounded(p, r);
    assert Passes(p, r, r);
  }

  /** Main result: the search itself walks into fences. Towards a goal among the carpets it finds
      a plan unless it hits a limit, and every plan that reaches the goal ends in a step to
      a place where the body stands in a fence. */
  method PlanOverCarpets(terrain: LocalTerrain, q: Query, late: nat -> bool) returns (plan: LocalPlan)
    requires terrain.Valid() && terrain.world == q.world && TowardsCarpets(q)
    modifies terrain
    ensures !terrain.exhausted && plan.expanded < MAX_NODES && (forall k: nat :: !late(k)) ==> plan.reached
    ensures plan.reached ==> plan.path != [] && Collides(q.world, End(q, plan))
    ensures plan.reached ==>
      var ps := [q.origin] + plan.path;
      !SweepClear(q.world, ps[|ps| - 2], ps[|ps| - 1])
  {
    hide CarpetedFences, EdgeClear, IsSurface, Columns, SweepClear, Collides, NoRepeat, Cheapest, Square, LocalEdgeKey;
    CarpetIsReachable(q);
    plan := PlanLocalRoute(terrain, q, late);
    if plan.reached {
      LastStepMeetsFence(q, plan);
    }
  }

  lemma LastStepMeetsFence(q: Query, plan: LocalPlan)
    requires TowardsCarpets(q) && SoundPlan(q, plan) && q.AtGoal(End(q, plan))
    ensures plan.path != [] && Collides(q.world, End(q, plan))
    ensures var ps := [q.origin] + plan.path;
      !SweepClear(q.world, ps[|ps| - 2], ps[|ps| - 1])
  {
    hide CarpetedFences, EdgeClear, IsSurface, Columns, SweepClear, Collides, NoRepeat, LocalEdgeKey;
    assert End(q, plan).x >= 1.0;
    var ps := [q.origin] + plan.path;
    assert q.Graph().edge(ps[|ps| - 2], ps[|ps| - 1]);
    assert q.Edge(ps[|ps| - 2], ps[|ps| - 1]);
    StepMeetsFence(q, ps[|ps| - 2], ps[|ps| - 1]);
  }
}

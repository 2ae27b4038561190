/** The A* search over observed ground: lazy deletion, a penalty for cells already
    visited, a stop distance, a cap on expansions and a frontier to fall back on. */
module RouteSearch {
  import opened Geometry
  import opened Options
  import opened ReadBudget
  import opened ShortestPath
  import opened Terrain

  const RADIUS := 12.0
  const MAX_RISE := 6.0
  const MAX_NODES: nat := 2048

  /** Everything that is fixed for the duration of one search. */
  datatype Query = Query(world: World, origin: Point, target: Point, stop: real,
                         blocked: set<EdgeKey>, visits: map<CellKey, nat>, dangerous: Point -> bool,
                         dist: Metric)
  {
    function Penalty(p: Point): real {
      if Key(p) in visits then 2.0 * visits[Key(p)] as real else 0.0
    }

    function Step(p: Point, r: Point): real {
      dist(p, r) + Penalty(r)
    }

    function Rest(p: Point): real {
      Max(0.0, dist(p, target) - stop)
    }

    predicate AtGoal(p: Point) {
      dist(p, target) <= stop
    }

    function Progress(p: Point): real {
      dist(p, target) + Penalty(p)
    }

    predicate OnFrontier(p: Point) {
      Abs(p.x - origin.x) >= RADIUS - 1.0 || Abs(p.z - origin.z) >= RADIUS - 1.0
    }

    predicate InRange(x: real, z: real) {
      Abs(x - origin.x) <= RADIUS && Abs(z - origin.z) <= RADIUS
    }

    predicate Allowed(p: Point, r: Point) {
      Abs(r.y - origin.y) <= MAX_RISE && !dangerous(r) && LocalEdgeKey(p, r) !in blocked
    }

    /** One admissible step: to a surface of a neighbouring column, within the search
        range, neither dangerous nor blocked, with a clear way across. */
    ghost predicate Edge(p: Point, r: Point) {
      && (r.x, r.z) in Columns(p)
      && InRange(r.x, r.z)
      && IsSurface(world, r.x, r.z, p.y, r)
      && Allowed(p, r)
      && EdgeClear(world, p, r)
    }

    ghost function Graph(): Problem {
      Problem(origin, (p, r) => Edge(p, r), (p, r) => Step(p, r), p => Rest(p), p => AtGoal(p))
    }
  }

  /** The four neighbouring columns and, for a point off the centre of its cell, its own centre first. */
  function Columns(p: Point): seq<(real, real)> {
    var cx, cz := p.x.Floor as real + 0.5, p.z.Floor as real + 0.5;
    var around := [(cx + 1.0, cz), (cx - 1.0, cz), (cx, cz + 1.0), (cx, cz - 1.0)];
    if HorizontalSquared(p.x, p.z, cx, cz) > Square(0.05) then [(cx, cz)] + around else around
  }

  datatype LocalPlan = LocalPlan(path: seq<Point>, reached: bool, expanded: nat, unknown: bool, frontierCandidates: nat)

  /** The triangle inequality makes the distance left, less the stop distance, a consistent estimate. */
  lemma EstimateIsConsistent(q: Query)
    ensures q.Graph().Consistent()
  {
    assert IsMetric(q.dist);
    forall p, r
      ensures q.Rest(p) <= q.Step(p, r) + q.Rest(r)
    {
      assert q.dist(p, q.target) <= q.dist(p, r) + q.dist(r, q.target);
    }
  }

  // ---------------------------------------------------------------------
  // Expanding a node
  // ---------------------------------------------------------------------

  /** r is scored no higher than through node. */
  ghost predicate Settled(g: Problem, scores: map<Point, real>, node: Node, r: Point) {
    r in scores && scores[r] <= node.g + g.step(node.p, r)
  }

  /** What a relaxation leaves intact. */
  ghost predicate Relaxed(g: Problem, node: Node, open: seq<Node>, scores: map<Point, real>,
                          open': seq<Node>, scores': map<Point, real>)
  {
    && Grown(open, scores, open', scores') && AllGood(g, open', scores')
    && Good(g, node, scores') && node.p in scores && scores'[node.p] == scores[node.p]
    && (forall n | n in open' && n !in open :: n.parent.Some?)
    && (forall n | n in open' && n !in open && n.p in scores :: n.g < scores[n.p])
    && (Distinct(open) ==> Distinct(open'))
  }

  lemma NothingRelaxed(g: Problem, node: Node, open: seq<Node>, scores: map<Point, real>)
    requires Good(g, node, scores) && AllGood(g, open, scores)
    ensures Relaxed(g, node, open, scores, open, scores)
  {
  }

  lemma RelaxedTransitive(g: Problem, node: Node, open0: seq<Node>, scores0: map<Point, real>,
                          open1: seq<Node>, scores1: map<Point, real>, open2: seq<Node>, scores2: map<Point, real>)
    requires Relaxed(g, node, open0, scores0, open1, scores1)
    requires Relaxed(g, node, open1, scores1, open2, scores2)
    ensures Relaxed(g, node, open0, scores0, open2, scores2)
    ensures Good(g, node, scores2) && AllGood(g, open2, scores2)
    ensures forall r | Settled(g, scores1, node, r) :: Settled(g, scores2, node, r)
  {
    GrownTransitive(open0, scores0, open1, scores1, open2, scores2);
  }

  lemma NewNodeIsGood(g: Problem, node: Node, n: Node, open: seq<Node>, scores: map<Point, real>)
    requires g.Consistent() && Good(g, node, scores) && AllGood(g, open, scores)
    requires g.edge(node.p, n.p) && n.parent == Some(node)
    requires n.g == node.g + g.step(node.p, n.p) && n.f == n.g + g.rest(n.p)
    requires n.p in scores ==> n.g < scores[n.p]
    ensures Relaxed(g, node, open, scores, open + [n], scores[n.p := n.g])
  {
    hide Distinct;
    var scores' := scores[n.p := n.g];
    TrailScores(g, node, scores);
    assert n.p !in Trail(node);
    assert node.p == Trail(node)[|Trail(node)| - 1];
    StillScored(node, scores, scores');
    AllStillGood(g, open, scores, scores');
    StaysDistinct(g, open, scores, n);
    assert n in open + [n];
  }

  /** An entry that lowers the score of its point differs from every older one. */
  lemma StaysDistinct(g: Problem, open: seq<Node>, scores: map<Point, real>, n: Node)
    requires AllGood(g, open, scores) && (n.p in scores ==> n.g < scores[n.p])
    ensures Distinct(open) ==> Distinct(open + [n])
  {
    hide Sound, NoRepeat;
    forall i | 0 <= i < |open|
      ensures open[i].p == n.p ==> open[i].g != n.g
    {
      assert Good(g, open[i], scores);
    }
  }

  /** r is a place the search may look at from p; Edge adds that the step is allowed and clear. */
  ghost predicate Offered(q: Query, p: Point, r: Point) {
    (r.x, r.z) in Columns(p) && q.InRange(r.x, r.z) && IsSurface(q.world, r.x, r.z, p.y, r)
  }

  lemma StepIsReachable(q: Query, p: Point, r: Point)
    requires Offered(q, p, r) && q.Allowed(p, r)
    ensures Reachable(q.origin, r)
  {
    hide IsSurface, Columns, LocalEdgeKey;
  }

  /** The step from node to r, if it is admissible and cheaper than what is known. */
  method Relax(terrain: LocalTerrain, q: Query, node: Node, r: Point, open: seq<Node>, scores: map<Point, real>)
    returns (open': seq<Node>, scores': map<Point, real>)
    requires terrain.Valid() && terrain.world == q.world
    requires Good(q.Graph(), node, scores) && AllGood(q.Graph(), open, scores)
    requires Offered(q, node.p, r) && Reachable(q.origin, node.p)
    modifies terrain
    ensures old(terrain.Inside(SearchCells(q.origin))) ==> terrain.Inside(SearchCells(q.origin))
    ensures terrain.Valid() && (old(terrain.exhausted) ==> terrain.exhausted)
    ensures Relaxed(q.Graph(), node, open, scores, open', scores')
    ensures terrain.exhausted || !q.Edge(node.p, r) || Settled(q.Graph(), scores', node, r)
  {
    open', scores' := open, scores;
    NothingRelaxed(q.Graph(), node, open, scores);
    if !q.Allowed(node.p, r) {
      return;
    }
    StepIsReachable(q, node.p, r);
    EdgeIsInside(q.origin, node.p, r);
    hide LocalTerrain.Valid, EdgeCells, SearchCells, Cells.Has, Reachable, Query.Allowed, Relaxed, AllGood, Good;
    hide IsSurface, Columns, EdgeClear, Query.InRange;
    var clear := terrain.CheckEdge(node.p, r);
    if !clear {
      return;
    }
    var g := node.g + q.dist(node.p, r) + q.Penalty(r);
    if r in scores && g >= scores[r] {
      return;
    }
    scores' := scores[r := g];
    open' := open + [Node(r, g, g + q.Rest(r), Some(node))];
    EstimateIsConsistent(q);
    NewNodeIsGood(q.Graph(), node, Node(r, g, g + q.Rest(r), Some(node)), open, scores);
  }

  /** All admissible steps from node into the column (x, z) are settled. */
  ghost predicate ColumnSettled(q: Query, scores: map<Point, real>, node: Node, x: real, z: real) {
    forall r | q.Edge(node.p, r) && r.x == x && r.z == z :: Settled(q.Graph(), scores, node, r)
  }

  method RelaxAll(terrain: LocalTerrain, q: Query, node: Node, surfaces: seq<Point>, open: seq<Node>,
                  scores: map<Point, real>)
    returns (open': seq<Node>, scores': map<Point, real>)
    requires terrain.Valid() && terrain.world == q.world
    requires Good(q.Graph(), node, scores) && AllGood(q.Graph(), open, scores)
    requires (forall r | r in surfaces :: Offered(q, node.p, r)) && Reachable(q.origin, node.p)
    modifies terrain
    ensures old(terrain.Inside(SearchCells(q.origin))) ==> terrain.Inside(SearchCells(q.origin))
    ensures terrain.Valid() && (old(terrain.exhausted) ==> terrain.exhausted)
    ensures Relaxed(q.Graph(), node, open, scores, open', scores')
    ensures terrain.exhausted || forall r | r in surfaces && q.Edge(node.p, r) :: Settled(q.Graph(), scores', node, r)
  {
    hide *;
    open', scores' := open, scores;
    NothingRelaxed(q.Graph(), node, open, scores);
    for i := 0 to |surfaces|
      invariant old(terrain.Inside(SearchCells(q.origin))) ==> terrain.Inside(SearchCells(q.origin))
      invariant terrain.Valid() && (old(terrain.exhausted) ==> terrain.exhausted)
      invariant Relaxed(q.Graph(), node, open, scores, open', scores')
      invariant Good(q.Graph(), node, scores') && AllGood(q.Graph(), open', scores')
      invariant terrain.exhausted || forall r | r in surfaces[..i] && q.Edge(node.p, r) ::
        Settled(q.Graph(), scores', node, r)
    {
      ghost var o, s := open', scores';
      open', scores' := Relax(terrain, q, node, surfaces[i], open', scores');
      RelaxedTransitive(q.Graph(), node, open, scores, o, s, open', scores');
    }
  }

  lemma OnlySurfacesAreOffered(q: Query, p: Point, x: real, z: real, surfaces: seq<Point>)
    requires (x, z) in Columns(p) && q.InRange(x, z)
    requires forall r | r in surfaces :: IsSurface(q.world, x, z, p.y, r)
    ensures forall r | r in surfaces :: Offered(q, p, r)
  {
  }

  lemma EdgesAreSurfaces(q: Query, p: Point, x: real, z: real, surfaces: seq<Point>)
    requires forall r | IsSurface(q.world, x, z, p.y, r) :: r in surfaces
    ensures forall r | q.Edge(p, r) && r.x == x && r.z == z :: r in surfaces
  {
  }

  method RelaxColumn(terrain: LocalTerrain, q: Query, node: Node, x: real, z: real, open: seq<Node>,
                     scores: map<Point, real>)
    returns (open': seq<Node>, scores': map<Point, real>)
    requires terrain.Valid() && terrain.world == q.world
    requires Good(q.Graph(), node, scores) && AllGood(q.Graph(), open, scores) && (x, z) in Columns(node.p)
    requires Reachable(q.origin, node.p)
    modifies terrain
    ensures old(terrain.Inside(SearchCells(q.origin))) ==> terrain.Inside(SearchCells(q.origin))
    ensures terrain.Valid() && (old(terrain.exhausted) ==> terrain.exhausted)
    ensures Relaxed(q.Graph(), node, open, scores, open', scores')
    ensures terrain.exhausted || ColumnSettled(q, scores', node, x, z)
  {
    open', scores' := open, scores;
    if !q.InRange(x, z) {
      return;
    }
    SurfacesAreInside(q.origin, x, z, node.p.y);
    var surfaces := terrain.Surfaces(x, z, node.p.y);
    OnlySurfacesAreOffered(q, node.p, x, z, surfaces);
    if !terrain.exhausted {
      EdgesAreSurfaces(q, node.p, x, z, surfaces);
    }
    open', scores' := RelaxAll(terrain, q, node, surfaces, open', scores');
  }

  /** The steps out of one node, column by column. */
  method Expand(terrain: LocalTerrain, q: Query, node: Node, open: seq<Node>, scores: map<Point, real>)
    returns (open': seq<Node>, scores': map<Point, real>)
    requires terrain.Valid() && terrain.world == q.world
    requires Good(q.Graph(), node, scores) && AllGood(q.Graph(), open, scores)
    requires Reachable(q.origin, node.p)
    modifies terrain
    ensures old(terrain.Inside(SearchCells(q.origin))) ==> terrain.Inside(SearchCells(q.origin))
    ensures terrain.Valid() && (old(terrain.exhausted) ==> terrain.exhausted)
    ensures Relaxed(q.Graph(), node, open, scores, open', scores')
    ensures terrain.exhausted || forall r | q.Edge(node.p, r) :: Settled(q.Graph(), scores', node, r)
  {
    hide *;
    open', scores' := open, scores;
    NothingRelaxed(q.Graph(), node, open, scores);
    var columns := Columns(node.p);
    for i := 0 to |columns|
      invariant old(terrain.Inside(SearchCells(q.origin))) ==> terrain.Inside(SearchCells(q.origin))
      invariant terrain.Valid() && (old(terrain.exhausted) ==> terrain.exhausted)
      invariant Relaxed(q.Graph(), node, open, scores, open', scores')
      invariant Good(q.Graph(), node, scores') && AllGood(q.Graph(), open', scores')
      invariant terrain.exhausted || forall j | 0 <= j < i ::
        ColumnSettled(q, scores', node, columns[j].0, columns[j].1)
    {
      ghost var o, s := open', scores';
      open', scores' := RelaxColumn(terrain, q, node, columns[i].0, columns[i].1, open', scores');
      RelaxedTransitive(q.Graph(), node, open, scores, o, s, open', scores');
      ColumnsStaySettled(q, node, s, scores', columns[..i]);
    }
    if !terrain.exhausted {
      ColumnsCoverEdges(q, node, scores');
    }
  }

  lemma ColumnsStaySettled(q: Query, node: Node, before: map<Point, real>, after: map<Point, real>,
                           columns: seq<(real, real)>)
    requires forall r | Settled(q.Graph(), before, node, r) :: Settled(q.Graph(), after, node, r)
    ensures forall c | c in columns && ColumnSettled(q, before, node, c.0, c.1) ::
      ColumnSettled(q, after, node, c.0, c.1)
  {
    hide *;
    forall c | c in columns && ColumnSettled(q, before, node, c.0, c.1)
      ensures ColumnSettled(q, after, node, c.0, c.1)
    {
      ColumnStaysSettled(q, node, before, after, c.0, c.1);
    }
  }

  lemma ColumnStaysSettled(q: Query, node: Node, before: map<Point, real>, after: map<Point, real>, x: real, z: real)
    requires forall r | Settled(q.Graph(), before, node, r) :: Settled(q.Graph(), after, node, r)
    requires ColumnSettled(q, before, node, x, z)
    ensures ColumnSettled(q, after, node, x, z)
  {
    hide Query.Edge, Query.Graph, Settled;
  }

  lemma ColumnsCoverEdges(q: Query, node: Node, scores: map<Point, real>)
    requires forall j | 0 <= j < |Columns(node.p)| ::
      ColumnSettled(q, scores, node, Columns(node.p)[j].0, Columns(node.p)[j].1)
    ensures forall r | q.Edge(node.p, r) :: Settled(q.Graph(), scores, node, r)
  {
    hide IsSurface, EdgeClear, Settled, Query.Graph, Columns, Query.InRange, Query.Allowed;
    forall r | q.Edge(node.p, r)
      ensures Settled(q.Graph(), scores, node, r)
    {
      var j :| 0 <= j < |Columns(node.p)| && Columns(node.p)[j] == (r.x, r.z);
      assert ColumnSettled(q, scores, node, Columns(node.p)[j].0, Columns(node.p)[j].1);
    }
  }

  // ---------------------------------------------------------------------
  // The search loop
  // ---------------------------------------------------------------------

  function Without(open: seq<Node>, i: nat): (rest: seq<Node>)
    requires i < |open|
    ensures |rest| == |open| - 1
  {
    open[..i] + open[i + 1..]
  }

  /** The start node, whose estimate ignores the stop distance, is only ever open on its own. */
  ghost predicate Seeded(open: seq<Node>) {
    forall n | n in open && n.parent.None? :: open == [n]
  }

  /** What the search keeps from one iteration to the next, as long as every read was answered. */
  ghost predicate Searching(g: Problem, open: seq<Node>, scores: map<Point, real>, closed: set<Point>,
                            exhausted: bool) {
    AllGood(g, open, scores) && Seeded(open) && (exhausted || Covered(g, open, scores, closed))
  }

  /** The fallback: the start, or a point on the frontier that makes progress. */
  ghost predicate Fallback(q: Query, n: Node, scores: map<Point, real>) {
    && Good(q.Graph(), n, scores)
    && (n.parent.None? || (q.OnFrontier(n.p) && q.Progress(n.p) < q.Progress(q.origin)))
  }

  method SelectLeast(open: seq<Node>) returns (index: nat)
    requires |open| > 0
    ensures index < |open| && LeastEstimate(open, open[index])
    ensures forall i | 0 <= i < index :: open[index].f < open[i].f
  {
    index := 0;
    for i := 1 to |open|
      invariant index < i
      invariant forall j | 0 <= j < i :: open[index].f <= open[j].f
      invariant forall j | 0 <= j < index :: open[index].f < open[j].f
    {
      if open[i].f < open[index].f {
        index := i;
      }
    }
  }

  lemma SearchStarts(q: Query, f: real)
    ensures var start := Node(q.origin, 0.0, f, None);
      && Searching(q.Graph(), [start], map[q.origin := 0.0], {}, false)
      && Good(q.Graph(), start, map[q.origin := 0.0])
  {
    var start := Node(q.origin, 0.0, f, None);
    assert start in [start];
  }

  lemma StaleIsDropped(g: Problem, open: seq<Node>, scores: map<Point, real>, closed: set<Point>, exhausted: bool,
                       i: nat)
    requires Searching(g, open, scores, closed, exhausted) && i < |open|
    requires open[i].p !in scores || open[i].g != scores[open[i].p]
    ensures Searching(g, Without(open, i), scores, closed, exhausted)
  {
    var rest := Without(open, i);
    forall p | p in scores && Current(open, scores, p)
      ensures Current(rest, scores, p)
    {
      var n :| n in open && n.p == p && n.g == scores[p];
      assert n in rest;
    }
  }

  lemma OpenNodeIsGood(g: Problem, open: seq<Node>, scores: map<Point, real>, closed: set<Point>, exhausted: bool,
                       i: nat)
    requires Searching(g, open, scores, closed, exhausted) && i < |open|
    ensures Good(g, open[i], scores) && AllGood(g, Without(open, i), scores) && open[i].p in scores
  {
    assert open[i] in open;
  }

  /** Popping a current node and relaxing its steps moves it, and nothing else, to the closed points. */
  lemma ExpansionCovers(g: Problem, open: seq<Node>, scores: map<Point, real>, closed: set<Point>, i: nat,
                        open': seq<Node>, scores': map<Point, real>)
    requires Covered(g, open, scores, closed) && i < |open|
    requires open[i].p in scores && open[i].g == scores[open[i].p] && !g.goal(open[i].p)
    requires Relaxed(g, open[i], Without(open, i), scores, open', scores')
    requires forall r | g.edge(open[i].p, r) :: Settled(g, scores', open[i], r)
    ensures Covered(g, open', scores', StillClosed(closed, scores, scores') + {open[i].p})
  {
    var rest, node := Without(open, i), open[i];
    var closed' := StillClosed(closed, scores, scores') + {node.p};
    forall p | p in closed'
      ensures Expanded(g, scores', p)
    {
      if p != node.p {
        assert Expanded(g, scores, p);
      }
    }
    forall p | p in scores'
      ensures p in closed' || Current(open', scores', p)
    {
      if p in scores && scores'[p] == scores[p] && p !in closed' {
        var n :| n in open && n.p == p && n.g == scores[p];
        assert n in rest && n in open';
      }
    }
  }

  ghost function StillClosed(closed: set<Point>, before: map<Point, real>, after: map<Point, real>): set<Point> {
    set p | p in closed && p in before && p in after && after[p] == before[p]
  }

  lemma ExpansionSeeds(g: Problem, open: seq<Node>, scores: map<Point, real>, i: nat, open': seq<Node>,
                       scores': map<Point, real>)
    requires Seeded(open) && i < |open|
    requires Relaxed(g, open[i], Without(open, i), scores, open', scores')
    ensures Seeded(open')
  {
    forall n | n in open'
      ensures n.parent.Some?
    {
      if n in Without(open, i) {
        assert n in open;
      }
    }
  }

  /** One expansion keeps the search invariant, whether or not the reads ran out during it. */
  lemma ExpansionKeeps(g: Problem, open: seq<Node>, scores: map<Point, real>, closed: set<Point>, i: nat,
                       open': seq<Node>, scores': map<Point, real>, exhausted: bool)
    requires Searching(g, open, scores, closed, false) && i < |open|
    requires open[i].p in scores && open[i].g == scores[open[i].p] && !g.goal(open[i].p)
    requires Relaxed(g, open[i], Without(open, i), scores, open', scores')
    requires exhausted || forall r | g.edge(open[i].p, r) :: Settled(g, scores', open[i], r)
    ensures Searching(g, open', scores', StillClosed(closed, scores, scores') + {open[i].p}, exhausted)
  {
    ExpansionSeeds(g, open, scores, i, open', scores');
    if !exhausted {
      ExpansionCovers(g, open, scores, closed, i, open', scores');
    }
  }

  lemma RelaxedKeepsGood(g: Problem, node: Node, open: seq<Node>, scores: map<Point, real>,
                         open': seq<Node>, scores': map<Point, real>, n: Node)
    requires Relaxed(g, node, open, scores, open', scores') && Good(g, n, scores)
    ensures Good(g, n, scores')
  {
    StillScored(n, scores, scores');
  }

  /** A node of the search stands at the origin or within the range of the search. */
  lemma NodeIsReachable(q: Query, node: Node, scores: map<Point, real>)
    requires Good(q.Graph(), node, scores)
    ensures Reachable(q.origin, node.p)
  {
    hide IsSurface, EdgeClear, LocalEdgeKey, Columns;
    if node.parent.Some? {
      assert q.Graph().edge(node.parent.value.p, node.p);
      assert q.Edge(node.parent.value.p, node.p);
    }
  }

  lemma NodeIsReached(g: Problem, node: Node, scores: map<Point, real>)
    requires g.Consistent() && Good(g, node, scores)
    ensures Reaches(g, node.p)
    ensures forall cost | CheapestTo(g, node.p, cost) :: cost <= node.g
  {
    SoundTrail(g, node);
  }

  lemma NothingExpanded(g: Problem, node: Node, scores: map<Point, real>)
    ensures ExpandedOnce(g, [node], scores, {})
  {
  }

  lemma StaleLeavesExpanded(g: Problem, open: seq<Node>, scores: map<Point, real>, closed: set<Point>, i: nat)
    requires ExpandedOnce(g, open, scores, closed) && i < |open|
    ensures ExpandedOnce(g, Without(open, i), scores, closed)
  {
  }

  /** A node that is taken out at its current score was not expanded before. */
  lemma PoppedIsNew(g: Problem, open: seq<Node>, scores: map<Point, real>, closed: set<Point>, i: nat)
    requires ExpandedOnce(g, open, scores, closed) && i < |open|
    requires open[i].p in scores && open[i].g == scores[open[i].p]
    ensures open[i].p !in closed && !Current(Without(open, i), scores, open[i].p)
  {
    assert open[i] in open;
  }

  /** Relaxing steps changes no score of an expanded point, and opens none of them again. */
  lemma RelaxedLeavesExpanded(g: Problem, node: Node, open: seq<Node>, scores: map<Point, real>, closed: set<Point>,
                              open': seq<Node>, scores': map<Point, real>)
    requires g.Consistent() && ExpandedOnce(g, open, scores, closed)
    requires Relaxed(g, node, open, scores, open', scores')
    ensures ExpandedOnce(g, open', scores', closed)
    ensures StillClosed(closed, scores, scores') == closed
  {
    forall p | p in closed
      ensures p in scores' && scores'[p] == scores[p] && !Current(open', scores', p)
    {
      forall n | n in open' && n.p == p
        ensures n in open && n.g != scores[p] && scores[p] <= n.g
      {
        NodeIsReached(g, n, scores');
      }
    }
  }

  /** One expansion adds exactly its point to those expanded. */
  lemma ExpansionAddsOne(q: Query, open: seq<Node>, scores: map<Point, real>, closed: set<Point>, i: nat,
                         open': seq<Node>, scores': map<Point, real>)
    requires Searching(q.Graph(), open, scores, closed, false) && ExpandedOnce(q.Graph(), open, scores, closed)
    requires i < |open| && LeastEstimate(open, open[i])
    requires open[i].p in scores && open[i].g == scores[open[i].p]
    requires Relaxed(q.Graph(), open[i], Without(open, i), scores, open', scores')
    ensures ExpandedOnce(q.Graph(), open', scores', closed + {open[i].p})
    ensures StillClosed(closed, scores, scores') == closed
  {
    var g, node, rest := q.Graph(), open[i], Without(open, i);
    PoppedOnce(q, open, scores, closed, i);
    EstimateIsConsistent(q);
    hide Query.Edge, Query.Graph, Relaxed, Searching, ExpandedOnce;
    RelaxedLeavesExpanded(g, node, rest, scores, closed + {node.p}, open', scores');
    StillClosedPart(closed, node.p, scores, scores');
  }

  lemma StillClosedPart(closed: set<Point>, p: Point, before: map<Point, real>, after: map<Point, real>)
    requires StillClosed(closed + {p}, before, after) == closed + {p}
    ensures StillClosed(closed, before, after) == closed
  {
    forall r | r in closed
      ensures r in StillClosed(closed, before, after)
    {
      assert r in StillClosed(closed + {p}, before, after);
    }
  }

  lemma PoppedOnce(q: Query, open: seq<Node>, scores: map<Point, real>, closed: set<Point>, i: nat)
    requires Searching(q.Graph(), open, scores, closed, false) && ExpandedOnce(q.Graph(), open, scores, closed)
    requires i < |open| && LeastEstimate(open, open[i])
    requires open[i].p in scores && open[i].g == scores[open[i].p]
    ensures ExpandedOnce(q.Graph(), Without(open, i), scores, closed + {open[i].p})
    ensures open[i].p !in closed && Reaches(q.Graph(), open[i].p)
  {
    hide Query.Edge, Query.Graph;
    var g, node := q.Graph(), open[i];
    EstimateIsConsistent(q);
    PoppedIsNew(g, open, scores, closed, i);
    StaleLeavesExpanded(g, open, scores, closed, i);
    assert node in open;
    NodeIsReached(g, node, scores);
    PoppedIsCheapest(g, open, scores, closed, node);
  }

  /** What a plan promises about its path: it starts at the origin, every step is admissible,
      no point is visited twice. */
  ghost predicate SoundPlan(q: Query, plan: LocalPlan) {
    && q.Graph().Path([q.origin] + plan.path) && NoRepeat([q.origin] + plan.path)
    && plan.frontierCandidates <= plan.expanded <= MAX_NODES
  }

  /** The end of the path, the origin if it is empty. */
  function End(q: Query, plan: LocalPlan): Point {
    if plan.path == [] then q.origin else plan.path[|plan.path| - 1]
  }

  /** A plan that reaches the goal region has the cheapest path of all. */
  ghost predicate OptimalPlan(q: Query, plan: LocalPlan) {
    && q.AtGoal(End(q, plan))
    && Cheapest(q.Graph(), q.Graph().Cost([q.origin] + plan.path))
  }

  /** A plan that does not reach it stays put or ends on the frontier, closer than it started. */
  ghost predicate FrontierPlan(q: Query, plan: LocalPlan) {
    plan.path == [] || (q.OnFrontier(End(q, plan)) && q.Progress(End(q, plan)) < q.Progress(q.origin))
  }

  /** No frontier point that can be reached at all makes more progress than the end of the path. */
  ghost predicate BestFrontierPlan(q: Query, plan: LocalPlan) {
    forall ps | q.Graph().Path(ps) && q.OnFrontier(ps[|ps| - 1]) :: q.Progress(End(q, plan)) <= q.Progress(ps[|ps| - 1])
  }

  /** Of the expanded frontier points none makes more progress than best. */
  ghost predicate NoneBetter(q: Query, best: Point, closed: set<Point>) {
    forall p | p in closed && q.OnFrontier(p) :: q.Progress(best) <= q.Progress(p)
  }

  lemma NoneBetterYet(q: Query)
    ensures NoneBetter(q, q.origin, {})
  {
  }

  lemma PlanCounts(q: Query, plan: LocalPlan, closed: set<Point>, best: Point)
    requires Counted(q, closed, plan.expanded, plan.frontierCandidates)
    requires best == End(q, plan)
    requires plan.path != [] || plan.reached ==> best in closed
    requires !plan.reached ==> NoneBetter(q, best, closed)
    ensures Counts(q, plan, closed)
  {
  }

  lemma NoneBetterAtAll(q: Query, scores: map<Point, real>, closed: set<Point>, best: Point, plan: LocalPlan)
    requires Searching(q.Graph(), [], scores, closed, false) && NoneBetter(q, best, closed) && best == End(q, plan)
    ensures BestFrontierPlan(q, plan)
  {
    hide Query.Edge, Query.Graph, Query.OnFrontier, Query.Progress, Covered;
    NothingOpenMeansAllClosed(q.Graph(), scores, closed);
  }

  ghost function FrontierOf(q: Query, s: set<Point>): set<Point> {
    set p | p in s && q.OnFrontier(p)
  }

  /** What the numbers of a plan count. s holds the points that were expanded: each was reached and
      counted once, and the end of the path is the best of them, or the origin. */
  ghost predicate Counts(q: Query, plan: LocalPlan, s: set<Point>) {
    && |s| == plan.expanded && (forall p | p in s :: Reaches(q.Graph(), p))
    && |FrontierOf(q, s)| == plan.frontierCandidates
    && (plan.path != [] || plan.reached ==> End(q, plan) in s)
    && (!plan.reached ==> NoneBetter(q, End(q, plan), s))
  }

  /** All points that a path leads to are among these. */
  ghost predicate Within(q: Query, r: set<Point>) {
    forall p | Reaches(q.Graph(), p) :: p in r
  }

  lemma CountsFewer(q: Query, plan: LocalPlan, s: set<Point>)
    requires Counts(q, plan, s)
    ensures forall r | Within(q, r) :: plan.expanded <= |r|
  {
    hide Query.Graph, Query.OnFrontier, NoneBetter;
    forall r | Within(q, r)
      ensures plan.expanded <= |r|
    {
      Subset(s, r);
    }
  }

  lemma Subset(s: set<Point>, r: set<Point>)
    requires s <= r
    ensures |s| <= |r|
  {
    assert r == s + (r - s);
  }

  lemma CountOneMore(q: Query, s: set<Point>, p: Point)
    requires p !in s
    ensures |s + {p}| == |s| + 1
    ensures |FrontierOf(q, s + {p})| == |FrontierOf(q, s)| + if q.OnFrontier(p) then 1 else 0
  {
    hide Query.OnFrontier;
    assert FrontierOf(q, s + {p}) == FrontierOf(q, s) + if q.OnFrontier(p) then {p} else {};
  }

  /** The count as the search goes on: everything expanded so far is reached and counted. */
  ghost predicate Counted(q: Query, s: set<Point>, expanded: nat, frontierCandidates: nat) {
    |s| == expanded && |FrontierOf(q, s)| == frontierCandidates && forall p | p in s :: Reaches(q.Graph(), p)
  }

  lemma NothingCounted(q: Query)
    ensures Counted(q, {}, 0, 0)
  {
    assert FrontierOf(q, {}) == {};
  }

  lemma CountedOneMore(q: Query, s: set<Point>, p: Point, expanded: nat, frontierCandidates: nat)
    requires Counted(q, s, expanded, frontierCandidates) && p !in s && Reaches(q.Graph(), p)
    ensures Counted(q, s + {p}, expanded + 1, frontierCandidates + if q.OnFrontier(p) then 1 else 0)
  {
    hide Query.OnFrontier, Query.Graph;
    CountOneMore(q, s, p);
  }

  lemma NoneBetterWith(q: Query, best: Point, best': Point, p: Point, closed: set<Point>)
    requires NoneBetter(q, best, closed) && q.Progress(best') <= q.Progress(best)
    requires q.OnFrontier(p) ==> q.Progress(best') <= q.Progress(p)
    ensures NoneBetter(q, best', closed + {p})
  {
    hide Query.OnFrontier, Query.Progress;
  }

  lemma FallbackStarts(q: Query, start: Node, scores: map<Point, real>)
    requires Good(q.Graph(), start, scores) && start.parent.None?
    ensures Fallback(q, start, scores)
  {
  }

  lemma FallbackIsGood(q: Query, n: Node, scores: map<Point, real>)
    requires Fallback(q, n, scores)
    ensures Good(q.Graph(), n, scores)
  {
  }

  lemma SearchingWhenExhausted(g: Problem, open: seq<Node>, scores: map<Point, real>, closed: set<Point>,
                               exhausted: bool)
    requires Searching(g, open, scores, closed, false)
    ensures Searching(g, open, scores, closed, exhausted)
  {
  }

  lemma FallbackImproves(q: Query, best: Node, node: Node, scores: map<Point, real>)
    requires Fallback(q, best, scores) && Good(q.Graph(), node, scores)
    requires q.OnFrontier(node.p) && q.Progress(node.p) < q.Progress(best.p)
    ensures Fallback(q, node, scores)
  {
    assert best.parent.None? ==> best.p == q.origin;
  }

  lemma FallbackSurvives(q: Query, best: Node, node: Node, open: seq<Node>, scores: map<Point, real>,
                         open': seq<Node>, scores': map<Point, real>)
    requires Fallback(q, best, scores) && Relaxed(q.Graph(), node, open, scores, open', scores')
    ensures Fallback(q, best, scores')
  {
    hide Query.Edge, Query.Graph, Query.OnFrontier, Query.Progress, Relaxed, Good;
    RelaxedKeepsGood(q.Graph(), node, open, scores, open', scores', best);
  }

  lemma GoalFound(q: Query, open: seq<Node>, scores: map<Point, real>, closed: set<Point>, i: nat)
    requires Searching(q.Graph(), open, scores, closed, false) && i < |open|
    requires LeastEstimate(open, open[i]) && q.AtGoal(open[i].p)
    ensures Cheapest(q.Graph(), open[i].g)
  {
    hide Query.Edge, Cheapest, AllGood, Covered, LeastEstimate, Problem.Consistent, Query.AtGoal;
    EstimateIsConsistent(q);
    GoalIsCheapest(q.Graph(), open, scores, closed, open[i]);
  }

  /** The settled steps of an expanded node, in the terms of the graph. */
  lemma SettledInGraph(q: Query, node: Node, scores: map<Point, real>)
    requires forall r | q.Edge(node.p, r) :: Settled(q.Graph(), scores, node, r)
    ensures forall r | q.Graph().edge(node.p, r) :: Settled(q.Graph(), scores, node, r)
  {
    hide Query.Edge, Settled;
  }

  lemma GoalInGraph(q: Query, p: Point)
    ensures q.Graph().goal(p) == q.AtGoal(p)
  {
    hide Query.Edge, Query.AtGoal;
  }

  lemma NothingLeft(q: Query, scores: map<Point, real>, closed: set<Point>)
    requires Searching(q.Graph(), [], scores, closed, false)
    ensures NoRoute(q.Graph())
  {
    hide Query.Edge, Query.Graph, Covered, NoRoute;
    NothingOpenMeansNoRoute(q.Graph(), scores, closed);
  }

  /** A node without a parent is the origin. */
  lemma SoundStart(q: Query, node: Node)
    requires Sound(q.Graph(), node) && node.parent.None?
    ensures node.p == q.origin
  {
    hide Query.Edge;
  }

  /** Follows the parents back to the start. */
  method Unwind(ghost q: Query, node: Node, ghost scores: map<Point, real>) returns (path: seq<Point>)
    requires Good(q.Graph(), node, scores)
    ensures [q.origin] + path == Trail(node)
  {
    hide Query.Edge, Query.Graph, NoRepeat, Scored;
    path := [];
    var n := node;
    while n.parent.Some?
      invariant Sound(q.Graph(), n) && Trail(n) + path == Trail(node)
      decreases n
    {
      var parent := n.parent.value;
      assert Trail(n) + path == Trail(parent) + ([n.p] + path);
      path := [n.p] + path;
      n := parent;
    }
    SoundStart(q, n);
  }

  lemma TrailIsPlan(q: Query, node: Node, scores: map<Point, real>, path: seq<Point>)
    requires Good(q.Graph(), node, scores) && [q.origin] + path == Trail(node)
    ensures q.Graph().Path([q.origin] + path) && NoRepeat([q.origin] + path)
    ensures q.Graph().Cost([q.origin] + path) == node.g
    ensures node.p == if path == [] then q.origin else path[|path| - 1]
  {
    hide Query.Edge, Problem.Path, Problem.Cost, Sound, Scored, Problem.Consistent;
    EstimateIsConsistent(q);
    SoundTrail(q.Graph(), node);
  }

  lemma ReachedPlan(q: Query, node: Node, scores: map<Point, real>, plan: LocalPlan)
    requires Good(q.Graph(), node, scores) && [q.origin] + plan.path == Trail(node)
    requires plan.frontierCandidates <= plan.expanded <= MAX_NODES
    requires q.AtGoal(node.p) && Cheapest(q.Graph(), node.g)
    ensures SoundPlan(q, plan) && OptimalPlan(q, plan)
  {
    hide Query.Edge, Query.Graph, Good, NoRepeat, Cheapest, Query.AtGoal;
    TrailIsPlan(q, node, scores, plan.path);
  }

  lemma UnreachedPlan(q: Query, node: Node, scores: map<Point, real>, plan: LocalPlan)
    requires Fallback(q, node, scores) && [q.origin] + plan.path == Trail(node)
    requires plan.frontierCandidates <= plan.expanded <= MAX_NODES
    ensures SoundPlan(q, plan) && FrontierPlan(q, plan) && node.p == End(q, plan)
  {
    hide Query.Edge, Query.Graph, Good, NoRepeat, Query.OnFrontier, Query.Progress;
    TrailIsPlan(q, node, scores, plan.path);
    assert plan.path != [] ==> |Trail(node)| > 1;
  }

  /** The plan is empty only if its node is the start. */
  lemma OnlyStartIsEmpty(q: Query, node: Node, scores: map<Point, real>, path: seq<Point>)
    requires Good(q.Graph(), node, scores) && [q.origin] + path == Trail(node)
    ensures path == [] <==> node.parent.None?
  {
    hide Query.Edge, NoRepeat, Scored;
    if node.parent.Some? {
      assert |Trail(node)| == |Trail(node.parent.value)| + 1;
    }
  }

  /** With every look at the clock in time and the reads in reach, the search finds out whether there
      is a route, if what can be reached is less than the cap. */
  ghost predicate Decides(q: Query, plan: LocalPlan) {
    && (plan.expanded < MAX_NODES ==> (plan.reached <==> !NoRoute(q.Graph())))
    && (forall r | Within(q, r) && |r| < MAX_NODES :: plan.reached <==> !NoRoute(q.Graph()))
  }

  lemma DecidedPlan(q: Query, plan: LocalPlan, s: set<Point>)
    requires Counts(q, plan, s) && SoundPlan(q, plan)
    requires plan.reached ==> OptimalPlan(q, plan)
    requires !plan.reached && plan.expanded < MAX_NODES ==> NoRoute(q.Graph())
    ensures Decides(q, plan)
  {
    if plan.reached {
      ReachedIsRoute(q, plan);
    }
    hide Query.Graph, Query.Edge, Counts, SoundPlan, OptimalPlan, NoRoute, Within;
    CountsFewer(q, plan, s);
  }

  lemma ReachedIsRoute(q: Query, plan: LocalPlan)
    requires SoundPlan(q, plan) && OptimalPlan(q, plan)
    ensures !NoRoute(q.Graph())
  {
    hide Query.Edge, Query.AtGoal, NoRepeat, Cheapest;
    var ps := [q.origin] + plan.path;
    assert q.Graph().Path(ps) && q.Graph().goal(ps[|ps| - 1]);
  }

  lemma TrailEnds(q: Query, node: Node, plan: LocalPlan)
    requires [q.origin] + plan.path == Trail(node)
    ensures End(q, plan) == node.p
  {
    var ps := [q.origin] + plan.path;
    assert ps[|ps| - 1] == node.p;
  }

  /** What stands when the goal was popped. */
  lemma ReachedOutcome(q: Query, best: Node, scores: map<Point, real>, closed: set<Point>, plan: LocalPlan)
    requires Good(q.Graph(), best, scores) && [q.origin] + plan.path == Trail(best)
    requires plan.reached && q.AtGoal(best.p) && Cheapest(q.Graph(), best.g) && best.p in closed
    requires Counted(q, closed, plan.expanded, plan.frontierCandidates)
    requires plan.frontierCandidates <= plan.expanded <= MAX_NODES
    ensures SoundPlan(q, plan) && OptimalPlan(q, plan) && Counts(q, plan, closed) && Decides(q, plan)
  {
    hide *;
    ReachedPlan(q, best, scores, plan);
    TrailEnds(q, best, plan);
    PlanCounts(q, plan, closed, best.p);
    DecidedPlan(q, plan, closed);
  }

  /** What stands otherwise; done says that nothing was left to look at. */
  lemma UnreachedOutcome(q: Query, best: Node, scores: map<Point, real>, closed: set<Point>, plan: LocalPlan,
                         done: bool)
    requires Fallback(q, best, scores) && NoneBetter(q, best.p, closed) && [q.origin] + plan.path == Trail(best)
    requires !plan.reached && (best.parent.None? || best.p in closed)
    requires Counted(q, closed, plan.expanded, plan.frontierCandidates)
    requires plan.frontierCandidates <= plan.expanded <= MAX_NODES
    requires done ==> Searching(q.Graph(), [], scores, closed, false)
    ensures SoundPlan(q, plan) && FrontierPlan(q, plan) && Counts(q, plan, closed)
    ensures done ==> NoRoute(q.Graph()) && BestFrontierPlan(q, plan)
    ensures done || plan.expanded == MAX_NODES ==> Decides(q, plan)
  {
    hide *;
    FallbackIsGood(q, best, scores);
    OnlyStartIsEmpty(q, best, scores, plan.path);
    UnreachedPlan(q, best, scores, plan);
    PlanCounts(q, plan, closed, best.p);
    if done {
      NothingLeft(q, scores, closed);
      NoneBetterAtAll(q, scores, closed, best.p, plan);
    }
    if done || plan.expanded == MAX_NODES {
      DecidedPlan(q, plan, closed);
    }
  }

  /** late(k) tells whether the deadline has passed at the k-th look at the clock. */
  method PlanLocalRoute(terrain: LocalTerrain, q: Query, late: nat -> bool) returns (plan: LocalPlan)
    requires terrain.Valid() && terrain.world == q.world
    modifies terrain
    ensures terrain.Valid() && (old(terrain.exhausted) ==> terrain.exhausted)
    ensures old(terrain.Inside(SearchCells(q.origin))) ==> terrain.Inside(SearchCells(q.origin)) && !terrain.exhausted
    ensures SoundPlan(q, plan) && plan.unknown == terrain.unknown
    ensures exists s :: Counts(q, plan, s)
    ensures plan.reached ==> OptimalPlan(q, plan)
    ensures !plan.reached ==> FrontierPlan(q, plan)
    ensures !plan.reached && !terrain.exhausted && plan.expanded < MAX_NODES && (forall k: nat :: !late(k))
      ==> NoRoute(q.Graph()) && BestFrontierPlan(q, plan)
    ensures !terrain.exhausted && (forall k: nat :: !late(k)) ==> Decides(q, plan)
  {
    hide *;
    var start := Node(q.origin, 0.0, q.dist(q.origin, q.target), None);
    var open, scores := [start], map[q.origin := 0.0];
    var best, reached, expanded, frontierCandidates, looks: nat := start, false, 0, 0, 0;
    ghost var closed: set<Point> := {};
    SearchStarts(q, start.f);
    FallbackStarts(q, start, scores);
    NoneBetterYet(q);
    NothingCounted(q);
    NothingExpanded(q.Graph(), start, scores);
    SearchingWhenExhausted(q.Graph(), open, scores, closed, terrain.exhausted);
    while |open| > 0 && expanded < MAX_NODES && !terrain.exhausted && !late(looks)
      invariant terrain.Valid() && (old(terrain.exhausted) ==> terrain.exhausted)
      invariant old(terrain.Inside(SearchCells(q.origin))) ==> terrain.Inside(SearchCells(q.origin))
      invariant frontierCandidates <= expanded <= MAX_NODES && !reached
      invariant Searching(q.Graph(), open, scores, closed, terrain.exhausted)
      invariant ExpandedOnce(q.Graph(), open, scores, closed) && Counted(q, closed, expanded, frontierCandidates)
      invariant Fallback(q, best, scores) && NoneBetter(q, best.p, closed)
      invariant best.parent.None? || best.p in closed
      decreases MAX_NODES - expanded, |open|
    {
      looks := looks + 1;
      var index := SelectLeast(open);
      var node, rest := open[index], Without(open, index);
      OpenNodeIsGood(q.Graph(), open, scores, closed, false, index);
      if node.g != scores[node.p] {
        StaleIsDropped(q.Graph(), open, scores, closed, false, index);
        StaleLeavesExpanded(q.Graph(), open, scores, closed, index);
        open := rest;
        continue;
      }
      PoppedOnce(q, open, scores, closed, index);
      NodeIsReachable(q, node, scores);
      CountedOneMore(q, closed, node.p, expanded, frontierCandidates);
      expanded := expanded + 1;
      ghost var bestBefore := best;
      if q.OnFrontier(node.p) {
        frontierCandidates := frontierCandidates + 1;
        if q.Progress(node.p) < q.Progress(best.p) {
          FallbackImproves(q, best, node, scores);
          best := node;
        }
      }
      NoneBetterWith(q, bestBefore.p, best.p, node.p, closed);
      if q.AtGoal(node.p) {
        GoalFound(q, open, scores, closed, index);
        best, reached := node, true;
        closed := closed + {node.p};
        break;
      }
      ghost var popped, before := open, scores;
      open, scores := Expand(terrain, q, node, rest, scores);
      if !terrain.exhausted {
        SettledInGraph(q, node, scores);
      }
      GoalInGraph(q, node.p);
      ExpansionAddsOne(q, popped, before, closed, index, open, scores);
      ExpansionKeeps(q.Graph(), popped, before, closed, index, open, scores, terrain.exhausted);
      FallbackSurvives(q, best, node, rest, before, open, scores);
      closed := closed + {node.p};
    }
    if !reached {
      FallbackIsGood(q, best, scores);
    }
    var path := Unwind(q, best, scores);
    plan := LocalPlan(path, reached, expanded, terrain.unknown, frontierCandidates);
    if reached {
      ReachedOutcome(q, best, scores, closed, plan);
    } else {
      UnreachedOutcome(q, best, scores, closed, plan, open == [] && !terrain.exhausted);
    }
    if terrain.Inside(SearchCells(q.origin)) {
      BudgetLasts(terrain, q.origin);
    }
  }
}

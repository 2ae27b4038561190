/** Best-first search in general: what the open list and the scores mean while the
    search runs, and why the first goal taken out has the cheapest path. */
module ShortestPath {
  import opened Geometry
  import opened Options

  /** A graph on points with costs, an estimate of the cost left, and a goal region. */
  datatype Problem = Problem(origin: Point, edge: (Point, Point) -> bool, step: (Point, Point) -> real,
                             rest: Point -> real, goal: Point -> bool)
  {
    /** Steps cost nothing less than zero, the estimate drops by no more than a step costs,
        and is zero in the goal region. */
    ghost predicate Consistent() {
      && (forall p, r :: step(p, r) >= 0.0)
      && (forall p, r :: rest(p) <= step(p, r) + rest(r))
      && (forall p :: rest(p) >= 0.0 && (goal(p) ==> rest(p) == 0.0))
    }

    /** An admissible path from the origin. */
    ghost predicate Path(ps: seq<Point>) {
      && |ps| > 0 && ps[0] == origin
      && forall i | 0 < i < |ps| :: edge(ps[i - 1], ps[i])
    }

    function Cost(ps: seq<Point>): real {
      if |ps| <= 1 then 0.0 else Cost(ps[..|ps| - 1]) + step(ps[|ps| - 2], ps[|ps| - 1])
    }
  }

  datatype Node = Node(p: Point, g: real, f: real, parent: Option<Node>)

  // ---------------------------------------------------------------------
  // What holds of a node
  // ---------------------------------------------------------------------

  /** The points from the origin to a node, along its parents. */
  function Trail(n: Node): (ps: seq<Point>)
    ensures |ps| > 0 && ps[|ps| - 1] == n.p
  {
    match n.parent
    case None => [n.p]
    case Some(m) => Trail(m) + [n.p]
  }

  ghost predicate Sound(g: Problem, n: Node) {
    match n.parent
    case None => n.p == g.origin && n.g == 0.0
    case Some(m) =>
      && Sound(g, m) && g.edge(m.p, n.p)
      && n.g == m.g + g.step(m.p, n.p) && n.f == n.g + g.rest(n.p)
  }

  ghost predicate Scored(n: Node, scores: map<Point, real>) {
    && n.p in scores && scores[n.p] <= n.g
    && (n.parent.Some? ==> Scored(n.parent.value, scores))
  }

  ghost predicate NoRepeat(ps: seq<Point>) {
    forall i, j | 0 <= i < j < |ps| :: ps[i] != ps[j]
  }

  ghost predicate Good(g: Problem, n: Node, scores: map<Point, real>) {
    Sound(g, n) && Scored(n, scores) && NoRepeat(Trail(n))
  }

  lemma {:induction false} SoundTrail(g: Problem, n: Node)
    requires g.Consistent() && Sound(g, n)
    ensures g.Path(Trail(n)) && g.Cost(Trail(n)) == n.g && n.g >= 0.0
  {
    if n.parent.Some? {
      var m := n.parent.value;
      SoundTrail(g, m);
      assert Trail(n)[..|Trail(n)| - 1] == Trail(m);
    }
  }

  lemma {:induction false} TrailScores(g: Problem, n: Node, scores: map<Point, real>)
    requires g.Consistent() && Sound(g, n) && Scored(n, scores)
    ensures forall p | p in Trail(n) :: p in scores && scores[p] <= n.g
  {
    if n.parent.Some? {
      TrailScores(g, n.parent.value, scores);
    }
  }

  ghost predicate Lowered(before: map<Point, real>, after: map<Point, real>) {
    forall p | p in before :: p in after && after[p] <= before[p]
  }

  lemma {:induction false} StillScored(n: Node, before: map<Point, real>, after: map<Point, real>)
    requires Scored(n, before) && Lowered(before, after)
    ensures Scored(n, after)
  {
    if n.parent.Some? {
      StillScored(n.parent.value, before, after);
    }
  }

  // ---------------------------------------------------------------------
  // The open list and the scores
  // ---------------------------------------------------------------------

  ghost predicate AllGood(g: Problem, open: seq<Node>, scores: map<Point, real>) {
    forall n | n in open :: Good(g, n, scores)
  }

  /** The open list holds the entry that set the score of p; older entries are stale. */
  ghost predicate Current(open: seq<Node>, scores: map<Point, real>, p: Point) {
    p in scores && exists n :: n in open && n.p == p && n.g == scores[p]
  }

  /** Entries are only added, scores only lowered, and whatever changed is open. */
  ghost predicate Grown(open0: seq<Node>, scores0: map<Point, real>, open: seq<Node>, scores: map<Point, real>) {
    && open0 <= open && Lowered(scores0, scores)
    && forall p | p in scores :: (p in scores0 && scores[p] == scores0[p]) || Current(open, scores, p)
  }

  lemma GrownTransitive(open0: seq<Node>, scores0: map<Point, real>, open1: seq<Node>, scores1: map<Point, real>,
                        open2: seq<Node>, scores2: map<Point, real>)
    requires Grown(open0, scores0, open1, scores1) && Grown(open1, scores1, open2, scores2)
    ensures Grown(open0, scores0, open2, scores2)
  {
    forall p | p in scores2
      ensures (p in scores0 && scores2[p] == scores0[p]) || Current(open2, scores2, p)
    {
      if p in scores1 && scores2[p] == scores1[p] && Current(open1, scores1, p) {
        var n :| n in open1 && n.p == p && n.g == scores1[p];
        assert n in open2;
      }
    }
  }

  lemma AllStillGood(g: Problem, open: seq<Node>, before: map<Point, real>, after: map<Point, real>)
    requires AllGood(g, open, before) && Lowered(before, after)
    ensures AllGood(g, open, after)
  {
    forall n | n in open
      ensures Good(g, n, after)
    {
      StillScored(n, before, after);
    }
  }

  /** Every step out of p is accounted for. */
  ghost predicate Expanded(g: Problem, scores: map<Point, real>, p: Point) {
    && p in scores && !g.goal(p)
    && forall r | g.edge(p, r) :: r in scores && scores[r] <= scores[p] + g.step(p, r)
  }

  /** Every scored point is either expanded at its score or waiting in the open list. */
  ghost predicate Covered(g: Problem, open: seq<Node>, scores: map<Point, real>, closed: set<Point>) {
    && g.origin in scores && scores[g.origin] <= 0.0
    && (forall p | p in closed :: Expanded(g, scores, p))
    && (forall p | p in scores :: p in closed || Current(open, scores, p))
  }

  // ---------------------------------------------------------------------
  // Optimality and completeness
  // ---------------------------------------------------------------------

  /** What is left of a path costs at least the estimate at any of its points. */
  lemma {:induction false} EstimateIsAdmissible(g: Problem, ps: seq<Point>, i: nat)
    requires g.Consistent() && i < |ps|
    ensures g.Cost(ps[..i + 1]) + g.rest(ps[i]) <= g.Cost(ps) + g.rest(ps[|ps| - 1])
    decreases |ps|
  {
    if i == |ps| - 1 {
      assert ps[..i + 1] == ps;
    } else {
      var front := ps[..|ps| - 1];
      EstimateIsAdmissible(g, front, i);
      assert front[..i + 1] == ps[..i + 1];
      var a, b := ps[|ps| - 2], ps[|ps| - 1];
      assert g.rest(a) <= g.step(a, b) + g.rest(b);
    }
  }

  /** Along any admissible path, either a waiting entry is met that is at least as cheap as
      the path up to it, or the whole path is expanded at no more than its cost. */
  lemma {:induction false} WaitingOnPath(g: Problem, open: seq<Node>, scores: map<Point, real>, closed: set<Point>,
                                         ps: seq<Point>) returns (i: nat)
    requires Covered(g, open, scores, closed) && g.Path(ps)
    ensures i < |ps| && ps[i] in scores && scores[ps[i]] <= g.Cost(ps[..i + 1])
    ensures Current(open, scores, ps[i]) || (i == |ps| - 1 && ps[i] in closed)
    decreases |ps|
  {
    if |ps| == 1 {
      i := 0;
    } else {
      var front := ps[..|ps| - 1];
      assert g.Path(front);
      i := WaitingOnPath(g, open, scores, closed, front);
      assert front[..i + 1] == ps[..i + 1];
      if !Current(open, scores, front[i]) {
        assert front[..i + 1] == front;
        assert g.edge(ps[i], ps[i + 1]);
        i := i + 1;
        assert ps[..i + 1] == ps;
      }
    }
  }

  ghost predicate Cheapest(g: Problem, cost: real) {
    forall ps | g.Path(ps) && g.goal(ps[|ps| - 1]) :: cost <= g.Cost(ps)
  }

  ghost predicate NoRoute(g: Problem) {
    forall ps | g.Path(ps) :: !g.goal(ps[|ps| - 1])
  }

  ghost predicate LeastEstimate(open: seq<Node>, node: Node) {
    node in open && forall n | n in open :: node.f <= n.f
  }

  lemma CostNonNegative(g: Problem, ps: seq<Point>)
    requires g.Consistent()
    ensures g.Cost(ps) >= 0.0
  {
  }

  /** No two open nodes of a point have the same score. */
  ghost predicate Distinct(open: seq<Node>) {
    forall i, j | 0 <= i < j < |open| && open[i].p == open[j].p :: open[i].g != open[j].g
  }

  ghost predicate Reaches(g: Problem, p: Point) {
    exists ps :: g.Path(ps) && ps[|ps| - 1] == p
  }

  ghost predicate CheapestTo(g: Problem, p: Point, cost: real) {
    forall ps | g.Path(ps) && ps[|ps| - 1] == p :: cost <= g.Cost(ps)
  }

  /** The expanded points are reached, at their lowest cost, and none of them waits to be expanded again. */
  ghost predicate ExpandedOnce(g: Problem, open: seq<Node>, scores: map<Point, real>, closed: set<Point>) {
    && Distinct(open)
    && forall p | p in closed ::
         p in scores && Reaches(g, p) && CheapestTo(g, p, scores[p]) && !Current(open, scores, p)
  }

  /** Whatever is taken from the open list for the first time has been reached at its lowest cost. */
  lemma PoppedIsCheapest(g: Problem, open: seq<Node>, scores: map<Point, real>, closed: set<Point>, node: Node)
    requires g.Consistent() && AllGood(g, open, scores) && Covered(g, open, scores, closed)
    requires forall n | n in open && n.parent.None? :: open == [n]
    requires LeastEstimate(open, node) && node.p !in closed
    ensures CheapestTo(g, node.p, node.g)
  {
    forall ps | g.Path(ps) && ps[|ps| - 1] == node.p
      ensures node.g <= g.Cost(ps)
    {
      if node.parent.None? {
        CostNonNegative(g, ps);
      } else {
        var i := WaitingOnPath(g, open, scores, closed, ps);
        EstimateIsAdmissible(g, ps, i);
        var n :| n in open && n.p == ps[i] && n.g == scores[ps[i]];
        assert node.f <= n.f && n.parent.Some?;
      }
    }
  }

  /** The first goal taken from the open list has the cheapest path there is. */
  lemma GoalIsCheapest(g: Problem, open: seq<Node>, scores: map<Point, real>, closed: set<Point>, node: Node)
    requires g.Consistent() && AllGood(g, open, scores) && Covered(g, open, scores, closed)
    requires forall n | n in open && n.parent.None? :: open == [n]
    requires LeastEstimate(open, node) && g.goal(node.p)
    ensures Cheapest(g, node.g)
  {
    forall ps | g.Path(ps) && g.goal(ps[|ps| - 1])
      ensures node.g <= g.Cost(ps)
    {
      if node.parent.None? {
        CostNonNegative(g, ps);
      } else {
        var i := WaitingOnPath(g, open, scores, closed, ps);
        EstimateIsAdmissible(g, ps, i);
        assert Current(open, scores, ps[i]) by {
          if ps[i] in closed {
            assert !g.goal(ps[i]);
          }
        }
        var n :| n in open && n.p == ps[i] && n.g == scores[ps[i]];
        assert node.f <= n.f && n.parent.Some?;
      }
    }
  }

  /** With nothing left to expand, everything that can be reached was expanded. */
  lemma NothingOpenMeansAllClosed(g: Problem, scores: map<Point, real>, closed: set<Point>)
    requires Covered(g, [], scores, closed)
    ensures forall ps | g.Path(ps) :: ps[|ps| - 1] in closed
  {
    forall ps | g.Path(ps)
      ensures ps[|ps| - 1] in closed
    {
      var i := WaitingOnPath(g, [], scores, closed, ps);
    }
  }

  /** So no admissible path leads to the goal. */
  lemma NothingOpenMeansNoRoute(g: Problem, scores: map<Point, real>, closed: set<Point>)
    requires Covered(g, [], scores, closed)
    ensures NoRoute(g)
  {
    NothingOpenMeansAllClosed(g, scores, closed);
    forall ps | g.Path(ps)
      ensures !g.goal(ps[|ps| - 1])
    {
      assert Expanded(g, scores, ps[|ps| - 1]);
    }
  }
}

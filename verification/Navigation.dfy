/** Walking a planned route step by step: observe, plan, walk one edge, remember what
    failed, and plan again, under the movement lock. */
module Navigation {
  import opened Geometry
  import opened MovementControl
  import opened Options
  import opened ReadBudget
  import opened RouteSearch
  import opened ShortestPath
  import opened Terrain

  const MAX_STEPS: nat := 256
  const MAX_FAILURES: nat := 8

  datatype Error = PathFailed | Busy | TimedOut | BotUnavailable | DimensionMismatch
                 | ObservationUnavailable | HazardBlocked | NoPath | DistanceLimit | TargetError(code: string)

  datatype Result = Ok | Err(error: Error)

  /** How the walk of a single edge can end; Threw is an error that comes out of it. */
  datatype Walk = Arrived | Stuck | Changed | Timeout | PhysicsStalled | Unavailable | Threw

  datatype Reply = Found(position: Point) | Missing(code: string) | Lost

  /** What the outside world contributes to one pass of the loop: errors thrown by what it is
      asked, clocks, the bot's
      state, one look at the terrain, the outcome of the walk, and what other holders
      do to the movement lock in the meantime. */
  datatype Moment = Moment(
    lateAtStart: bool, throwsAtStart: bool, current: bool, sameDimension: bool,
    reply: Reply, lateAfterReply: bool, throwsAfterReply: bool, position: Option<Point>,
    currentAfterReply: bool, sameDimensionAfterReply: bool,
    world: World, hostile: Point -> bool, lateInSearch: nat -> bool, lateAfterSearch: bool,
    walk: Walk, sameDimensionAtEnd: bool,
    othersWhileAsking: seq<LockOp>, othersWhileWalking: seq<LockOp>)

  /** One walked edge. */
  datatype Attempt = Attempt(moment: nat, source: Point, target: Point, outcome: Walk) {
    function Edge(): EdgeKey {
      LocalEdgeKey(source, target)
    }

    predicate Failed() {
      outcome == Stuck || outcome == Changed
    }

    predicate Counted() {
      Failed() || outcome == Arrived
    }
  }

  /** The edges a plan must avoid after these attempts. */
  function Blocked(trace: seq<Attempt>): set<EdgeKey> {
    set a | a in trace && a.Failed() :: a.Edge()
  }

  function Failures(trace: seq<Attempt>): nat {
    if trace == [] then 0
    else Failures(trace[..|trace| - 1]) + if trace[|trace| - 1].Failed() then 1 else 0
  }

  function VisitWeight(a: Attempt): nat {
    if a.Failed() then 4 else if a.outcome == Arrived then 1 else 0
  }

  /** How heavily a cell weighs after these attempts: four for a failure, one for an arrival. */
  function Weight(trace: seq<Attempt>, k: CellKey): nat {
    if trace == [] then 0
    else
      var last := trace[|trace| - 1];
      Weight(trace[..|trace| - 1], k) + if Key(last.target) == k then VisitWeight(last) else 0
  }

  /** Once an edge has failed, no later attempt uses it again. */
  ghost predicate NeverRetried(trace: seq<Attempt>) {
    forall i, j | 0 <= i < j < |trace| && trace[i].Failed() :: trace[j].Edge() != trace[i].Edge()
  }

  /** The attempt started where the bot stood, on ground observed in the same pass, over an
      edge that this observation shows to be clear, to a place no hostile is near. */
  ghost predicate Observed(a: Attempt, env: nat -> Moment) {
    var m := env(a.moment);
    && m.position == Some(a.source) && Standable(m.world, a.source) && EdgeClear(m.world, a.source, a.target)
    && !m.hostile(a.source) && !m.hostile(a.target)
  }

  ghost predicate AllObserved(trace: seq<Attempt>, env: nat -> Moment) {
    forall a | a in trace :: Observed(a, env)
  }

  ghost predicate Visited(visits: map<CellKey, nat>, trace: seq<Attempt>) {
    forall k :: Weight(trace, k) == if k in visits then visits[k] else 0
  }

  /** What success means: the bot stands on safe ground within the stop distance of the target it asked for. */
  ghost predicate Reached(env: nat -> Moment, k: nat, stop: real, dist: Metric) {
    var m := env(k);
    && m.position.Some? && m.reply.Found?
    && Standable(m.world, m.position.value) && dist(m.position.value, m.reply.position) <= stop
  }

  // ---------------------------------------------------------------------
  // What a pass comes to
  // ---------------------------------------------------------------------

  /** A verdict at the start of a pass, before the target is asked for. */
  function AtStart(m: Moment): Option<Result> {
    if m.lateAtStart then Some(Err(TimedOut))
    else if m.throwsAtStart then Some(Err(PathFailed))
    else if !m.current then Some(Err(BotUnavailable))
    else if !m.sameDimension then Some(Err(DimensionMismatch))
    else None
  }

  /** A verdict from the reply and the ground under the bot, before a route is searched. */
  ghost function OnTheSpot(m: Moment, stop: real, dist: Metric): Option<Result> {
    if m.reply.Lost? then Some(Err(PathFailed))
    else if m.reply.Missing? then Some(Err(TargetError(m.reply.code)))
    else if m.lateAfterReply then Some(Err(TimedOut))
    else if m.throwsAfterReply then Some(Err(PathFailed))
    else if m.position.None? || !m.currentAfterReply then Some(Err(BotUnavailable))
    else if !m.sameDimensionAfterReply then Some(Err(DimensionMismatch))
    else if !Standable(m.world, m.position.value) then
      Some(Err(if FaultUnread(m.world, m.position.value) then ObservationUnavailable else HazardBlocked))
    else if m.hostile(m.position.value) || m.hostile(m.reply.position) then Some(Err(HazardBlocked))
    else if dist(m.position.value, m.reply.position) <= stop then Some(Ok)
    else None
  }

  ghost function Opening(m: Moment, stop: real, dist: Metric): Option<Result> {
    if AtStart(m).Some? then AtStart(m) else OnTheSpot(m, stop, dist)
  }

  /** What a search has to come up with. */
  ghost predicate Planned(q: Query, plan: LocalPlan, late: nat -> bool) {
    && SoundPlan(q, plan) && (exists s :: Counts(q, plan, s))
    && (if plan.reached then OptimalPlan(q, plan) else FrontierPlan(q, plan))
    && (plan.unknown ==> exists c :: SearchCells(q.origin).Has(c) && q.world(c).None?)
    && ((forall k: nat :: !late(k)) ==> Decides(q, plan))
    && ((forall k: nat :: !late(k)) && !plan.reached && plan.expanded < MAX_NODES ==> BestFrontierPlan(q, plan))
  }

  /** The question a pass puts to the search, after the given attempts. */
  ghost predicate Asks(m: Moment, trace: seq<Attempt>, stop: real, dist: Metric, q: Query) {
    && m.position.Some? && m.reply.Found?
    && q.world == m.world && q.origin == m.position.value && q.target == m.reply.position && q.stop == stop
    && q.blocked == Blocked(trace) && Visited(q.visits, trace) && q.dangerous == m.hostile && q.dist == dist
  }

  /** A verdict from the plan. */
  function AfterSearch(m: Moment, plan: LocalPlan): Option<Result> {
    if m.lateAfterSearch then Some(Err(TimedOut))
    else if plan.path == [] then Some(Err(if plan.unknown then ObservationUnavailable else NoPath))
    else None
  }

  function AfterWalk(m: Moment): Error {
    match m.walk
    case Threw => PathFailed
    case Unavailable => if m.sameDimensionAtEnd then BotUnavailable else DimensionMismatch
    case _ => TimedOut
  }

  ghost predicate IsChosen(m: Moment, before: seq<Attempt>, stop: real, dist: Metric, a: Attempt) {
    exists q, plan ::
      && Asks(m, before, stop, dist, q) && Planned(q, plan, m.lateInSearch) && AfterSearch(m, plan) == None
      && plan.path != [] && a.source == q.origin && a.target == plan.path[0]
  }

  /** Attempt k is the first step of the plan of pass k, and the walk went on after it unless it was the last. */
  ghost predicate StepAt(env: nat -> Moment, stop: real, dist: Metric, trace: seq<Attempt>, k: nat)
    requires k < |trace|
  {
    && Opening(env(k), stop, dist) == None
    && trace[k].moment == k && trace[k].outcome == env(k).walk
    && IsChosen(env(k), trace[..k], stop, dist, trace[k])
    && (k + 1 < |trace| ==> trace[k].Counted() && Failures(trace[..k + 1]) < 8)
  }

  ghost predicate Steps(env: nat -> Moment, stop: real, dist: Metric, trace: seq<Attempt>) {
    forall k: nat | k < |trace| :: StepAt(env, stop, dist, trace, k)
  }

  /** The walk goes on after these attempts. */
  ghost predicate GoesOn(trace: seq<Attempt>) {
    (trace != [] ==> trace[|trace| - 1].Counted()) && Failures(trace) < 8
  }

  /** How the walk ends, pass by pass: by the walk of an edge, by the eighth failure, by the number of
      steps, by what the last pass finds at once, or by what its search comes up with. */
  ghost predicate Ends(env: nat -> Moment, stop: real, dist: Metric, trace: seq<Attempt>, result: Result) {
    var n := |trace|;
    if n > 0 && !trace[n - 1].Counted() then result == Err(AfterWalk(env(n - 1)))
    else if Failures(trace) >= 8 then result == Err(NoPath)
    else if n >= 256 then result == Err(DistanceLimit)
    else if Opening(env(n), stop, dist).Some? then Opening(env(n), stop, dist) == Some(result)
    else exists q, plan ::
      && Asks(env(n), trace, stop, dist, q) && Planned(q, plan, env(n).lateInSearch)
      && AfterSearch(env(n), plan) == Some(result)
  }

  /** Everything that has to hold for arriving, in one pass. */
  ghost predicate Arrives(m: Moment, stop: real, dist: Metric) {
    && !m.lateAtStart && !m.throwsAtStart && m.current && m.sameDimension
    && m.reply.Found? && !m.lateAfterReply && !m.throwsAfterReply
    && m.position.Some? && m.currentAfterReply && m.sameDimensionAfterReply
    && Standable(m.world, m.position.value)
    && !m.hostile(m.position.value) && !m.hostile(m.reply.position)
    && dist(m.position.value, m.reply.position) <= stop
  }

  lemma ArrivesIff(m: Moment, stop: real, dist: Metric)
    ensures Arrives(m, stop, dist) <==> Opening(m, stop, dist) == Some(Ok)
  {
  }

  /** Main result: a navigation succeeds exactly if the pass after its last attempt finds the bot
      arrived, and it gives up for want of steps or after failures exactly at 256 and at eight. */
  lemma ResultMeans(env: nat -> Moment, stop: real, dist: Metric, trace: seq<Attempt>, result: Result)
    requires Ends(env, stop, dist, trace, result) && |trace| <= 256
    ensures result.Ok? <==> |trace| < 256 && GoesOn(trace) && Arrives(env(|trace|), stop, dist)
    ensures result == Err(DistanceLimit) <==> |trace| == 256 && GoesOn(trace)
    ensures trace != [] && trace[|trace| - 1].Counted() && Failures(trace) >= 8 ==> result == Err(NoPath)
    ensures result == Err(NoPath) && (trace == [] || trace[|trace| - 1].Counted()) && Failures(trace) < 8 ==>
      && Opening(env(|trace|), stop, dist) == None && !env(|trace|).lateAfterSearch
      && exists q, plan :: Asks(env(|trace|), trace, stop, dist, q) && Planned(q, plan, env(|trace|).lateInSearch)
                        && plan.path == [] && !plan.unknown
  {
    hide Standable, FaultUnread, Planned, Asks, Failures;
    ArrivesIff(env(|trace|), stop, dist);
  }

  /** The pass gets as far as asking for the target, then as far as having it, then as far as the ground. */
  predicate Asking(m: Moment) {
    !m.lateAtStart && !m.throwsAtStart && m.current && m.sameDimension
  }

  predicate Answered(m: Moment) {
    Asking(m) && m.reply.Found? && !m.lateAfterReply && !m.throwsAfterReply
  }

  predicate Present(m: Moment) {
    Answered(m) && m.position.Some? && m.currentAfterReply && m.sameDimensionAfterReply
  }

  /** What each error means that a pass comes to before it searches. */
  lemma ErrorMeans(m: Moment, stop: real, dist: Metric)
    ensures var o := Opening(m, stop, dist);
      && (o == Some(Err(TimedOut)) <==> m.lateAtStart || (Asking(m) && m.reply.Found? && m.lateAfterReply))
      && (o == Some(Err(PathFailed)) <==>
           || (!m.lateAtStart && m.throwsAtStart)
           || (Asking(m) && (m.reply.Lost? || (m.reply.Found? && !m.lateAfterReply && m.throwsAfterReply))))
      && (forall code :: o == Some(Err(TargetError(code))) <==> Asking(m) && m.reply == Missing(code))
      && (o == Some(Err(BotUnavailable)) <==>
           || (!m.lateAtStart && !m.throwsAtStart && !m.current)
           || (Answered(m) && !(m.position.Some? && m.currentAfterReply)))
      && (o == Some(Err(DimensionMismatch)) <==>
           || (!m.lateAtStart && !m.throwsAtStart && m.current && !m.sameDimension)
           || (Answered(m) && m.position.Some? && m.currentAfterReply && !m.sameDimensionAfterReply))
    ensures var o := Opening(m, stop, dist);
      && (o == Some(Err(ObservationUnavailable)) <==>
           Present(m) && !Standable(m.world, m.position.value) && FaultUnread(m.world, m.position.value))
      && (o == Some(Err(HazardBlocked)) <==>
           && Present(m)
           && if Standable(m.world, m.position.value) then m.hostile(m.position.value) || m.hostile(m.reply.position)
              else !FaultUnread(m.world, m.position.value))
  {
    hide Standable, FaultUnread;
  }

  /** What each error means that the walk of an edge ends with. */
  lemma WalkErrorMeans(env: nat -> Moment, stop: real, dist: Metric, trace: seq<Attempt>, result: Result)
    requires Ends(env, stop, dist, trace, result) && Steps(env, stop, dist, trace)
    requires trace != [] && trace[|trace| - 1].outcome !in {Arrived, Stuck, Changed}
    ensures var walk := trace[|trace| - 1].outcome;
      && (result == Err(TimedOut) <==> walk == Timeout || walk == PhysicsStalled)
      && (result == Err(PathFailed) <==> walk == Threw)
      && (result == Err(BotUnavailable) <==> walk == Unavailable && env(|trace| - 1).sameDimensionAtEnd)
      && (result == Err(DimensionMismatch) <==> walk == Unavailable && !env(|trace| - 1).sameDimensionAtEnd)
  {
    assert StepAt(env, stop, dist, trace, |trace| - 1);
    hide StepAt, Steps, Opening, Planned, Asks, Failures;
  }

  /** Main result: with the clock in time, giving up for want of a path means that there is none to the
      goal and no place on the frontier that is nearer, unless the search hit its cap. */
  lemma NoPathMeans(q: Query, plan: LocalPlan, late: nat -> bool)
    requires Planned(q, plan, late) && plan.path == [] && (forall k: nat :: !late(k)) && !q.AtGoal(q.origin)
    ensures !plan.reached
    ensures plan.expanded < MAX_NODES ==> NoRoute(q.Graph()) && BestFrontierPlan(q, plan)
    ensures forall r | Within(q, r) && |r| < MAX_NODES :: NoRoute(q.Graph())
  {
    hide Query.Graph, Query.AtGoal, NoRoute, Within, Counts, SoundPlan, Cheapest, BestFrontierPlan, SearchCells;
  }

  /** Nobody else gives back a token they were never given. */
  ghost predicate OthersHonest(env: nat -> Moment, bot: Bot, token: Token) {
    forall k :: Release(bot, token) !in env(k).othersWhileAsking && Release(bot, token) !in env(k).othersWhileWalking
  }

  lemma RecordAttempt(trace: seq<Attempt>, a: Attempt, env: nat -> Moment)
    requires NeverRetried(trace) && a.Edge() !in Blocked(trace) && AllObserved(trace, env) && Observed(a, env)
    ensures NeverRetried(trace + [a]) && AllObserved(trace + [a], env)
    ensures Blocked(trace + [a]) == Blocked(trace) + if a.Failed() then {a.Edge()} else {}
    ensures Failures(trace + [a]) == Failures(trace) + if a.Failed() then 1 else 0
  {
    assert (trace + [a])[..|trace|] == trace;
    forall i, j | 0 <= i < j < |trace + [a]| && (trace + [a])[i].Failed()
      ensures (trace + [a])[j].Edge() != (trace + [a])[i].Edge()
    {
      if j == |trace| {
        assert trace[i].Edge() in Blocked(trace);
      }
    }
    assert Blocked(trace + [a]) == Blocked(trace) + if a.Failed() then {a.Edge()} else {} by {
      forall e
        ensures e in Blocked(trace + [a]) <==> e in Blocked(trace) + if a.Failed() then {a.Edge()} else {}
      {
        if e in Blocked(trace) {
          var b :| b in trace && b.Failed() && b.Edge() == e;
          assert b in trace + [a];
        }
        if a.Failed() && e == a.Edge() {
          assert a in trace + [a];
        }
      }
    }
  }

  lemma RecordVisit(visits: map<CellKey, nat>, trace: seq<Attempt>, a: Attempt)
    requires Visited(visits, trace)
    ensures Visited(Visit(visits, a, VisitWeight(a)), trace + [a])
  {
    assert (trace + [a])[..|trace|] == trace;
  }

  /** The attempts that ended in one of these ways, and led to a place of this key if one is given. */
  ghost function Times(trace: seq<Attempt>, ways: set<Walk>, k: Option<CellKey>): set<nat> {
    set i: nat | i < |trace| && trace[i].outcome in ways && (k == None || k == Some(Key(trace[i].target)))
  }

  lemma TimesOfOneMore(trace: seq<Attempt>, a: Attempt, ways: set<Walk>, k: Option<CellKey>)
    ensures |Times(trace + [a], ways, k)| ==
      |Times(trace, ways, k)| + if a.outcome in ways && (k == None || k == Some(Key(a.target))) then 1 else 0
  {
    var more := if a.outcome in ways && (k == None || k == Some(Key(a.target))) then {|trace| as nat} else {};
    assert Times(trace + [a], ways, k) == Times(trace, ways, k) + more;
  }

  /** What is counted: an edge has failed when it was stuck or its terrain changed, and a place weighs
      four for each failure on the way to it and one for each arrival. */
  lemma {:induction false} WalkIsCounted(trace: seq<Attempt>, k: CellKey)
    ensures Failures(trace) == |Times(trace, {Stuck, Changed}, None)|
    ensures Weight(trace, k) == 4 * |Times(trace, {Stuck, Changed}, Some(k))| + |Times(trace, {Arrived}, Some(k))|
    decreases |trace|
  {
    hide Key;
    if trace == [] {
      assert Times(trace, {Stuck, Changed}, None) == Times(trace, {Stuck, Changed}, Some(k)) == {};
      assert Times(trace, {Arrived}, Some(k)) == {};
    } else {
      var front, last := trace[..|trace| - 1], trace[|trace| - 1];
      assert front + [last] == trace;
      WalkIsCounted(front, k);
      hide Times;
      TimesOfOneMore(front, last, {Stuck, Changed}, None);
      TimesOfOneMore(front, last, {Stuck, Changed}, Some(k));
      TimesOfOneMore(front, last, {Arrived}, Some(k));
    }
  }

  /** The first step of a plan is clear, safe and not one that failed before. */
  lemma FirstStep(q: Query, plan: LocalPlan)
    requires SoundPlan(q, plan) && plan.path != []
    ensures EdgeClear(q.world, q.origin, plan.path[0]) && !q.dangerous(plan.path[0])
    ensures LocalEdgeKey(q.origin, plan.path[0]) !in q.blocked
  {
    hide EdgeClear, IsSurface, LocalEdgeKey, NoRepeat, Abs, Columns;
    var ps := [q.origin] + plan.path;
    assert q.Graph().edge(ps[0], ps[1]);
    assert q.Edge(ps[0], ps[1]);
  }

  ghost predicate Journey(trace: seq<Attempt>, env: nat -> Moment) {
    NeverRetried(trace) && AllObserved(trace, env)
  }

  /** Everything the loop remembers is a function of what it has walked. */
  ghost predicate Remembers(blocked: set<EdgeKey>, visits: map<CellKey, nat>, failures: nat, trace: seq<Attempt>,
                            env: nat -> Moment) {
    && Journey(trace, env) && blocked == Blocked(trace) && failures == Failures(trace) && Visited(visits, trace)
  }

  lemma NothingWalked(env: nat -> Moment)
    ensures Remembers({}, map[], 0, [], env) && 0 < MAX_FAILURES
  {
  }

  lemma Walked(blocked: set<EdgeKey>, visits: map<CellKey, nat>, failures: nat, trace: seq<Attempt>,
               env: nat -> Moment, a: Attempt)
    requires Remembers(blocked, visits, failures, trace, env) && a.Edge() !in blocked && Observed(a, env)
    ensures Journey(trace + [a], env) && Failures(trace + [a]) == failures + if a.Failed() then 1 else 0
    ensures a.Failed() ==> Remembers(blocked + {a.Edge()}, Visit(visits, a, 4), failures + 1, trace + [a], env)
    ensures a.outcome == Arrived ==> Remembers(blocked, Visit(visits, a, 1), failures, trace + [a], env)
  {
    RecordAttempt(trace, a, env);
    RecordVisit(visits, trace, a);
  }

  function Visit(visits: map<CellKey, nat>, a: Attempt, weight: nat): map<CellKey, nat> {
    visits[Key(a.target) := (if Key(a.target) in visits then visits[Key(a.target)] else 0) + weight]
  }

  lemma StartIsObserved(a: Attempt, env: nat -> Moment)
    requires env(a.moment).position == Some(a.source) && Standable(env(a.moment).world, a.source)
    requires EdgeClear(env(a.moment).world, a.source, a.target)
    requires !env(a.moment).hostile(a.source) && !env(a.moment).hostile(a.target)
    ensures Observed(a, env)
  {
  }

  lemma Undisturbed(l: Locks, env: nat -> Moment, k: nat, bot: Bot, token: Token)
    requires l.Valid() && l.Holds(bot, token) && OthersHonest(env, bot, token)
    ensures var l' := MovementControl.Run(l, env(k).othersWhileAsking);
      l'.Valid() && l'.Holds(bot, token) && MovementControl.Run(l', env(k).othersWhileWalking).Holds(bot, token)
  {
    HoldLasts(l, env(k).othersWhileAsking, bot, token);
    HoldLasts(MovementControl.Run(l, env(k).othersWhileAsking), env(k).othersWhileWalking, bot, token);
  }

  /** A search from a fresh look at the terrain. */
  method Search(terrain: LocalTerrain, q: Query, late: nat -> bool) returns (plan: LocalPlan)
    requires terrain.Valid() && terrain.world == q.world && terrain.Inside(SearchCells(q.origin))
    modifies terrain
    ensures Planned(q, plan, late)
  {
    plan := PlanLocalRoute(terrain, q, late);
    hide SoundPlan, OptimalPlan, FrontierPlan, Counts, Decides, BestFrontierPlan, SearchCells;
    if plan.unknown {
      var c :| c in terrain.blocks && q.world(c).None?;
      assert SearchCells(q.origin).Has(c);
    }
  }

  /** Looks at the ground under the bot; a fresh look never runs out of reads. */
  method Stand(terrain: LocalTerrain, origin: Point) returns (standing: bool)
    requires terrain.Valid() && terrain.blocks == map[] && !terrain.exhausted && !terrain.unknown
    modifies terrain
    ensures terrain.Valid() && terrain.Inside(SearchCells(origin))
    ensures standing <==> Standable(terrain.world, origin)
    ensures !standing ==> (terrain.unknown <==> FaultUnread(terrain.world, origin))
  {
    hide Standable, FaultUnread, SearchCells, Between, Cells.Has;
    OriginIsInside(origin);
    standing := terrain.CheckStanding(origin);
    BudgetLasts(terrain, origin);
  }

  /** From the reply about the target to the first edge of a fresh plan: either a
      verdict that ends the navigation, or an edge to walk now. */
  method NextStep(env: nat -> Moment, k: nat, stop: real, dist: Metric, blocked: set<EdgeKey>,
                  visits: map<CellKey, nat>)
    returns (verdict: Option<Result>, source: Point, next: Point, plan: LocalPlan)
    ensures OnTheSpot(env(k), stop, dist).Some? ==> verdict == OnTheSpot(env(k), stop, dist)
    ensures OnTheSpot(env(k), stop, dist).None? ==>
      && env(k).position == Some(source) && env(k).reply.Found?
      && verdict == AfterSearch(env(k), plan)
      && Planned(Query(env(k).world, source, env(k).reply.position, stop, blocked, visits, env(k).hostile, dist),
           plan, env(k).lateInSearch)
      && (verdict.None? ==> plan.path != [] && next == plan.path[0])
    ensures verdict.None? ==>
      LocalEdgeKey(source, next) !in blocked && Observed(Attempt(k, source, next, env(k).walk), env)
  {
    hide Standable, FaultUnread, Planned, EdgeClear, Observed, LocalEdgeKey, IsMetric, SearchCells, LocalTerrain.Valid;
    hide LocalTerrain.Inside, SoundPlan;
    var m := env(k);
    plan := LocalPlan([], false, 0, false, 0);
    var origin := if m.position.Some? then m.position.value else Point(0.0, 0.0, 0.0);
    source, next := origin, origin;
    if m.reply.Lost? { return Some(Err(PathFailed)), source, next, plan; }
    if m.reply.Missing? { return Some(Err(TargetError(m.reply.code))), source, next, plan; }
    var target := m.reply.position;
    if m.lateAfterReply { return Some(Err(TimedOut)), source, next, plan; }
    if m.throwsAfterReply { return Some(Err(PathFailed)), source, next, plan; }
    if m.position.None? || !m.currentAfterReply { return Some(Err(BotUnavailable)), source, next, plan; }
    if !m.sameDimensionAfterReply { return Some(Err(DimensionMismatch)), source, next, plan; }
    var terrain := new LocalTerrain(m.world);
    var standing := Stand(terrain, origin);
    if !standing {
      return Some(Err(if terrain.unknown then ObservationUnavailable else HazardBlocked)), source, next, plan;
    }
    if m.hostile(origin) || m.hostile(target) { return Some(Err(HazardBlocked)), source, next, plan; }
    if dist(origin, target) <= stop { return Some(Ok), source, next, plan; }
    var q := Query(m.world, origin, target, stop, blocked, visits, m.hostile, dist);
    plan := Search(terrain, q, m.lateInSearch);
    if m.lateAfterSearch { return Some(Err(TimedOut)), source, next, plan; }
    if plan.path == [] {
      return Some(Err(if plan.unknown then ObservationUnavailable else NoPath)), source, next, plan;
    }
    PlannedIsSound(q, plan, m.lateInSearch);
    FirstStep(q, plan);
    StartIsObserved(Attempt(k, origin, plan.path[0], m.walk), env);
    verdict, next := None, plan.path[0];
  }

  lemma PlannedIsSound(q: Query, plan: LocalPlan, late: nat -> bool)
    requires Planned(q, plan, late)
    ensures SoundPlan(q, plan)
  {
    hide SoundPlan;
  }

  lemma NoSteps(env: nat -> Moment, stop: real, dist: Metric)
    ensures Steps(env, stop, dist, []) && GoesOn([])
  {
  }

  lemma OneMoreStep(env: nat -> Moment, stop: real, dist: Metric, trace: seq<Attempt>, a: Attempt)
    requires Steps(env, stop, dist, trace) && GoesOn(trace)
    requires Opening(env(|trace|), stop, dist) == None
    requires a.moment == |trace| && a.outcome == env(|trace|).walk && IsChosen(env(|trace|), trace, stop, dist, a)
    ensures Steps(env, stop, dist, trace + [a])
  {
    hide Opening, IsChosen, Failures;
    var trace' := trace + [a];
    forall k: nat | k < |trace'|
      ensures StepAt(env, stop, dist, trace', k)
    {
      assert trace'[..k] == trace[..k];
      if k < |trace| {
        assert StepAt(env, stop, dist, trace, k);
        assert trace'[..k + 1] == trace[..k + 1];
        if k + 1 == |trace| {
          assert trace[..k + 1] == trace;
        }
      }
    }
  }

  lemma ChosenStep(m: Moment, before: seq<Attempt>, stop: real, dist: Metric, a: Attempt, q: Query, plan: LocalPlan)
    requires Asks(m, before, stop, dist, q) && Planned(q, plan, m.lateInSearch) && AfterSearch(m, plan) == None
    requires plan.path != [] && a.source == q.origin && a.target == plan.path[0]
    ensures IsChosen(m, before, stop, dist, a)
  {
    hide Asks, Planned, AfterSearch;
  }

  /** The question of a pass is the one that the memory of the walk makes it. */
  lemma MemoryAsks(m: Moment, stop: real, dist: Metric, blocked: set<EdgeKey>, visits: map<CellKey, nat>,
                   failures: nat, trace: seq<Attempt>, env: nat -> Moment, source: Point)
    requires Remembers(blocked, visits, failures, trace, env) && m.position == Some(source) && m.reply.Found?
    ensures Asks(m, trace, stop, dist,
      Query(m.world, source, m.reply.position, stop, blocked, visits, m.hostile, dist))
  {
    hide Journey, Visited, Blocked, Failures;
  }

  lemma EndsOnTheSpot(env: nat -> Moment, stop: real, dist: Metric, trace: seq<Attempt>, result: Result)
    requires GoesOn(trace) && |trace| < 256 && Opening(env(|trace|), stop, dist) == Some(result)
    ensures Ends(env, stop, dist, trace, result)
  {
    hide Opening, Failures;
  }

  lemma EndsBySearch(env: nat -> Moment, stop: real, dist: Metric, trace: seq<Attempt>, result: Result,
                     q: Query, plan: LocalPlan)
    requires GoesOn(trace) && |trace| < 256 && Opening(env(|trace|), stop, dist) == None
    requires Asks(env(|trace|), trace, stop, dist, q) && Planned(q, plan, env(|trace|).lateInSearch)
    requires AfterSearch(env(|trace|), plan) == Some(result)
    ensures Ends(env, stop, dist, trace, result)
  {
    hide Opening, Failures, Asks, Planned, AfterSearch;
  }

  lemma EndsByWalk(env: nat -> Moment, stop: real, dist: Metric, trace: seq<Attempt>, a: Attempt, result: Result)
    requires a.moment == |trace| && a.outcome == env(|trace|).walk
    requires !a.Counted() && result == Err(AfterWalk(env(|trace|)))
    ensures Ends(env, stop, dist, trace + [a], result)
  {
    hide Opening, Failures, Planned;
  }

  lemma EndsByCount(env: nat -> Moment, stop: real, dist: Metric, trace: seq<Attempt>, result: Result)
    requires trace != [] ==> trace[|trace| - 1].Counted()
    requires if Failures(trace) >= 8 then result == Err(NoPath) else |trace| >= 256 && result == Err(DistanceLimit)
    ensures Ends(env, stop, dist, trace, result)
  {
    hide Opening, Failures, Planned;
  }

  /** The loop, run while the lock is held. */
  method WalkRoute(lock: MovementLock, bot: Bot, ghost token: Token, stop: real, dist: Metric, env: nat -> Moment)
    returns (result: Result, trace: seq<Attempt>)
    requires lock.State().Valid() && lock.State().Holds(bot, token) && OthersHonest(env, bot, token)
    modifies lock
    ensures lock.State().Valid() && lock.State().Holds(bot, token)
    ensures Journey(trace, env) && |trace| <= MAX_STEPS && Failures(trace) <= MAX_FAILURES
    ensures Steps(env, stop, dist, trace) && Ends(env, stop, dist, trace, result)
    ensures result.Ok? ==> Reached(env, |trace|, stop, dist)
  {
    hide Failures, Blocked, Visited, Journey, Remembers, Opening, OnTheSpot, AtStart, Steps, StepAt, IsChosen, Ends;
    hide Asks, Planned, AfterSearch, Observed, Reached, LocalEdgeKey, Visit, GoesOn, AfterWalk, OthersHonest;
    hide MovementControl.Run, Locks.Holds, Locks.Valid;
    trace := [];
    var blocked: set<EdgeKey>, visits: map<CellKey, nat>, failures: nat := {}, map[], 0;
    NothingWalked(env);
    NoSteps(env, stop, dist);
    var step: nat := 0;
    while step < MAX_STEPS
      invariant lock.State().Valid() && lock.State().Holds(bot, token)
      invariant Remembers(blocked, visits, failures, trace, env)
      invariant Journey(trace, env) && Failures(trace) == failures
      invariant |trace| == step <= MAX_STEPS && failures < MAX_FAILURES
      invariant Steps(env, stop, dist, trace) && GoesOn(trace)
    {
      var m := env(step);
      StartsWith(env, stop, dist, trace);
      if m.lateAtStart { return Err(TimedOut), trace; }
      if m.throwsAtStart { return Err(PathFailed), trace; }
      if !m.current { return Err(BotUnavailable), trace; }
      if !m.sameDimension { return Err(DimensionMismatch), trace; }
      Undisturbed(lock.State(), env, step, bot, token);
      lock.Apply(m.othersWhileAsking);
      var verdict, source, target, plan := NextStep(env, step, stop, dist, blocked, visits);
      ghost var q := Query(m.world, source, if m.reply.Found? then m.reply.position else source, stop,
        blocked, visits, m.hostile, dist);
      if verdict.Some? {
        EndsWith(env, stop, dist, trace, verdict, source, plan, q, blocked, visits, failures);
        return verdict.value, trace;
      }
      var a := Attempt(step, source, target, m.walk);
      AttemptLeadsOn(env, stop, dist, trace, a, plan, q, blocked, visits, failures);
      lock.Apply(m.othersWhileWalking);
      trace := trace + [a];
      match m.walk {
        case Threw => return Err(PathFailed), trace;
        case Timeout | PhysicsStalled => return Err(TimedOut), trace;
        case Unavailable => return Err(if m.sameDimensionAtEnd then BotUnavailable else DimensionMismatch), trace;
        case Arrived =>
          visits := Visit(visits, a, 1);
        case Stuck | Changed =>
          blocked, visits, failures := blocked + {a.Edge()}, Visit(visits, a, 4), failures + 1;
      }
      if failures >= MAX_FAILURES {
        return Err(NoPath), trace;
      }
      step := step + 1;
    }
    LimitEnds(env, stop, dist, trace);
    result := Err(DistanceLimit);
  }

  /** A pass that does not get past its start. */
  lemma StartsWith(env: nat -> Moment, stop: real, dist: Metric, trace: seq<Attempt>)
    requires GoesOn(trace) && |trace| < 256
    ensures AtStart(env(|trace|)).Some? ==> Ends(env, stop, dist, trace, AtStart(env(|trace|)).value)
    ensures var m := env(|trace|);
      && (m.lateAtStart ==> AtStart(m) == Some(Err(TimedOut)))
      && (!m.lateAtStart && m.throwsAtStart ==> AtStart(m) == Some(Err(PathFailed)))
      && (!m.lateAtStart && !m.throwsAtStart && !m.current ==> AtStart(m) == Some(Err(BotUnavailable)))
      && (!m.lateAtStart && !m.throwsAtStart && m.current ==>
           AtStart(m) == if m.sameDimension then None else Some(Err(DimensionMismatch)))
  {
    hide OnTheSpot, Ends;
    if AtStart(env(|trace|)).Some? {
      EndsOnTheSpot(env, stop, dist, trace, AtStart(env(|trace|)).value);
    }
  }

  /** A pass that ends with a verdict of its own. */
  lemma EndsWith(env: nat -> Moment, stop: real, dist: Metric, trace: seq<Attempt>, verdict: Option<Result>,
                 source: Point, plan: LocalPlan, q: Query, blocked: set<EdgeKey>, visits: map<CellKey, nat>,
                 failures: nat)
    requires GoesOn(trace) && |trace| < 256 && AtStart(env(|trace|)) == None && verdict.Some?
    requires Remembers(blocked, visits, failures, trace, env)
    requires OnTheSpot(env(|trace|), stop, dist).Some? ==> verdict == OnTheSpot(env(|trace|), stop, dist)
    requires OnTheSpot(env(|trace|), stop, dist).None? ==>
      && env(|trace|).position == Some(source) && env(|trace|).reply.Found?
      && q == Query(env(|trace|).world, source, env(|trace|).reply.position, stop, blocked, visits,
                env(|trace|).hostile, dist)
      && verdict == AfterSearch(env(|trace|), plan) && Planned(q, plan, env(|trace|).lateInSearch)
    ensures Ends(env, stop, dist, trace, verdict.value)
    ensures verdict == Some(Ok) ==> Reached(env, |trace|, stop, dist)
  {
    var m := env(|trace|);
    if OnTheSpot(m, stop, dist).Some? {
      OkIsReached(env, |trace|, stop, dist);
      hide OnTheSpot, Reached, Ends;
      EndsOnTheSpot(env, stop, dist, trace, verdict.value);
    } else {
      SearchIsNotOk(m, plan);
      hide OnTheSpot, AfterSearch, Planned, Ends, Remembers;
      MemoryAsks(m, stop, dist, blocked, visits, failures, trace, env, source);
      EndsBySearch(env, stop, dist, trace, verdict.value, q, plan);
    }
  }

  lemma SearchIsNotOk(m: Moment, plan: LocalPlan)
    ensures AfterSearch(m, plan) != Some(Ok)
  {
  }

  lemma OkIsReached(env: nat -> Moment, k: nat, stop: real, dist: Metric)
    ensures OnTheSpot(env(k), stop, dist) == Some(Ok) ==> Reached(env, k, stop, dist)
  {
    hide Standable, FaultUnread;
  }

  /** A pass that goes on to walk an edge. */
  lemma StepsWith(env: nat -> Moment, stop: real, dist: Metric, trace: seq<Attempt>, a: Attempt, plan: LocalPlan,
                  q: Query, blocked: set<EdgeKey>, visits: map<CellKey, nat>, failures: nat)
    requires Steps(env, stop, dist, trace) && GoesOn(trace) && AtStart(env(|trace|)) == None
    requires Remembers(blocked, visits, failures, trace, env)
    requires a.moment == |trace| && a.outcome == env(|trace|).walk
    requires OnTheSpot(env(|trace|), stop, dist).None?
    requires env(|trace|).position == Some(a.source) && env(|trace|).reply.Found?
    requires q == Query(env(|trace|).world, a.source, env(|trace|).reply.position, stop, blocked, visits,
                    env(|trace|).hostile, dist)
    requires AfterSearch(env(|trace|), plan) == None && Planned(q, plan, env(|trace|).lateInSearch)
    requires plan.path != [] && a.target == plan.path[0]
    ensures Steps(env, stop, dist, trace + [a])
  {
    hide OnTheSpot, AtStart, AfterSearch, Planned, Steps, Remembers, GoesOn;
    MemoryAsks(env(|trace|), stop, dist, blocked, visits, failures, trace, env, a.source);
    ChosenStep(env(|trace|), trace, stop, dist, a, q, plan);
    OneMoreStep(env, stop, dist, trace, a);
  }

  /** What the walk of an edge leads to. */
  lemma WalkMeans(env: nat -> Moment, stop: real, dist: Metric, trace: seq<Attempt>, a: Attempt)
    requires GoesOn(trace) && a.moment == |trace| && a.outcome == env(|trace|).walk
    ensures !a.Counted() ==> Ends(env, stop, dist, trace + [a], Err(AfterWalk(env(|trace|))))
    ensures a.Counted() <==> a.outcome in {Arrived, Stuck, Changed}
    ensures (trace + [a])[|trace|] == a
    ensures a.Counted() && Failures(trace + [a]) < 8 ==> GoesOn(trace + [a])
    ensures a.outcome == Threw ==> AfterWalk(env(|trace|)) == PathFailed
    ensures a.outcome == Timeout || a.outcome == PhysicsStalled ==> AfterWalk(env(|trace|)) == TimedOut
    ensures a.outcome == Unavailable ==>
      AfterWalk(env(|trace|)) == if env(|trace|).sameDimensionAtEnd then BotUnavailable else DimensionMismatch
  {
    if !a.Counted() {
      hide Ends;
      EndsByWalk(env, stop, dist, trace, a, Err(AfterWalk(env(|trace|))));
    }
  }

  /** What an attempt adds to what is remembered, and where it leads. */
  lemma AttemptLeadsOn(env: nat -> Moment, stop: real, dist: Metric, trace: seq<Attempt>, a: Attempt, plan: LocalPlan,
                       q: Query, blocked: set<EdgeKey>, visits: map<CellKey, nat>, failures: nat)
    requires Steps(env, stop, dist, trace) && GoesOn(trace) && AtStart(env(|trace|)) == None
    requires Remembers(blocked, visits, failures, trace, env) && failures < 8
    requires a.moment == |trace| && a.outcome == env(|trace|).walk
    requires OnTheSpot(env(|trace|), stop, dist).None?
    requires env(|trace|).position == Some(a.source) && env(|trace|).reply.Found?
    requires q == Query(env(|trace|).world, a.source, env(|trace|).reply.position, stop, blocked, visits,
                    env(|trace|).hostile, dist)
    requires AfterSearch(env(|trace|), plan) == None && Planned(q, plan, env(|trace|).lateInSearch)
    requires plan.path != [] && a.target == plan.path[0]
    requires LocalEdgeKey(a.source, a.target) !in blocked && Observed(a, env)
    ensures Steps(env, stop, dist, trace + [a]) && Journey(trace + [a], env)
    ensures Failures(trace + [a]) == failures + if a.outcome == Stuck || a.outcome == Changed then 1 else 0
    ensures a.outcome == Threw ==> Ends(env, stop, dist, trace + [a], Err(PathFailed))
    ensures a.outcome == Timeout || a.outcome == PhysicsStalled ==> Ends(env, stop, dist, trace + [a], Err(TimedOut))
    ensures a.outcome == Unavailable ==> Ends(env, stop, dist, trace + [a],
      Err(if env(|trace|).sameDimensionAtEnd then BotUnavailable else DimensionMismatch))
    ensures a.outcome == Arrived ==>
      GoesOn(trace + [a]) && Remembers(blocked, Visit(visits, a, 1), failures, trace + [a], env)
    ensures a.outcome == Stuck || a.outcome == Changed ==>
      && Remembers(blocked + {a.Edge()}, Visit(visits, a, 4), failures + 1, trace + [a], env)
      && if failures + 1 < 8 then GoesOn(trace + [a]) else Ends(env, stop, dist, trace + [a], Err(NoPath))
  {
    StepsWith(env, stop, dist, trace, a, plan, q, blocked, visits, failures);
    hide Steps, OnTheSpot, AtStart, AfterSearch, Planned, Observed, LocalEdgeKey, Visit, GoesOn, AfterWalk, Ends;
    hide Blocked, Visited, Failures, Remembers;
    AttemptKey(a);
    FailuresOf(blocked, visits, failures, trace, env);
    Walked(blocked, visits, failures, trace, env, a);
    WalkMeans(env, stop, dist, trace, a);
    if a.Failed() && failures + 1 >= 8 {
      EndsByCount(env, stop, dist, trace + [a], Err(NoPath));
    }
  }

  lemma FailuresOf(blocked: set<EdgeKey>, visits: map<CellKey, nat>, failures: nat, trace: seq<Attempt>,
                   env: nat -> Moment)
    requires Remembers(blocked, visits, failures, trace, env)
    ensures Failures(trace) == failures
  {
    hide Journey, Blocked, Visited, Failures;
  }

  lemma LimitEnds(env: nat -> Moment, stop: real, dist: Metric, trace: seq<Attempt>)
    requires GoesOn(trace) && |trace| == 256
    ensures Ends(env, stop, dist, trace, Err(DistanceLimit))
  {
    EndsByCount(env, stop, dist, trace, Err(DistanceLimit));
  }

  lemma AttemptKey(a: Attempt)
    ensures a.Edge() == LocalEdgeKey(a.source, a.target)
    ensures a.Failed() <==> (a.outcome == Stuck || a.outcome == Changed)
  {
    hide LocalEdgeKey;
  }

  lemma HoldEnds(l: Locks, bot: Bot, token: Token)
    requires l.Valid() && l.Holds(bot, token)
    ensures bot !in MovementControl.Step(l, Release(bot, token)).owners
  {
  }

  /** Navigates to the target. Whatever happens, the lock is given back before returning,
      and a bot that someone else holds is left alone. */
  method NavigateLocally(lock: MovementLock, bot: Bot, capable: bool, otherwiseBusy: bool, stop: real, dist: Metric,
                         env: nat -> Moment)
    returns (result: Result, trace: seq<Attempt>)
    requires lock.State().Valid() && OthersHonest(env, bot, lock.minted)
    modifies lock
    ensures lock.State().Valid()
    ensures Journey(trace, env) && |trace| <= MAX_STEPS && Failures(trace) <= MAX_FAILURES
    ensures result.Ok? ==> Reached(env, |trace|, stop, dist)
    ensures !capable ==> result == Err(PathFailed) && trace == []
    ensures capable && (otherwiseBusy || bot in old(lock.owners)) ==> result == Err(Busy) && trace == []
    ensures capable && !otherwiseBusy && bot !in old(lock.owners) ==>
      Steps(env, stop, dist, trace) && Ends(env, stop, dist, trace, result)
    ensures bot !in old(lock.owners) ==> bot !in lock.owners
    ensures bot in old(lock.owners) ==> lock.State() == old(lock.State()) && trace == [] && result.Err?
  {
    trace := [];
    if !capable { return Err(PathFailed), []; }
    if otherwiseBusy { return Err(Busy), []; }
    var token := lock.Acquire(bot);
    if token.None? { return Err(Busy), []; }
    result, trace := WalkRoute(lock, bot, token.value, stop, dist, env);
    HoldEnds(lock.State(), bot, token.value);
    lock.Release(bot, token.value);
  }
}

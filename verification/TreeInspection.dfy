/** The inspection of a recorded tree and of everything around it, before a log may be cut. */
module TreeInspection {
  import opened Geometry
  import opened NaturalWood
  import opened Options

  datatype Material = Log(species: Species) | Leaves(persistent: bool) | Ground | Soft | Solid

  /** What the server shows of one world at one moment; a failing region lookup counts as claimed. */
  datatype View = View(block: Pos -> Material, loaded: (int, int) -> bool, unclaimed: Pos -> bool)

  datatype Reason =
    | NaturalGrowthVerified | OriginUnknown | OutOfRange | UnnaturalGround | ObservationUnknown
    | ProtectedOrUnknown | WorldChanged | BuildingSuspected | TreeShapeUnknown | ReachOrOrder

  const MARGIN: nat := 2

  /** A log that still belongs to the tree. */
  predicate Ours(trees: map<Pos, Tree>, tree: Tree, p: Pos) {
    p in tree.logs && p in trees && trees[p] == tree
  }

  predicate Fits(v: View, trees: map<Pos, Tree>, tree: Tree, p: Pos) {
    && v.loaded(p.x / 16, p.z / 16)
    && v.unclaimed(p)
    && (if Ours(trees, tree, p) then v.block(p) == Log(tree.logs[p]) else v.block(p) in {Leaves(false), Soft})
  }

  /** What speaks against a tree at one place. */
  function Problem(v: View, trees: map<Pos, Tree>, tree: Tree, p: Pos): Option<Reason> {
    if !v.loaded(p.x / 16, p.z / 16) then Some(ObservationUnknown)
    else if !v.unclaimed(p) then Some(ProtectedOrUnknown)
    else if Fits(v, trees, tree, p) then None
    else Some(if Ours(trees, tree, p) then WorldChanged else BuildingSuspected)
  }

  predicate IsFoliage(v: View, trees: map<Pos, Tree>, tree: Tree, p: Pos) {
    !Ours(trees, tree, p) && v.block(p) == Leaves(false)
  }

  predicate InBox(tree: Tree, base: Pos, p: Pos) {
    && p.world == base.world
    && base.x - MARGIN <= p.x <= base.x + MARGIN
    && base.z - MARGIN <= p.z <= base.z + MARGIN
    && base.y <= p.y < base.y + |tree.logs| + MARGIN
  }

  /** The logs still standing among the n lowest places of a column, from the top. */
  function Standing(trees: map<Pos, Tree>, tree: Tree, base: Pos, n: nat): seq<Pos> {
    if n == 0 then []
    else (if Ours(trees, tree, Up(base, n - 1)) then [Up(base, n - 1)] else []) + Standing(trees, tree, base, n - 1)
  }

  ghost predicate IsTree(tree: Tree, base: Pos) {
    FEWEST <= |tree.logs| <= MOST && tree.logs.Keys == Stem(base, |tree.logs|)
  }

  /** Why a tree counts as grown and free of anyone's building. */
  ghost predicate Natural(v: View, trees: map<Pos, Tree>, tree: Tree, base: Pos) {
    && v.block(base.(y := base.y - 1)) == Ground
    && (forall p | InBox(tree, base, p) :: Fits(v, trees, tree, p))
    && (exists p :: InBox(tree, base, p) && IsFoliage(v, trees, tree, p))
    && Standing(trees, tree, base, |tree.logs|) != []
  }

  // ---------------------------------------------------------------------
  // Scanning the box
  // ---------------------------------------------------------------------

  /** The same logs from the bottom, as the scan meets them. */
  function Met(trees: map<Pos, Tree>, tree: Tree, base: Pos, n: nat): seq<Pos> {
    if n == 0 then []
    else Met(trees, tree, base, n - 1) + if Ours(trees, tree, Up(base, n - 1)) then [Up(base, n - 1)] else []
  }

  function InsertDown(ps: seq<Pos>, p: Pos): seq<Pos> {
    if ps == [] || ps[0].y < p.y then [p] + ps else [ps[0]] + InsertDown(ps[1..], p)
  }

  /** Sorted by height, the highest first. */
  function HighestFirst(ps: seq<Pos>): seq<Pos> {
    if ps == [] then [] else InsertDown(HighestFirst(ps[..|ps| - 1]), ps[|ps| - 1])
  }

  lemma {:induction false} StandingFacts(trees: map<Pos, Tree>, tree: Tree, base: Pos, n: nat)
    ensures forall i | 0 <= i < |Standing(trees, tree, base, n)| ::
      var p := Standing(trees, tree, base, n)[i];
      Ours(trees, tree, p) && base.y <= p.y < base.y + n && p == base.(y := p.y)
    ensures forall i, j | 0 <= i < j < |Standing(trees, tree, base, n)| ::
      Standing(trees, tree, base, n)[i].y > Standing(trees, tree, base, n)[j].y
  {
    if n > 0 {
      StandingFacts(trees, tree, base, n - 1);
    }
  }

  lemma StandingHead(trees: map<Pos, Tree>, tree: Tree, base: Pos, n: nat)
    ensures Standing(trees, tree, base, n) == [] || Standing(trees, tree, base, n)[0].y < Up(base, n).y
  {
    StandingFacts(trees, tree, base, n);
  }

  lemma SortOneHigher(ps: seq<Pos>, p: Pos)
    requires HighestFirst(ps) == [] || HighestFirst(ps)[0].y < p.y
    ensures HighestFirst(ps + [p]) == [p] + HighestFirst(ps)
  {
    assert (ps + [p])[..|ps|] == ps && (ps + [p])[|ps|] == p;
  }

  lemma {:induction false} MetSortedIsStanding(trees: map<Pos, Tree>, tree: Tree, base: Pos, n: nat)
    ensures HighestFirst(Met(trees, tree, base, n)) == Standing(trees, tree, base, n)
  {
    if n > 0 {
      MetSortedIsStanding(trees, tree, base, n - 1);
      StandingHead(trees, tree, base, n - 1);
      SortOneHigher(Met(trees, tree, base, n - 1), Up(base, n - 1));
      if !Ours(trees, tree, Up(base, n - 1)) {
        assert Met(trees, tree, base, n) == Met(trees, tree, base, n - 1);
        assert Standing(trees, tree, base, n) == Standing(trees, tree, base, n - 1);
      }
    }
  }

  /** Off the trunk there is nothing of the tree, nor above it. */
  lemma {:induction false} NoneApart(trees: map<Pos, Tree>, tree: Tree, base: Pos, at: Pos, n: nat)
    requires IsTree(tree, base)
    requires at.x != base.x || at.z != base.z
    ensures Met(trees, tree, at, n) == []
  {
    if n > 0 {
      NoneApart(trees, tree, base, at, n - 1);
    }
  }

  lemma NoneAbove(trees: map<Pos, Tree>, tree: Tree, base: Pos)
    requires IsTree(tree, base)
    ensures Standing(trees, tree, base, |tree.logs| + MARGIN) == Standing(trees, tree, base, |tree.logs|)
  {
    var n := |tree.logs|;
    assert !Ours(trees, tree, Up(base, n)) && !Ours(trees, tree, Up(base, n + 1));
    assert Standing(trees, tree, base, n + 1) == Standing(trees, tree, base, n);
    assert Standing(trees, tree, base, n + 2) == Standing(trees, tree, base, n + 1);
  }

  ghost predicate FirstUnfit(v: View, trees: map<Pos, Tree>, tree: Tree, at: Pos, i: nat, problem: Option<Reason>) {
    && Problem(v, trees, tree, Up(at, i)) == problem && problem.Some?
    && forall k: nat | k < i :: Fits(v, trees, tree, Up(at, k))
  }

  /** The first place of the box, in the order of the scan, that something speaks against. */
  ghost predicate FirstProblem(v: View, trees: map<Pos, Tree>, tree: Tree, base: Pos, p: Pos, problem: Option<Reason>) {
    && InBox(tree, base, p) && Problem(v, trees, tree, p) == problem && problem.Some?
    && forall q | InBox(tree, base, q) && ScannedBefore(q, p) :: Fits(v, trees, tree, q)
  }

  predicate ScannedBefore(q: Pos, p: Pos) {
    q.x < p.x || (q.x == p.x && (q.z < p.z || (q.z == p.z && q.y < p.y)))
  }

  method ScanColumn(v: View, trees: map<Pos, Tree>, tree: Tree, at: Pos, n: nat)
    returns (problem: Option<Reason>, leaves: bool, found: seq<Pos>)
    ensures problem.None? <==> forall i: nat | i < n :: Fits(v, trees, tree, Up(at, i))
    ensures problem.Some? ==> exists i: nat :: i < n && FirstUnfit(v, trees, tree, at, i, problem)
    ensures problem.None? ==> (leaves <==> exists i: nat | i < n :: IsFoliage(v, trees, tree, Up(at, i)))
    ensures problem.None? ==> found == Met(trees, tree, at, n)
  {
    leaves, found := false, [];
    for i := 0 to n
      invariant forall k: nat | k < i :: Fits(v, trees, tree, Up(at, k))
      invariant leaves <==> exists k: nat | k < i :: IsFoliage(v, trees, tree, Up(at, k))
      invariant found == Met(trees, tree, at, i)
    {
      var p := Up(at, i);
      assert Problem(v, trees, tree, p).Some? ==> FirstUnfit(v, trees, tree, at, i, Problem(v, trees, tree, p));
      if !v.loaded(p.x / 16, p.z / 16) {
        return Some(ObservationUnknown), leaves, found;
      }
      if !v.unclaimed(p) {
        return Some(ProtectedOrUnknown), leaves, found;
      }
      if Ours(trees, tree, p) {
        if v.block(p) != Log(tree.logs[p]) {
          return Some(WorldChanged), leaves, found;
        }
        found := found + [p];
      } else if v.block(p).Leaves? {
        if v.block(p).persistent {
          return Some(BuildingSuspected), leaves, found;
        }
        leaves := true;
      } else if v.block(p) != Soft {
        return Some(BuildingSuspected), leaves, found;
      }
    }
    problem := None;
  }

  /** Columns of the box up to, and not including, the one at (x, z), in the order of the scan. */
  ghost predicate Seen(tree: Tree, base: Pos, x: int, z: int, p: Pos) {
    InBox(tree, base, p) && (p.x < x || (p.x == x && p.z < z))
  }

  ghost predicate SeenFits(v: View, trees: map<Pos, Tree>, tree: Tree, base: Pos, x: int, z: int) {
    forall p | Seen(tree, base, x, z, p) :: Fits(v, trees, tree, p)
  }

  ghost predicate SeenFoliage(v: View, trees: map<Pos, Tree>, tree: Tree, base: Pos, x: int, z: int) {
    exists p :: Seen(tree, base, x, z, p) && IsFoliage(v, trees, tree, p)
  }

  lemma NextColumn(v: View, trees: map<Pos, Tree>, tree: Tree, base: Pos, x: int, z: int)
    requires base.x - MARGIN <= x <= base.x + MARGIN && base.z - MARGIN <= z <= base.z + MARGIN
    ensures SeenFits(v, trees, tree, base, x, z + 1) <==>
      && SeenFits(v, trees, tree, base, x, z)
      && forall i: nat | i < |tree.logs| + MARGIN :: Fits(v, trees, tree, Up(Pos(base.world, x, base.y, z), i))
    ensures SeenFoliage(v, trees, tree, base, x, z + 1) <==>
      || SeenFoliage(v, trees, tree, base, x, z)
      || exists i: nat | i < |tree.logs| + MARGIN :: IsFoliage(v, trees, tree, Up(Pos(base.world, x, base.y, z), i))
  {
    hide Fits, IsFoliage;
    var at := Pos(base.world, x, base.y, z);
    forall i: nat | i < |tree.logs| + MARGIN
      ensures Seen(tree, base, x, z + 1, Up(at, i)) && !Seen(tree, base, x, z, Up(at, i))
    {
    }
    forall p | Seen(tree, base, x, z + 1, p)
      ensures Seen(tree, base, x, z, p) || (p == Up(at, p.y - base.y) && 0 <= p.y - base.y < |tree.logs| + MARGIN)
    {
    }
  }

  lemma NextRow(v: View, trees: map<Pos, Tree>, tree: Tree, base: Pos, x: int)
    ensures SeenFits(v, trees, tree, base, x, base.z + MARGIN + 1) <==>
      SeenFits(v, trees, tree, base, x + 1, base.z - MARGIN)
    ensures SeenFoliage(v, trees, tree, base, x, base.z + MARGIN + 1) <==>
      SeenFoliage(v, trees, tree, base, x + 1, base.z - MARGIN)
  {
    hide Fits, IsFoliage;
    var past, next, first := base.z + MARGIN + 1, x + 1, base.z - MARGIN;
    assert forall p :: Seen(tree, base, x, past, p) <==> Seen(tree, base, next, first, p);
  }

  /** Scans the whole box, finding the logs that still stand from the bottom. */
  method ScanBox(v: View, trees: map<Pos, Tree>, tree: Tree, base: Pos)
    returns (problem: Option<Reason>, leaves: bool, remaining: seq<Pos>)
    requires IsTree(tree, base)
    ensures problem.None? <==> forall p | InBox(tree, base, p) :: Fits(v, trees, tree, p)
    ensures problem.Some? ==> exists p :: FirstProblem(v, trees, tree, base, p, problem)
    ensures problem.None? ==> (leaves <==> exists p :: InBox(tree, base, p) && IsFoliage(v, trees, tree, p))
    ensures problem.None? ==> remaining == Met(trees, tree, base, |tree.logs| + MARGIN)
  {
    hide Fits, IsFoliage, Met, IsTree;
    leaves, remaining := false, [];
    var n := |tree.logs| + MARGIN;
    for x := base.x - MARGIN to base.x + MARGIN + 1
      invariant SeenFits(v, trees, tree, base, x, base.z - MARGIN)
      invariant leaves <==> SeenFoliage(v, trees, tree, base, x, base.z - MARGIN)
      invariant remaining == if x > base.x then Met(trees, tree, base, n) else []
    {
      for z := base.z - MARGIN to base.z + MARGIN + 1
        invariant SeenFits(v, trees, tree, base, x, z)
        invariant leaves <==> SeenFoliage(v, trees, tree, base, x, z)
        invariant remaining == if x > base.x || (x == base.x && z > base.z) then Met(trees, tree, base, n) else []
      {
        var at := Pos(base.world, x, base.y, z);
        NextColumn(v, trees, tree, base, x, z);
        var foliage, found;
        problem, foliage, found := ScanColumn(v, trees, tree, at, n);
        if problem.Some? {
          Unfit(v, trees, tree, base, at, n, problem);
          return;
        }
        leaves := leaves || foliage;
        if at != base {
          NoneApart(trees, tree, base, at, n);
        }
        remaining := remaining + found;
      }
      NextRow(v, trees, tree, base, x);
    }
    problem := None;
    assert forall p :: InBox(tree, base, p) <==> Seen(tree, base, base.x + MARGIN + 1, base.z - MARGIN, p);
  }

  lemma Unfit(v: View, trees: map<Pos, Tree>, tree: Tree, base: Pos, at: Pos, n: nat, problem: Option<Reason>)
    requires n == |tree.logs| + MARGIN && InBox(tree, base, at) && at.y == base.y
    requires SeenFits(v, trees, tree, base, at.x, at.z)
    requires exists i: nat :: i < n && FirstUnfit(v, trees, tree, at, i, problem)
    ensures exists p :: FirstProblem(v, trees, tree, base, p, problem)
    ensures exists p :: InBox(tree, base, p) && !Fits(v, trees, tree, p)
  {
    var i: nat :| i < n && FirstUnfit(v, trees, tree, at, i, problem);
    var p := Up(at, i);
    assert InBox(tree, base, p) && !Fits(v, trees, tree, p);
    forall q | InBox(tree, base, q) && ScannedBefore(q, p)
      ensures Fits(v, trees, tree, q)
    {
      if q.x == at.x && q.z == at.z {
        assert q == Up(at, q.y - at.y);
      } else {
        assert Seen(tree, base, at.x, at.z, q);
      }
    }
    assert FirstProblem(v, trees, tree, base, p, problem);
  }

  // ---------------------------------------------------------------------
  // The verdict
  // ---------------------------------------------------------------------

  /** A bot: where it stands and where its eyes are. */
  datatype Bot = Bot(world: nat, feet: Point, eyes: Point)

  datatype Verdict = Verdict(allowed: bool, reason: Reason, logs: seq<Pos>)

  const RANGE: real := 24.0
  const REACH: real := 4.5

  function Corner(p: Pos): Point {
    Point(p.x as real, p.y as real, p.z as real)
  }

  function Middle(p: Pos): Point {
    Point(p.x as real + 0.5, p.y as real + 0.5, p.z as real + 0.5)
  }

  predicate InRange(bot: Bot, p: Pos) {
    bot.world == p.world && SquaredDistance(bot.feet, Corner(p)) <= RANGE * RANGE
  }

  predicate InReach(bot: Bot, p: Pos) {
    SquaredDistance(bot.eyes, Middle(p)) <= REACH * REACH
  }

  /** What the inspection finds out about a tree: its lowest log and whether everything around is natural. */
  ghost predicate Approves(v: View, trees: map<Pos, Tree>, bot: Bot, p: Pos, logs: seq<Pos>) {
    && InRange(bot, p) && p in trees
    && exists base :: IsTree(trees[p], base) && Natural(v, trees, trees[p], base)
                   && logs == Standing(trees, trees[p], base, |trees[p].logs|)
  }

  predicate AboutTheTree(reason: Reason) {
    reason !in {NaturalGrowthVerified, OriginUnknown, OutOfRange, ReachOrOrder}
  }

  lemma ProblemIsAboutTheTree(v: View, trees: map<Pos, Tree>, tree: Tree, base: Pos, reason: Reason)
    requires exists p :: FirstProblem(v, trees, tree, base, p, Some(reason))
    ensures AboutTheTree(reason)
  {
    hide Fits, Ours;
  }

  /** Why a tree is turned down. */
  ghost predicate Against(v: View, trees: map<Pos, Tree>, tree: Tree, base: Pos, reason: Reason) {
    if v.block(base.(y := base.y - 1)) != Ground then reason == UnnaturalGround
    else if exists p :: InBox(tree, base, p) && !Fits(v, trees, tree, p) then
      exists p :: FirstProblem(v, trees, tree, base, p, Some(reason))
    else reason == TreeShapeUnknown
  }

  method Inspect(v: View, trees: map<Pos, Tree>, bot: Bot, p: Pos) returns (verdict: Verdict)
    requires IsLedger(trees)
    ensures verdict.allowed <==> exists logs :: Approves(v, trees, bot, p, logs)
    ensures verdict.allowed ==> Approves(v, trees, bot, p, verdict.logs) && verdict.reason == NaturalGrowthVerified
    ensures !verdict.allowed ==> verdict.logs == [] && verdict.reason !in {NaturalGrowthVerified, ReachOrOrder}
    ensures verdict.reason == OutOfRange <==> !InRange(bot, p)
    ensures verdict.reason == OriginUnknown <==> InRange(bot, p) && p !in trees
    ensures !verdict.allowed && InRange(bot, p) && p in trees ==>
      exists base :: IsTree(trees[p], base) && Against(v, trees, trees[p], base, verdict.reason)
  {
    hide Natural, Standing, Stem, Fits, IsFoliage, FirstProblem, Against;
    if !InRange(bot, p) {
      return Denied(OutOfRange);
    }
    if p !in trees {
      return Denied(OriginUnknown);
    }
    var tree := trees[p];
    assert IsColumn(tree.logs);
    BaseExists(tree.logs.Keys);
    var base :| base in tree.logs && forall q <- tree.logs :: base.y <= q.y;
    OneBase(tree, base);
    hide IsTree, IsLedger;
    verdict := InspectTree(v, trees, tree, base);
    if verdict.allowed {
      assert Approves(v, trees, bot, p, verdict.logs);
    } else {
      NotNatural(v, trees, bot, p, base);
    }
  }

  /** The part of the inspection that looks at the tree itself. */
  method InspectTree(v: View, trees: map<Pos, Tree>, tree: Tree, base: Pos) returns (verdict: Verdict)
    requires IsTree(tree, base)
    ensures verdict.allowed <==> Natural(v, trees, tree, base)
    ensures verdict.allowed ==>
      verdict.logs == Standing(trees, tree, base, |tree.logs|) && verdict.reason == NaturalGrowthVerified
    ensures !verdict.allowed ==> verdict.logs == [] && Against(v, trees, tree, base, verdict.reason)
    ensures !verdict.allowed ==> AboutTheTree(verdict.reason)
  {
    hide Standing, Met, Fits, IsFoliage, HighestFirst, IsTree, FirstProblem;
    if v.block(base.(y := base.y - 1)) != Ground {
      return Denied(UnnaturalGround);
    }
    var problem, leaves, remaining := ScanBox(v, trees, tree, base);
    if problem.Some? {
      ProblemIsAboutTheTree(v, trees, tree, base, problem.value);
      return Denied(problem.value);
    }
    NoneAbove(trees, tree, base);
    MetSortedIsStanding(trees, tree, base, |tree.logs| + MARGIN);
    remaining := HighestFirst(remaining);
    if !leaves || remaining == [] {
      return Denied(TreeShapeUnknown);
    }
    return Verdict(true, NaturalGrowthVerified, remaining);
  }

  function Denied(reason: Reason): Verdict {
    Verdict(false, reason, [])
  }

  /** A recorded tree has one base: its lowest log. */
  lemma OneBase(tree: Tree, base: Pos)
    requires IsColumn(tree.logs) && IsBase(tree.logs, base)
    ensures forall b :: IsTree(tree, b) <==> b == base
  {
    ColumnBase(tree.logs, base);
    forall b | IsTree(tree, b)
      ensures b == base
    {
      assert Up(b, 0) == b && Up(base, 0) == base;
      assert b in tree.logs && base in Stem(b, |tree.logs|);
    }
  }

  lemma NotNatural(v: View, trees: map<Pos, Tree>, bot: Bot, p: Pos, base: Pos)
    requires p in trees && (forall b :: IsTree(trees[p], b) <==> b == base)
    requires !Natural(v, trees, trees[p], base)
    ensures !exists logs :: Approves(v, trees, bot, p, logs)
  {
  }

  // ---------------------------------------------------------------------
  // What the list of logs promises its reader
  // ---------------------------------------------------------------------

  lemma {:induction false} StandingHas(trees: map<Pos, Tree>, tree: Tree, base: Pos, n: nat, i: nat)
    requires i < n && Ours(trees, tree, Up(base, i))
    ensures Up(base, i) in Standing(trees, tree, base, n)
  {
    if i < n - 1 {
      StandingHas(trees, tree, base, n - 1, i);
    }
  }

  lemma {:induction false} StandingLength(trees: map<Pos, Tree>, tree: Tree, base: Pos, n: nat)
    ensures |Standing(trees, tree, base, n)| <= n
  {
    if n > 0 {
      StandingLength(trees, tree, base, n - 1);
    }
  }

  /** Main result: an approved list has one to six logs, the one asked about among them, all
      within five blocks of it, the highest first. */
  lemma ApprovedList(v: View, trees: map<Pos, Tree>, bot: Bot, p: Pos, logs: seq<Pos>)
    requires IsLedger(trees) && Approves(v, trees, bot, p, logs)
    ensures 1 <= |logs| <= MOST && p in logs
    ensures forall q <- logs :: q == p.(y := q.y) && -5 <= q.y - p.y <= 5
    ensures forall i, j | 0 <= i < j < |logs| :: logs[i].y > logs[j].y
  {
    var tree := trees[p];
    var base :| IsTree(tree, base) && logs == Standing(trees, tree, base, |tree.logs|);
    StandingFacts(trees, tree, base, |tree.logs|);
    StandingLength(trees, tree, base, |tree.logs|);
    var i: nat :| i < |tree.logs| && p == Up(base, i);
    StandingHas(trees, tree, base, |tree.logs|, i);
    forall q | q in logs
      ensures q == p.(y := q.y) && -5 <= q.y - p.y <= 5
    {
      var k :| 0 <= k < |logs| && logs[k] == q;
      assert logs[k] == base.(y := logs[k].y) && base.y <= logs[k].y < base.y + |tree.logs|;
    }
  }

  /** A place at most two blocks beside the trunk, from its foot to two above its top. */
  predicate Beside(base: Pos, height: nat, p: Pos) {
    && p.world == base.world && base.y <= p.y <= base.y + height + 1
    && -2 <= p.x - base.x <= 2 && -2 <= p.z - base.z <= 2
  }

  /** Observed, in nobody's claim, and a natural leaf, a soft plant or a log of the tree. */
  predicate IsWild(v: View, trees: map<Pos, Tree>, tree: Tree, q: Pos) {
    && v.loaded(q.x / 16, q.z / 16) && v.unclaimed(q)
    && (v.block(q) == Leaves(false) || v.block(q) == Soft
        || (q in tree.logs && q in trees && trees[q] == tree && v.block(q) == Log(tree.logs[q])))
  }

  ghost predicate Undisturbed(v: View, trees: map<Pos, Tree>, tree: Tree, base: Pos) {
    && base in tree.logs && (forall l <- tree.logs :: base.y <= l.y)
    && v.block(base.(y := base.y - 1)) == Ground
    && (exists leaf :: Beside(base, |tree.logs|, leaf) && v.block(leaf) == Leaves(false))
    && (forall q | Beside(base, |tree.logs|, q) :: IsWild(v, trees, tree, q))
  }

  /** Main result: an approved tree of three to six logs stands on natural ground, within 24 blocks of the bot,
      with a natural leaf beside it and nothing beside it but its own logs, natural leaves and soft plants, all
      observed and in nobody's claim. */
  lemma ApprovedSurroundings(v: View, trees: map<Pos, Tree>, bot: Bot, p: Pos, logs: seq<Pos>)
    requires IsLedger(trees) && Approves(v, trees, bot, p, logs)
    ensures bot.world == p.world && SquaredDistance(bot.feet, Corner(p)) <= 576.0 && 3 <= |trees[p].logs| <= 6
    ensures exists base :: Undisturbed(v, trees, trees[p], base)
  {
    hide Standing, SquaredDistance, IsLedger;
    var tree := trees[p];
    var base :| IsTree(tree, base) && Natural(v, trees, tree, base);
    assert Up(base, 0) == base && base in tree.logs;
    var leaf :| InBox(tree, base, leaf) && IsFoliage(v, trees, tree, leaf);
    assert Beside(base, |tree.logs|, leaf);
    forall q | Beside(base, |tree.logs|, q)
      ensures IsWild(v, trees, tree, q)
    {
      assert InBox(tree, base, q);
      assert Fits(v, trees, tree, q);
    }
    assert Undisturbed(v, trees, tree, base);
  }

  /** Reach is four and a half blocks from the eyes to the middle of the log. */
  lemma ReachMeans(bot: Bot, p: Pos)
    ensures InReach(bot, p) <==>
      SquaredDistance(bot.eyes, Point(p.x as real + 0.5, p.y as real + 0.5, p.z as real + 0.5)) <= 20.25
  {
  }

  /** Cutting a log above the n lowest places changes nothing there. */
  lemma {:induction false} CutAbove(trees: map<Pos, Tree>, tree: Tree, base: Pos, n: nat, m: nat)
    requires n <= m
    ensures Standing(trees - {Up(base, m)}, tree, base, n) == Standing(trees, tree, base, n)
  {
    if n > 0 {
      CutAbove(trees, tree, base, n - 1, m);
    }
  }

  /** Main result: once the first log of the list is cut and struck from the ledger, the list
      is the rest, so working down the list always asks for the highest log. */
  lemma {:induction false} CutFromTheTop(trees: map<Pos, Tree>, tree: Tree, base: Pos, n: nat)
    requires Standing(trees, tree, base, n) != []
    ensures Standing(trees - {Standing(trees, tree, base, n)[0]}, tree, base, n) == Standing(trees, tree, base, n)[1..]
  {
    var top := Up(base, n - 1);
    if Ours(trees, tree, top) {
      CutAbove(trees, tree, base, n - 1, n - 1);
    } else {
      CutFromTheTop(trees, tree, base, n - 1);
      assert Standing(trees, tree, base, n) == Standing(trees, tree, base, n - 1);
    }
  }

  /** The view after a block was taken away. */
  function Cleared(v: View, p: Pos): View {
    v.(block := (q: Pos) => if q == p then Soft else v.block(q))
  }

  lemma CutKeepsNatural(v: View, trees: map<Pos, Tree>, tree: Tree, base: Pos, top: Pos)
    requires IsTree(tree, base) && Natural(v, trees, tree, base)
    requires |Standing(trees, tree, base, |tree.logs|)| > 1 && top == Standing(trees, tree, base, |tree.logs|)[0]
    ensures Natural(Cleared(v, top), trees - {top}, tree, base)
    ensures Standing(trees - {top}, tree, base, |tree.logs|) == Standing(trees, tree, base, |tree.logs|)[1..]
  {
    CutFromTheTop(trees, tree, base, |tree.logs|);
    StandingFacts(trees, tree, base, |tree.logs|);
    assert Ours(trees, tree, top) && top.y >= base.y;
    hide Standing;
    var v', trees' := Cleared(v, top), trees - {top};
    forall p | InBox(tree, base, p)
      ensures Fits(v', trees', tree, p)
    {
      assert Fits(v, trees, tree, p);
    }
    var leaf :| InBox(tree, base, leaf) && IsFoliage(v, trees, tree, leaf);
    assert IsFoliage(v', trees', tree, leaf);
  }

  /** Main result: once the first log of an approved list is cut and struck from the ledger, the
      next one, in range, is approved with the rest of the list. */
  lemma ApprovedAfterCut(v: View, trees: map<Pos, Tree>, bot: Bot, p: Pos, logs: seq<Pos>)
    requires IsLedger(trees) && Approves(v, trees, bot, p, logs)
    requires |logs| > 1 && InRange(bot, logs[1])
    ensures Approves(Cleared(v, logs[0]), trees - {logs[0]}, bot, logs[1], logs[1..])
  {
    var tree := trees[p];
    var base :| IsTree(tree, base) && Natural(v, trees, tree, base) && logs == Standing(trees, tree, base, |tree.logs|);
    CutKeepsNatural(v, trees, tree, base, logs[0]);
    StandsBelow(trees, tree, base, logs);
    hide Natural, Standing, IsTree, IsLedger, InRange;
    var trees' := trees - {logs[0]};
    assert logs[1] in trees' && trees'[logs[1]] == tree;
  }

  lemma StandsBelow(trees: map<Pos, Tree>, tree: Tree, base: Pos, logs: seq<Pos>)
    requires logs == Standing(trees, tree, base, |tree.logs|) && |logs| > 1
    ensures logs[1] in trees && trees[logs[1]] == tree && logs[1] != logs[0]
  {
    StandingFacts(trees, tree, base, |tree.logs|);
    assert Ours(trees, tree, logs[1]);
  }
}

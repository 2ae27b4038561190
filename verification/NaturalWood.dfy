/** The ledger of trees seen to grow, and the inspection of a tree before one of its logs may be cut. */
module NaturalWood {
  datatype Pos = Pos(world: nat, x: int, y: int, z: int)

  datatype Species = Oak | Birch | Spruce

  /** Trees are values here. A tree recorded anew takes all its entries, so no two entries
      hold equal trees that were recorded apart. */
  datatype Tree = Tree(logs: map<Pos, Species>)

  const FEWEST: nat := 3
  const MOST: nat := 6
  const CAPACITY: nat := 20000

  // ---------------------------------------------------------------------
  // Columns of logs
  // ---------------------------------------------------------------------

  function Up(base: Pos, n: nat): Pos {
    base.(y := base.y + n)
  }

  function Stem(base: Pos, n: nat): set<Pos> {
    set i: nat | i < n :: Up(base, i)
  }

  lemma {:induction false} StemSize(base: Pos, n: nat)
    ensures |Stem(base, n)| == n
  {
    if n > 0 {
      StemSize(base, n - 1);
      assert Stem(base, n) == Stem(base, n - 1) + {Up(base, n - 1)};
    }
  }

  lemma SubsetOfSameSize(s: set<Pos>, t: set<Pos>)
    requires s <= t && |s| == |t|
    ensures s == t
  {
    assert t == s + (t - s) && |t| == |s| + |t - s|;
  }

  predicate IsBase(logs: map<Pos, Species>, base: Pos) {
    base in logs && forall p <- logs :: base.y <= p.y
  }

  lemma {:induction false} BaseExists(ps: set<Pos>)
    requires ps != {}
    ensures exists base :: base in ps && forall p <- ps :: base.y <= p.y
    decreases |ps|
  {
    var p :| p in ps;
    if ps != {p} {
      BaseExists(ps - {p});
      var b :| b in ps - {p} && forall q <- ps - {p} :: b.y <= q.y;
      var least := if p.y < b.y then p else b;
      assert least in ps && forall q <- ps :: least.y <= q.y by {
        forall q | q in ps
          ensures least.y <= q.y
        {
          assert q == p || q in ps - {p};
        }
      }
    } else {
      assert p in ps && forall q <- ps :: p.y <= q.y;
    }
  }

  /** Three to six logs, one on top of the other. */
  ghost predicate IsColumn(logs: map<Pos, Species>) {
    FEWEST <= |logs| <= MOST && exists base :: base in logs && logs.Keys == Stem(base, |logs|)
  }

  ghost predicate IsLedger(trees: map<Pos, Tree>) {
    |trees| <= CAPACITY && forall p <- trees :: p in trees[p].logs && IsColumn(trees[p].logs)
  }

  predicate Near(q: Pos, p: Pos) {
    q.world == p.world && -6 <= q.x - p.x <= 6 && -10 <= q.y - p.y <= 10 && -6 <= q.z - p.z <= 6
  }

  lemma UnionSize(s: set<Pos>, t: set<Pos>)
    ensures |s + t| <= |s| + |t|
  {
    assert s + t == s + (t - s) && t == (t - s) + (t * s);
    assert |s + (t - s)| == |s| + |t - s| && |(t - s) + (t * s)| == |t - s| + |t * s|;
  }

  function Entries(logs: map<Pos, Species>): map<Pos, Tree> {
    map p | p in logs :: Tree(logs)
  }

  lemma RecordedLedger(trees: map<Pos, Tree>, logs: map<Pos, Species>)
    requires IsLedger(trees) && IsColumn(logs) && |trees| + |logs| <= CAPACITY
    ensures IsLedger(trees + Entries(logs))
  {
    var entries := Entries(logs);
    assert entries.Keys == logs.Keys && (trees + entries).Keys == trees.Keys + entries.Keys;
    UnionSize(trees.Keys, entries.Keys);
  }

  class Ledger {
    var trees: map<Pos, Tree>

    constructor ()
      ensures trees == map[] && IsLedger(trees)
    {
      trees := map[];
    }

    /** Takes a column of logs, and nothing else, while there is room. */
    method Record(logs: map<Pos, Species>) returns (taken: bool)
      requires IsLedger(trees)
      modifies this
      ensures IsLedger(trees)
      ensures taken <==> IsColumn(logs) && |old(trees)| + |logs| <= CAPACITY
      ensures trees == if taken then old(trees) + Entries(logs) else old(trees)
    {
      hide IsLedger, Stem;
      if |logs| < FEWEST || |logs| > MOST || |trees| + |logs| > CAPACITY {
        return false;
      }
      BaseExists(logs.Keys);
      var base :| base in logs && forall p <- logs :: base.y <= p.y;
      ColumnFromBase(logs, base);
      if exists p <- logs :: p.world != base.world || p.x != base.x || p.z != base.z {
        return false;
      }
      if exists i :: 0 <= i < |logs| && Up(base, i) !in logs {
        return false;
      }
      RecordedLedger(trees, logs);
      trees := trees + Entries(logs);
      taken := true;
    }

    /** Forgets every tree with a registered log near a changed block, as a whole. */
    method InvalidateNear(p: Pos)
      requires IsLedger(trees)
      modifies this
      ensures IsLedger(trees) && trees == Untouched(old(trees), p)
    {
      var invalid := set q | q in trees && Near(q, p) :: trees[q];
      var rest := map q | q in trees && trees[q] !in invalid :: trees[q];
      assert rest == Untouched(trees, p);
      UntouchedIsLedger(trees, p);
      trees := rest;
    }

    method Remove(p: Pos)
      requires IsLedger(trees)
      modifies this
      ensures IsLedger(trees) && trees == old(trees) - {p}
    {
      assert (trees - {p}).Keys == trees.Keys - {p};
      trees := trees - {p};
    }
  }

  ghost function Untouched(trees: map<Pos, Tree>, p: Pos): map<Pos, Tree> {
    map q | q in trees && !(exists r :: r in trees && Near(r, p) && trees[r] == trees[q]) :: trees[q]
  }

  lemma UntouchedIsLedger(trees: map<Pos, Tree>, p: Pos)
    requires IsLedger(trees)
    ensures IsLedger(Untouched(trees, p))
  {
    var rest := Untouched(trees, p);
    assert rest.Keys <= trees.Keys;
    assert trees.Keys == rest.Keys + (trees.Keys - rest.Keys);
  }

  lemma ColumnBase(logs: map<Pos, Species>, base: Pos)
    requires IsColumn(logs) && IsBase(logs, base)
    ensures logs.Keys == Stem(base, |logs|)
  {
    var b :| b in logs && logs.Keys == Stem(b, |logs|);
    assert Up(b, 0) == b;
    assert b.y <= base.y;
  }

  /** A column, told from its lowest log. */
  lemma ColumnFromBase(logs: map<Pos, Species>, base: Pos)
    requires IsBase(logs, base) && FEWEST <= |logs| <= MOST
    ensures IsColumn(logs) <==>
      && (forall p <- logs :: p.world == base.world && p.x == base.x && p.z == base.z)
      && (forall i: nat | i < |logs| :: Up(base, i) in logs)
  {
    if IsColumn(logs) {
      ColumnBase(logs, base);
    }
    if forall i: nat | i < |logs| :: Up(base, i) in logs {
      StemSize(base, |logs|);
      SubsetOfSameSize(Stem(base, |logs|), logs.Keys);
    }
  }
}

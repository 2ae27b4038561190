/** The server's side of wood collection: single-use permits, checked again at the break. */
module ForestryGuard {
  import opened Geometry
  import opened NaturalWood
  import opened Options
  import opened TreeInspection

  type Player = nat

  datatype Permit = Permit(pos: Pos, expires: int)

  /** How long a permit lasts, in milliseconds. */
  const LIFETIME: int := 10000

  // ---------------------------------------------------------------------
  // What happened
  // ---------------------------------------------------------------------

  /** sound tells whether the inspection would have approved at that moment. */
  datatype Act =
    | Asked(player: Player, pos: Pos, now: int, granted: bool)
    | Released(player: Player)
    | Broke(player: Player, pos: Pos, now: int, sound: bool, cancelled: bool)

  type Log = seq<Act>

  /** A grant was asked for since the last release: the player is under guard. */
  ghost predicate Guarded(l: Log, player: Player)
    decreases |l|
  {
    && l != []
    && (if l[|l| - 1].player != player || l[|l| - 1].Broke? then Guarded(l[..|l| - 1], player) else l[|l| - 1].Asked?)
  }

  /** The permit a player holds. */
  ghost function Held(l: Log, player: Player): Option<Permit>
    decreases |l|
  {
    if l == [] then None
    else
      var a := l[|l| - 1];
      if a.player != player || (a.Asked? && !a.granted) then Held(l[..|l| - 1], player)
      else if a.Asked? then Some(Permit(a.pos, a.now + LIFETIME))
      else None
  }

  /** A guarded player's break goes through exactly when it holds a permit for that very
      block that has not run out, and the tree is still sound. */
  ghost predicate Permitted(l: Log, a: Act) {
    a.Broke? ==> (!a.cancelled <==> !Guarded(l, a.player) || (a.sound && Covers(Held(l, a.player), a.pos, a.now)))
  }

  predicate Covers(permit: Option<Permit>, pos: Pos, now: int) {
    permit.Some? && permit.value.pos == pos && now <= permit.value.expires
  }

  ghost predicate Lawful(l: Log)
    decreases |l|
  {
    l != [] ==> Lawful(l[..|l| - 1]) && Permitted(l[..|l| - 1], l[|l| - 1])
  }

  lemma {:induction false} LawfulThroughout(l: Log, j: nat)
    requires Lawful(l) && j < |l|
    ensures Permitted(l[..j], l[j])
    decreases |l|
  {
    if j < |l| - 1 {
      LawfulThroughout(l[..|l| - 1], j);
      assert l[..|l| - 1][..j] == l[..j];
    }
  }

  /** A grant for this block, at most ten seconds (10000 milliseconds) old, that nothing of this player's came after. */
  ghost predicate Backs(l: Log, i: nat, j: nat) {
    && i < j < |l| && l[i].Asked? && l[i].granted && l[j].Broke?
    && l[i].player == l[j].player && l[i].pos == l[j].pos
    && l[j].now <= l[i].now + 10000
    && forall k | i < k < j && l[k].player == l[i].player :: l[k].Asked? && !l[k].granted
  }

  lemma {:induction false} HeldMeansGranted(l: Log, player: Player) returns (i: nat)
    requires Held(l, player).Some?
    ensures i < |l| && l[i].Asked? && l[i].granted && l[i].player == player
    ensures Held(l, player) == Some(Permit(l[i].pos, l[i].now + LIFETIME))
    ensures forall k | i < k < |l| && l[k].player == player :: l[k].Asked? && !l[k].granted
    decreases |l|
  {
    var a := l[|l| - 1];
    if a.player != player || (a.Asked? && !a.granted) {
      i := HeldMeansGranted(l[..|l| - 1], player);
    } else {
      i := |l| - 1;
    }
  }

  lemma {:induction false} GrantedMeansHeld(l: Log, i: nat)
    requires i < |l| && l[i].Asked? && l[i].granted
    requires forall k | i < k < |l| && l[k].player == l[i].player :: l[k].Asked? && !l[k].granted
    ensures Held(l, l[i].player) == Some(Permit(l[i].pos, l[i].now + LIFETIME))
    decreases |l|
  {
    if i < |l| - 1 {
      GrantedMeansHeld(l[..|l| - 1], i);
    }
  }

  /** Main result: a guarded player gets through a break exactly if there is a grant for that block of its own,
      at most ten seconds old, and the tree is approved again at the break. */
  lemma BreakUsesGrant(l: Log, j: nat)
    requires Lawful(l) && j < |l| && l[j].Broke? && Guarded(l[..j], l[j].player)
    ensures !l[j].cancelled <==> l[j].sound && exists i :: Backs(l, i, j)
  {
    LawfulThroughout(l, j);
    hide Lawful, Guarded;
    if !l[j].cancelled {
      var i := HeldMeansGranted(l[..j], l[j].player);
      assert Backs(l, i, j);
    }
    if i: nat :| Backs(l, i, j) {
      GrantedMeansHeld(l[..j], i);
    }
  }

  /** No grant backs two breaks: a break ends what any grant before it could back. */
  lemma GrantBacksOnce(l: Log, i: nat, j: nat, k: nat)
    requires Backs(l, i, j) && Backs(l, i, k)
    ensures j == k
  {
  }

  // ---------------------------------------------------------------------
  // The guard
  // ---------------------------------------------------------------------

  class Guard {
    const ledger: Ledger
    var guardedBots: set<Player>
    var permits: map<Player, Permit>
    var mutationVersion: nat
    ghost var log: Log

    ghost predicate Valid()
      reads this, ledger
    {
      && IsLedger(ledger.trees) && Lawful(log)
      && (forall p :: p in guardedBots <==> Guarded(log, p))
      && (forall p :: (if p in permits then Some(permits[p]) else None) == Held(log, p))
      && permits.Keys <= guardedBots
    }

    constructor ()
      ensures Valid() && fresh(ledger) && log == []
    {
      ledger := new Ledger();
      guardedBots, permits, mutationVersion, log := {}, map[], 0, [];
    }

    ghost method Note(a: Act)
      requires Lawful(log) && Permitted(log, a)
      modifies this`log
      ensures log == old(log) + [a] && Lawful(log)
      ensures forall p :: Guarded(log, p) == if p == a.player && !a.Broke? then a.Asked? else Guarded(old(log), p)
      ensures forall p | p != a.player || (a.Asked? && !a.granted) :: Held(log, p) == Held(old(log), p)
      ensures a.Asked? && a.granted ==> Held(log, a.player) == Some(Permit(a.pos, a.now + LIFETIME))
      ensures !a.Asked? ==> Held(log, a.player) == None
    {
      assert (log + [a])[..|log|] == log;
      log := log + [a];
    }

    /** On release, and when the player leaves. */
    method Release(player: Player)
      requires Valid()
      modifies this
      ensures Valid() && log == old(log) + [Released(player)] && mutationVersion == old(mutationVersion)
    {
      hide Lawful, Guarded, Held, IsLedger;
      Note(Released(player));
      permits := permits - {player};
      guardedBots := guardedBots - {player};
    }

    /** Inspects a log, and with grant puts the player under guard and hands out a permit for
        it, if it is the highest one left and within reach. */
    method Inspect(player: Player, bot: Bot, v: View, p: Pos, grant: bool, now: int) returns (verdict: Verdict)
      requires Valid()
      modifies this
      ensures Valid() && mutationVersion == old(mutationVersion)
      ensures log == if grant then old(log) + [Asked(player, p, now, verdict.allowed)] else old(log)
      ensures verdict.allowed <==> exists logs :: Approves(v, ledger.trees, bot, p, logs)
                                           && (grant ==> logs != [] && logs[0] == p && InReach(bot, p))
      ensures verdict.allowed ==> Approves(v, ledger.trees, bot, p, verdict.logs)
      ensures verdict.reason == ReachOrOrder <==>
        !verdict.allowed && exists logs :: Approves(v, ledger.trees, bot, p, logs)
    {
      hide Lawful, Guarded, Held, IsLedger, Approves, SquaredDistance, InReach;
      verdict := TreeInspection.Inspect(v, ledger.trees, bot, p);
      if verdict.allowed {
        Nonempty(v, ledger.trees, bot, p, verdict.logs);
        SameList(v, ledger.trees, bot, p);
      }
      if grant {
        guardedBots := guardedBots + {player};
        if verdict.allowed && (verdict.logs[0] != p || !InReach(bot, p)) {
          verdict := Denied(ReachOrOrder);
        }
        Note(Asked(player, p, now, verdict.allowed));
        if verdict.allowed {
          permits := permits[player := Permit(p, now + LIFETIME)];
        }
      }
    }

    /** The break event: a guarded player uses up its permit, whatever comes of it. */
    method Breaking(player: Player, bot: Bot, v: View, p: Pos, now: int) returns (cancelled: bool)
      requires Valid()
      modifies this
      ensures Valid() && mutationVersion == old(mutationVersion)
      ensures var sound := exists logs :: Approves(v, ledger.trees, bot, p, logs);
        log == old(log) + [Broke(player, p, now, sound, cancelled)]
    {
      hide Lawful, Guarded, Held, IsLedger, Approves;
      ghost var sound := exists logs :: Approves(v, ledger.trees, bot, p, logs);
      if player !in guardedBots {
        Note(Broke(player, p, now, sound, false));
        return false;
      }
      var permit := if player in permits then Some(permits[player]) else None;
      permits := permits - {player};
      cancelled := permit.None? || permit.value.expires < now || permit.value.pos != p;
      if !cancelled {
        var verdict := TreeInspection.Inspect(v, ledger.trees, bot, p);
        cancelled := !verdict.allowed;
      }
      assert permit == Held(log, player);
      Note(Broke(player, p, now, sound, cancelled));
    }

    /** After a break that went through: a guarded player's log leaves the ledger, anyone
        else's break casts doubt on the trees around. */
    method Broken(player: Player, p: Pos)
      requires Valid()
      modifies this, ledger
      ensures Valid() && log == old(log) && mutationVersion == old(mutationVersion) + 1
      ensures ledger.trees == if Guarded(log, player) then old(ledger.trees) - {p} else Untouched(old(ledger.trees), p)
    {
      mutationVersion := mutationVersion + 1;
      if player in guardedBots {
        ledger.Remove(p);
      } else {
        ledger.InvalidateNear(p);
      }
    }

    /** Blocks placed, pushed or blown up: every tree with a log near one of them is
        forgotten as a whole, and no other. */
    method Changed(ps: seq<Pos>)
      requires Valid()
      modifies this, ledger
      ensures Valid() && log == old(log) && mutationVersion == old(mutationVersion) + 1
      ensures ledger.trees == Spared(old(ledger.trees), ps)
    {
      hide Lawful, Guarded, Held, IsLedger, Spared, Untouched;
      mutationVersion := mutationVersion + 1;
      NoneChanged(ledger.trees);
      for i := 0 to |ps|
        invariant Valid() && log == old(log) && mutationVersion == old(mutationVersion) + 1
        invariant ledger.trees == Spared(old(ledger.trees), ps[..i])
      {
        SparedOneMore(old(ledger.trees), ps[..i], ps[i]);
        assert ps[..i] + [ps[i]] == ps[..i + 1];
        ledger.InvalidateNear(ps[i]);
      }
      assert ps[..|ps|] == ps;
    }

    /** The tick after a tree grew: it is recorded only when nothing was changed in between
        and the world shows exactly the logs that were announced. */
    method GrowthSettled(version: nat, cancelled: bool, logs: map<Pos, Species>, v: View) returns (taken: bool)
      requires Valid()
      modifies ledger
      ensures Valid()
      ensures taken <==>
        && !cancelled && version == mutationVersion && Shows(v, logs)
        && IsColumn(logs) && |old(ledger.trees)| + |logs| <= CAPACITY
      ensures ledger.trees == if taken then old(ledger.trees) + Entries(logs) else old(ledger.trees)
    {
      if cancelled || version != mutationVersion {
        return false;
      }
      if !Shows(v, logs) {
        return false;
      }
      taken := ledger.Record(logs);
    }
  }

  predicate Shows(v: View, logs: map<Pos, Species>) {
    forall p <- logs :: v.loaded(p.x / 16, p.z / 16) && v.block(p) == Material.Log(logs[p])
  }

  lemma Nonempty(v: View, trees: map<Pos, Tree>, bot: Bot, p: Pos, logs: seq<Pos>)
    requires Approves(v, trees, bot, p, logs)
    ensures logs != []
  {
  }

  lemma SameList(v: View, trees: map<Pos, Tree>, bot: Bot, p: Pos)
    requires IsLedger(trees)
    ensures forall l, m | Approves(v, trees, bot, p, l) && Approves(v, trees, bot, p, m) :: l == m
  {
    if p in trees {
      BaseExists(trees[p].logs.Keys);
      var base :| base in trees[p].logs && forall q <- trees[p].logs :: base.y <= q.y;
      OneBase(trees[p], base);
    }
  }

  /** The trees with no registered log near any of the blocks. */
  ghost function Spared(trees: map<Pos, Tree>, ps: seq<Pos>): map<Pos, Tree> {
    map q | q in trees && !(exists r, p :: r in trees && p in ps && Near(r, p) && trees[r] == trees[q]) :: trees[q]
  }

  lemma NoneChanged(trees: map<Pos, Tree>)
    ensures Spared(trees, []) == trees
  {
  }

  lemma SparedOneMore(trees: map<Pos, Tree>, ps: seq<Pos>, p: Pos)
    ensures Untouched(Spared(trees, ps), p) == Spared(trees, ps + [p])
  {
    hide Near;
    var some := Spared(trees, ps);
    forall q | q in some && q !in Spared(trees, ps + [p])
      ensures exists r :: r in some && Near(r, p) && some[r] == some[q]
    {
      var r, p' :| r in trees && p' in ps + [p] && Near(r, p') && trees[r] == trees[q];
      assert p' == p && r in some;
    }
  }
}

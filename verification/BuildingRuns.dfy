/** What whole runs of advances, restarts and rollbacks do. */
module BuildingRuns {
  import opened Building
  import opened Options

  // ---------------------------------------------------------------------
  // Placing every block exactly once
  // ---------------------------------------------------------------------

  /** One action on a building site. A restart writes the checkpoint out and reads it back. */
  datatype Action =
    | Go(requirements: Requirements, inventory: map<string, int>)
    | Restart
    | RollBackLast(failed: Option<Phase>)

  /** standing is what was issued and not rolled back; last is the latest batch, until it is rolled back. */
  datatype Site = Site(checkpoint: Checkpoint, standing: seq<PlacementTask>, last: seq<PlacementTask>)

  function Act(s: Site, a: Action, layout: seq<PlacementTask>, batchSize: int): Site
    requires |s.last| <= |s.standing|
  {
    match a
    case Go(requirements, inventory) =>
      var r := Advance(s.checkpoint, requirements, inventory, layout, batchSize);
      Site(r.checkpoint, s.standing + r.batch, r.batch)
    case Restart => Site(Restored(ToDict(s.checkpoint)), s.standing, s.last)
    case RollBackLast(failed) =>
      Site(Rollback(s.checkpoint, failed, s.last), s.standing[..|s.standing| - |s.last|], [])
  }

  /** The phase a rollback starts from decides whether it takes back the last batch or everything. */
  predicate TakesBackOneBatch(cp: Checkpoint, failed: Option<Phase>) {
    var phase := if failed.Some? then failed.value else cp.phase;
    phase == Placement || phase == Inspection
  }

  predicate Undoable(s: Site, a: Action) {
    a.RollBackLast? ==> TakesBackOneBatch(s.checkpoint, a.failed) || |s.standing| == |s.last|
  }

  /** What stands is the part of the layout that the counter says is placed. */
  ghost predicate InStep(s: Site, layout: seq<PlacementTask>) {
    && 0 <= s.checkpoint.placed <= |layout|
    && s.standing == layout[..s.checkpoint.placed]
    && |s.last| <= |s.standing| && s.last == s.standing[|s.standing| - |s.last|..]
  }

  lemma AdvanceIssuesTheNextStretch(cp: Checkpoint, requirements: Requirements, inventory: map<string, int>,
                                    layout: seq<PlacementTask>, batchSize: int)
    requires 0 <= cp.placed <= |layout|
    ensures var r := Advance(cp, requirements, inventory, layout, batchSize);
      && r.checkpoint.placed == Least(cp.placed + (if batchSize < 1 then 1 else batchSize), |layout|)
      && r.batch == layout[cp.placed..r.checkpoint.placed]
  {
  }

  lemma AdvanceKeepsInStep(s: Site, requirements: Requirements, inventory: map<string, int>,
                           layout: seq<PlacementTask>, batchSize: int)
    requires InStep(s, layout)
    ensures InStep(Act(s, Go(requirements, inventory), layout, batchSize), layout)
  {
    AdvanceIssuesTheNextStretch(s.checkpoint, requirements, inventory, layout, batchSize);
    hide Advance;
    var s' := Act(s, Go(requirements, inventory), layout, batchSize);
    assert s'.standing == layout[..s'.checkpoint.placed];
  }

  lemma RestartKeepsInStep(s: Site, layout: seq<PlacementTask>, batchSize: int)
    requires InStep(s, layout)
    ensures InStep(Act(s, Restart, layout, batchSize), layout)
  {
    RestoredDumpIsCanonical(s.checkpoint);
    hide Restored, ToDict;
  }

  lemma RollbackKeepsInStep(s: Site, failed: Option<Phase>, layout: seq<PlacementTask>, batchSize: int)
    requires InStep(s, layout) && Undoable(s, RollBackLast(failed))
    ensures InStep(Act(s, RollBackLast(failed), layout, batchSize), layout)
  {
    var s' := Act(s, RollBackLast(failed), layout, batchSize);
    if TakesBackOneBatch(s.checkpoint, failed) {
      assert s'.checkpoint.placed == s.checkpoint.placed - |s.last|;
    } else {
      assert s'.standing == [];
    }
    assert s'.standing == layout[..s'.checkpoint.placed];
  }

  /** Every action that is not a rollback to the survey keeps the site in step. */
  lemma ActKeepsInStep(s: Site, a: Action, layout: seq<PlacementTask>, batchSize: int)
    requires InStep(s, layout) && Undoable(s, a)
    ensures InStep(Act(s, a, layout, batchSize), layout)
  {
    match a {
      case Go(requirements, inventory) => AdvanceKeepsInStep(s, requirements, inventory, layout, batchSize);
      case Restart => RestartKeepsInStep(s, layout, batchSize);
      case RollBackLast(failed) => RollbackKeepsInStep(s, failed, layout, batchSize);
    }
  }

  /** Main result, one step of every run: a rollback that falls back to the survey forgets blocks
      that still stand, unless the last batch was all there was. */
  lemma InStepIffUndoable(s: Site, a: Action, layout: seq<PlacementTask>, batchSize: int)
    requires InStep(s, layout)
    ensures InStep(Act(s, a, layout, batchSize), layout) <==> Undoable(s, a)
  {
    if Undoable(s, a) {
      ActKeepsInStep(s, a, layout, batchSize);
    } else {
      assert |Act(s, a, layout, batchSize).standing| > 0;
    }
  }

  ghost predicate Undoables(s: Site, actions: seq<Action>, layout: seq<PlacementTask>, batchSize: int)
    requires InStep(s, layout)
    decreases |actions|
  {
    actions == [] ||
    (Undoable(s, actions[0]) &&
     (ActKeepsInStep(s, actions[0], layout, batchSize);
      Undoables(Act(s, actions[0], layout, batchSize), actions[1..], layout, batchSize)))
  }

  ghost function Run(s: Site, actions: seq<Action>, layout: seq<PlacementTask>, batchSize: int): (s': Site)
    requires InStep(s, layout) && Undoables(s, actions, layout, batchSize)
    ensures InStep(s', layout)
    decreases |actions|
  {
    if actions == [] then s
    else
      ActKeepsInStep(s, actions[0], layout, batchSize);
      Run(Act(s, actions[0], layout, batchSize), actions[1..], layout, batchSize)
  }

  predicate OnlyForward(actions: seq<Action>) {
    forall a | a in actions :: !a.RollBackLast?
  }

  function Goes(actions: seq<Action>): nat {
    if actions == [] then 0 else (if actions[0].Go? then 1 else 0) + Goes(actions[1..])
  }

  lemma {:induction false} ForwardIsUndoable(s: Site, actions: seq<Action>, layout: seq<PlacementTask>, batchSize: int)
    requires InStep(s, layout) && OnlyForward(actions)
    ensures Undoables(s, actions, layout, batchSize)
    decreases |actions|
  {
    if actions != [] {
      assert actions[0] in actions;
      ActKeepsInStep(s, actions[0], layout, batchSize);
      ForwardIsUndoable(Act(s, actions[0], layout, batchSize), actions[1..], layout, batchSize);
    }
  }

  function BatchSize(n: int): nat {
    if n < 1 then 1 else n
  }

  lemma ForwardPlaces(s: Site, a: Action, layout: seq<PlacementTask>, batchSize: int)
    requires InStep(s, layout) && !a.RollBackLast?
    ensures InStep(Act(s, a, layout, batchSize), layout)
    ensures Act(s, a, layout, batchSize).checkpoint.placed
         == if a.Go? then Least(s.checkpoint.placed + BatchSize(batchSize), |layout|) else s.checkpoint.placed
  {
    ActKeepsInStep(s, a, layout, batchSize);
    match a {
      case Go(requirements, inventory) =>
        AdvanceIssuesTheNextStretch(s.checkpoint, requirements, inventory, layout, batchSize);
      case Restart => RestoredDumpIsCanonical(s.checkpoint);
    }
  }

  lemma LeastAbsorbs(p: int, b: nat, m: nat, n: int)
    ensures Least(Least(p + b, n) + m, n) == Least(p + b + m, n)
  {
  }

  lemma StandingIsPlaced(s: Site, layout: seq<PlacementTask>)
    requires InStep(s, layout)
    ensures 0 <= s.checkpoint.placed <= |layout| && s.standing == layout[..s.checkpoint.placed]
    ensures |s.last| <= |s.standing|
  {
  }

  /** Main result: k advances, with restarts anywhere between them and whatever the inventories,
      place k batches more, each block once and in layout order; ceil(N / b) advances place them all. */
  lemma {:induction false} AdvancesPlaceInOrder(s: Site, actions: seq<Action>, layout: seq<PlacementTask>,
                                                batchSize: int)
    requires InStep(s, layout) && OnlyForward(actions)
    ensures Undoables(s, actions, layout, batchSize)
    ensures var n := Least(s.checkpoint.placed + Goes(actions) * BatchSize(batchSize), |layout|);
      && Run(s, actions, layout, batchSize).checkpoint.placed == n
      && 0 <= n && Run(s, actions, layout, batchSize).standing == layout[..n]
    decreases |actions|
  {
    hide Act, InStep, Undoable, BatchSize, OnlyForward, Goes;
    ForwardIsUndoable(s, actions, layout, batchSize);
    StandingIsPlaced(s, layout);
    if actions != [] {
      ForwardTail(actions);
      ForwardPlaces(s, actions[0], layout, batchSize);
      AdvancesPlaceInOrder(Act(s, actions[0], layout, batchSize), actions[1..], layout, batchSize);
      GoesStep(actions, BatchSize(batchSize));
      LeastAbsorbs(s.checkpoint.placed, BatchSize(batchSize), Goes(actions[1..]) * BatchSize(batchSize), |layout|);
    } else {
      NoGoes(BatchSize(batchSize));
    }
  }

  lemma {:induction false} GoesStep(actions: seq<Action>, b: nat)
    requires actions != []
    ensures Goes(actions) * b == Goes(actions[1..]) * b + (if actions[0].Go? then b else 0)
    ensures Goes(actions[1..]) * b >= 0
  {
  }

  lemma NoGoes(b: nat)
    ensures Goes([]) * b == 0
  {
  }

  lemma ForwardTail(actions: seq<Action>)
    requires OnlyForward(actions) && actions != []
    ensures OnlyForward(actions[1..]) && !actions[0].RollBackLast?
  {
    assert actions[0] in actions;
  }

  /** Taking a batch back restores the count exactly when the rollback starts from placement or
      inspection or nothing was placed before; and advancing again then issues the same stretch
      of the layout, whatever the requirements and inventories. */
  lemma RollbackReissuesIff(cp: Checkpoint, failed: Option<Phase>, r1: Requirements, i1: map<string, int>,
                            layout: seq<PlacementTask>, batchSize: int)
    requires 0 <= cp.placed < |layout|
    ensures var r := Advance(cp, r1, i1, layout, batchSize);
      (Rollback(r.checkpoint, failed, r.batch).placed == cp.placed)
        == (TakesBackOneBatch(r.checkpoint, failed) || cp.placed == 0)
    ensures var r := Advance(cp, r1, i1, layout, batchSize);
      forall r2, i2 :: TakesBackOneBatch(r.checkpoint, failed) || cp.placed == 0 ==>
        Advance(Rollback(r.checkpoint, failed, r.batch), r2, i2, layout, batchSize).batch == r.batch
  {
  }

  /** Without a named phase, a batch issued while material was short is not taken back alone:
      the whole building starts again. */
  lemma UnnamedRollbackAfterShortage(cp: Checkpoint, requirements: Requirements, inventory: map<string, int>,
                                     layout: seq<PlacementTask>, batchSize: int)
    requires 0 <= cp.placed < |layout|
    ensures var r := Advance(cp, requirements, inventory, layout, batchSize);
      TakesBackOneBatch(r.checkpoint, None) <==> r.procurement == map[]
  {
  }

  // ---------------------------------------------------------------------
  // Restarts are invisible
  // ---------------------------------------------------------------------

  lemma CanonicalLookup(cp: Checkpoint, k: string)
    ensures Clamp(Lookup(Canonical(cp).reserved, k)) == Clamp(Lookup(cp.reserved, k))
  {
  }

  lemma SamePlans(cp: Checkpoint, requirements: Requirements, inventory: map<string, int>)
    ensures ProcurementPlan(requirements, inventory, Canonical(cp).reserved)
         == ProcurementPlan(requirements, inventory, cp.reserved)
    ensures Reservations(requirements, inventory, Canonical(cp).reserved)
         == Reservations(requirements, inventory, cp.reserved)
  {
    hide Canonical, Clamp, Lookup, Least;
    forall k: string
      ensures Clamp(Lookup(Canonical(cp).reserved, k)) == Clamp(Lookup(cp.reserved, k))
    {
      CanonicalLookup(cp, k);
    }
  }

  /** Advancing from what was read back plans the same, batch for batch, and leads to the same checkpoint,
      up to what the next restart would drop. */
  lemma AdvanceIgnoresRestart(cp: Checkpoint, requirements: Requirements, inventory: map<string, int>,
                              layout: seq<PlacementTask>, batchSize: int)
    ensures var r, r' := Advance(cp, requirements, inventory, layout, batchSize),
                         Advance(Restored(ToDict(cp)), requirements, inventory, layout, batchSize);
      && r'.procurement == r.procurement && r'.batch == r.batch
      && r'.checkpoint.phase == r.checkpoint.phase && r'.checkpoint.reserved == r.checkpoint.reserved
      && Canonical(r'.checkpoint) == Canonical(r.checkpoint)
  {
    RestoredDumpIsCanonical(cp);
    SamePlans(cp, requirements, inventory);
    hide ProcurementPlan, Reservations;
  }

  lemma RollbackIgnoresRestart(cp: Checkpoint, failed: Option<Phase>, attempted: seq<PlacementTask>)
    ensures Canonical(Rollback(Restored(ToDict(cp)), failed, attempted)) == Canonical(Rollback(cp, failed, attempted))
  {
    RestoredDumpIsCanonical(cp);
  }

  /** The plans a run of advances and rollbacks hands out, with a restart before each one or with none. */
  datatype Order =
    | Forward(requirements: Requirements, inventory: map<string, int>)
    | Back(failed: Option<Phase>, attempted: seq<PlacementTask>)

  function Follow(cp: Checkpoint, o: Order, layout: seq<PlacementTask>, batchSize: int): Advanced {
    match o
    case Forward(requirements, inventory) => Advance(cp, requirements, inventory, layout, batchSize)
    case Back(failed, attempted) => Advanced(Rollback(cp, failed, attempted), map[], [])
  }

  function Plans(cp: Checkpoint, orders: seq<Order>, restarts: seq<bool>, layout: seq<PlacementTask>, batchSize: int)
    : seq<(map<string, int>, seq<PlacementTask>, Phase)>
    requires |restarts| == |orders|
    decreases |orders|
  {
    if orders == [] then []
    else
      var r := Follow(if restarts[0] then Restored(ToDict(cp)) else cp, orders[0], layout, batchSize);
      [(r.procurement, r.batch, r.checkpoint.phase)]
      + Plans(r.checkpoint, orders[1..], restarts[1..], layout, batchSize)
  }

  lemma FollowIgnoresRestart(cp: Checkpoint, cp': Checkpoint, o: Order, layout: seq<PlacementTask>, batchSize: int)
    requires Canonical(cp) == Canonical(cp')
    ensures var r, r' := Follow(cp, o, layout, batchSize), Follow(cp', o, layout, batchSize);
      r.procurement == r'.procurement && r.batch == r'.batch && r.checkpoint.phase == r'.checkpoint.phase
      && Canonical(r.checkpoint) == Canonical(r'.checkpoint)
  {
    RestoredDumpIsCanonical(cp);
    RestoredDumpIsCanonical(cp');
    match o {
      case Forward(requirements, inventory) =>
        AdvanceIgnoresRestart(cp, requirements, inventory, layout, batchSize);
        AdvanceIgnoresRestart(cp', requirements, inventory, layout, batchSize);
      case Back(failed, attempted) =>
        RollbackIgnoresRestart(cp, failed, attempted);
        RollbackIgnoresRestart(cp', failed, attempted);
    }
  }

  /** Main result: wherever a run is interrupted and resumed from what was stored, every later
      procurement plan, batch and phase is what it would have been without the interruption. */
  lemma {:induction false} RestartsAreInvisible(cp: Checkpoint, cp': Checkpoint, orders: seq<Order>,
      restarts: seq<bool>, restarts': seq<bool>, layout: seq<PlacementTask>, batchSize: int)
    requires Canonical(cp) == Canonical(cp') && |restarts| == |orders| == |restarts'|
    ensures Plans(cp, orders, restarts, layout, batchSize) == Plans(cp', orders, restarts', layout, batchSize)
    decreases |orders|
  {
    if orders != [] {
      var c := if restarts[0] then Restored(ToDict(cp)) else cp;
      var c' := if restarts'[0] then Restored(ToDict(cp')) else cp';
      RestoredDumpIsCanonical(cp);
      RestoredDumpIsCanonical(cp');
      FollowIgnoresRestart(c, c', orders[0], layout, batchSize);
      RestartsAreInvisible(
        Follow(c, orders[0], layout, batchSize).checkpoint, Follow(c', orders[0], layout, batchSize).checkpoint,
        orders[1..], restarts[1..], restarts'[1..], layout, batchSize);
    }
  }

  // ---------------------------------------------------------------------
  // Reservations
  // ---------------------------------------------------------------------

  /** What is reserved and what is still to procure add up to what is required. */
  lemma ProcurementIdentity(requirements: Requirements, inventory: map<string, int>, reserved: map<string, int>,
                            k: string)
    requires k in requirements && requirements[k].Some?
    ensures Lookup(ProcurementPlan(requirements, inventory, reserved), k)
          + Reservations(requirements, inventory, reserved)[k] == Clamp(requirements[k].value)
    ensures Clamp(Lookup(reserved, k)) <= Clamp(requirements[k].value)
      ==> Reservations(requirements, inventory, reserved)[k] >= Clamp(Lookup(reserved, k))
  {
  }

  /** The plan asks for what the inventory lacks exactly when nothing is reserved yet or the
      inventory suffices: a reservation made from the inventory is counted on top of it. */
  lemma PlanCoversShortageIff(required: int, available: int, reserved: int)
    ensures MissingOf(required, available, reserved) == Clamp(Clamp(required) - Clamp(available))
       <==> Clamp(reserved) == 0 || Clamp(available) >= Clamp(required)
  {
  }

  /** A new building after n advances with the same requirements and inventory shown every time. */
  function Repeated(n: nat, requirements: Requirements, inventory: map<string, int>, layout: seq<PlacementTask>,
                    batchSize: int): Checkpoint {
    if n == 0 then DEFAULT
    else
      var cp := Repeated(n - 1, requirements, inventory, layout, batchSize);
      Advance(cp, requirements, inventory, layout, batchSize).checkpoint
  }

  /** What one advance does to one reservation and one entry of the procurement plan. */
  lemma AdvanceReserves(cp: Checkpoint, requirements: Requirements, inventory: map<string, int>,
                        layout: seq<PlacementTask>, batchSize: int, k: string)
    requires k in requirements && requirements[k].Some?
    ensures var r := Advance(cp, requirements, inventory, layout, batchSize);
      && Lookup(r.checkpoint.reserved, k)
         == ReservationOf(requirements[k].value, Lookup(inventory, k), Lookup(cp.reserved, k))
      && (k !in r.procurement <==> MissingOf(requirements[k].value, Lookup(inventory, k), Lookup(cp.reserved, k)) == 0)
  {
  }

  /** n advances reserve n times what is there, as far as it is required. */
  lemma {:induction false} ReservationsAccumulate(n: nat, requirements: Requirements, inventory: map<string, int>,
                                                  layout: seq<PlacementTask>, batchSize: int, k: string)
    requires k in requirements && requirements[k].Some?
    ensures Lookup(Repeated(n, requirements, inventory, layout, batchSize).reserved, k)
         == Least(Clamp(requirements[k].value), n * Clamp(Lookup(inventory, k)))
  {
    hide Advance, Lookup;
    var available := Clamp(Lookup(inventory, k));
    if n > 0 {
      ReservationsAccumulate(n - 1, requirements, inventory, layout, batchSize, k);
      AdvanceReserves(Repeated(n - 1, requirements, inventory, layout, batchSize), requirements, inventory, layout,
        batchSize, k);
      assert n * available == (n - 1) * available + available;
      assert (n - 1) * available >= 0;
    } else {
      NothingReserved(k);
      assert 0 * available == 0;
    }
  }

  lemma NothingReserved(k: string)
    ensures Lookup(DEFAULT.reserved, k) == 0
  {
  }

  /** Main result: a shortage is reported as covered, with nothing procured, as soon as the number of
      advances times the stock reaches the requirement, and not before. */
  lemma ShortageVanishesIff(n: nat, requirements: Requirements, inventory: map<string, int>,
                            layout: seq<PlacementTask>, batchSize: int, k: string)
    requires k in requirements && requirements[k].Some?
    ensures var cp := Repeated(n, requirements, inventory, layout, batchSize);
      k !in Advance(cp, requirements, inventory, layout, batchSize).procurement
      <==> (n + 1) * Clamp(Lookup(inventory, k)) >= Clamp(requirements[k].value)
  {
    hide Advance, Lookup;
    var available := Clamp(Lookup(inventory, k));
    ReservationsAccumulate(n, requirements, inventory, layout, batchSize, k);
    AdvanceReserves(Repeated(n, requirements, inventory, layout, batchSize), requirements, inventory, layout,
      batchSize, k);
    assert (n + 1) * available == n * available + available;
    assert n * available >= 0;
  }
}

/** Resumable building: what to procure, which blocks to place next, and how a
    checkpoint moves, is written out, read back and rolled back. */
module Building {
  import opened Options

  datatype Phase = Survey | Procurement | Placement | Inspection

  datatype PlacementTask = PlacementTask(block: string, coords: (int, int, int))

  datatype Checkpoint = Checkpoint(phase: Phase, reserved: map<string, int>, placed: int)

  const DEFAULT := Checkpoint(Survey, map[], 0)

  /** A stored checkpoint of unknown quality. None is a missing entry or one that is no number. */
  datatype Raw = NotAMapping
               | Raw(phase: Option<string>, reserved: Option<map<string, Option<int>>>, placed: Option<int>)

  /** One layout entry as it is supplied: a task, something with a usable name and position, or neither. */
  datatype Entry = Task(task: PlacementTask) | Described(block: string, coords: (int, int, int)) | Unusable

  /** None is a requirement that is no number, and is ignored. */
  type Requirements = map<string, Option<int>>

  function Least(a: int, b: int): int {
    if a < b then a else b
  }

  function Clamp(n: int): int {
    if n < 0 then 0 else n
  }

  function Lookup(m: map<string, int>, k: string): int {
    if k in m then m[k] else 0
  }

  // ---------------------------------------------------------------------
  // Writing and reading checkpoints
  // ---------------------------------------------------------------------

  function PhaseName(p: Phase): string {
    match p
    case Survey => "survey"
    case Procurement => "procurement"
    case Placement => "placement"
    case Inspection => "inspection"
  }

  function PhaseOf(name: string): Phase {
    if name == "procurement" then Procurement
    else if name == "placement" then Placement
    else if name == "inspection" then Inspection
    else Survey
  }

  function ToDict(cp: Checkpoint): Raw {
    Raw(Some(PhaseName(cp.phase)), Some(map k | k in cp.reserved :: Some(cp.reserved[k])), Some(cp.placed))
  }

  /** The usable part of the stored reservations: whole numbers above zero. */
  function Usable(raw: map<string, Option<int>>): map<string, int> {
    map k | k in raw && raw[k].Some? && raw[k].value > 0 :: raw[k].value
  }

  function Restored(raw: Raw): Checkpoint {
    match raw
    case NotAMapping => DEFAULT
    case Raw(phase, reserved, placed) => Checkpoint(
      if phase.Some? then PhaseOf(phase.value) else Survey,
      if reserved.Some? then Usable(reserved.value) else map[],
      if placed.Some? then Clamp(placed.value) else 0)
  }

  method RestoreCheckpoint(raw: Raw) returns (cp: Checkpoint)
    ensures cp == Restored(raw)
  {
    if raw.NotAMapping? {
      return DEFAULT;
    }
    var phase := if raw.phase.Some? then PhaseOf(raw.phase.value) else Survey;
    var reserved: map<string, int> := map[];
    if raw.reserved.Some? {
      var items := raw.reserved.value;
      var todo := items.Keys;
      while todo != {}
        invariant todo <= items.Keys
        invariant reserved == map k | k in items && k !in todo && items[k].Some? && items[k].value > 0 :: items[k].value
        decreases todo
      {
        var key :| key in todo;
        todo := todo - {key};
        if items[key].Some? && items[key].value > 0 {
          reserved := reserved[key := items[key].value];
        }
      }
    }
    cp := Checkpoint(phase, reserved, if raw.placed.Some? then Clamp(raw.placed.value) else 0);
  }

  /** What survives of a checkpoint when it is written and read back. */
  function Canonical(cp: Checkpoint): Checkpoint {
    Checkpoint(cp.phase, map k | k in cp.reserved && cp.reserved[k] > 0 :: cp.reserved[k], Clamp(cp.placed))
  }

  lemma RestoredDumpIsCanonical(cp: Checkpoint)
    ensures Restored(ToDict(cp)) == Canonical(cp)
    ensures Canonical(Canonical(cp)) == Canonical(cp)
  {
    assert PhaseOf(PhaseName(cp.phase)) == cp.phase;
  }

  // ---------------------------------------------------------------------
  // Procurement and reservations
  // ---------------------------------------------------------------------

  function MissingOf(required: int, available: int, reserved: int): int {
    Clamp(required) - Least(Clamp(required), Clamp(available) + Clamp(reserved))
  }

  function ProcurementPlan(requirements: Requirements, inventory: map<string, int>,
                           reserved: map<string, int>): map<string, int> {
    map k | k in requirements && requirements[k].Some?
            && MissingOf(requirements[k].value, Lookup(inventory, k), Lookup(reserved, k)) > 0
      :: MissingOf(requirements[k].value, Lookup(inventory, k), Lookup(reserved, k))
  }

  lemma MissingIs(required: int, available: int, reserved: int)
    ensures MissingOf(required, available, reserved)
         == Clamp(required) - Least(Clamp(required), Clamp(available) + Clamp(reserved))
  {
  }

  method PlanMaterialProcurement(requirements: Requirements, inventory: map<string, int>, reserved: map<string, int>)
    returns (plan: map<string, int>)
    ensures plan == ProcurementPlan(requirements, inventory, reserved)
  {
    hide MissingOf, Clamp, Least, Lookup;
    plan := map[];
    var todo := requirements.Keys;
    while todo != {}
      invariant todo <= requirements.Keys
      invariant plan == map k | k in ProcurementPlan(requirements, inventory, reserved) && k !in todo
          :: ProcurementPlan(requirements, inventory, reserved)[k]
      decreases todo
    {
      var name :| name in todo;
      todo := todo - {name};
      if requirements[name].Some? {
        var required := Clamp(requirements[name].value);
        var available := Clamp(Lookup(inventory, name));
        var alreadyReserved := Clamp(Lookup(reserved, name));
        var missing := required - Least(required, available + alreadyReserved);
        MissingIs(requirements[name].value, Lookup(inventory, name), Lookup(reserved, name));
        if missing > 0 {
          plan := plan[name := missing];
        }
      }
    }
  }

  function ReservationOf(required: int, available: int, reserved: int): int {
    Least(Clamp(required), Clamp(reserved) + Clamp(available))
  }

  function Reservations(requirements: Requirements, inventory: map<string, int>,
                        reserved: map<string, int>): map<string, int> {
    map k | k in requirements && requirements[k].Some?
      :: ReservationOf(requirements[k].value, Lookup(inventory, k), Lookup(reserved, k))
  }

  method SynchronizeReservedMaterials(requirements: Requirements, inventory: map<string, int>,
                                      reserved: map<string, int>)
    returns (synchronized: map<string, int>)
    ensures synchronized == Reservations(requirements, inventory, reserved)
  {
    synchronized := map[];
    var todo := requirements.Keys;
    while todo != {}
      invariant todo <= requirements.Keys
      invariant synchronized == map k | k in Reservations(requirements, inventory, reserved) && k !in todo
          :: Reservations(requirements, inventory, reserved)[k]
      decreases todo
    {
      var name :| name in todo;
      todo := todo - {name};
      if requirements[name].Some? {
        var required := Clamp(requirements[name].value);
        var existing := Clamp(Lookup(reserved, name));
        var available := Clamp(Lookup(inventory, name));
        synchronized := synchronized[name := Least(required, existing + available)];
      }
    }
  }

  // ---------------------------------------------------------------------
  // Layout and batches
  // ---------------------------------------------------------------------

  /** The task an entry stands for, if any. */
  function Accepted(e: Entry): seq<PlacementTask> {
    match e
    case Task(task) => [task]
    case Described(block, coords) => [PlacementTask(block, coords)]
    case Unusable => []
  }

  function Normalized(layout: seq<Entry>): seq<PlacementTask> {
    if layout == [] then [] else Normalized(layout[..|layout| - 1]) + Accepted(layout[|layout| - 1])
  }

  method NormalizeLayout(layout: seq<Entry>) returns (tasks: seq<PlacementTask>)
    ensures tasks == Normalized(layout)
  {
    tasks := [];
    for i := 0 to |layout|
      invariant tasks == Normalized(layout[..i])
    {
      assert layout[..i + 1][..i] == layout[..i];
      match layout[i] {
        case Task(task) => tasks := tasks + [task];
        case Described(block, coords) => tasks := tasks + [PlacementTask(block, coords)];
        case Unusable =>
      }
    }
    assert layout[..|layout|] == layout;
  }

  function AsEntries(tasks: seq<PlacementTask>): (entries: seq<Entry>)
    ensures |entries| == |tasks| && forall i | 0 <= i < |tasks| :: entries[i] == Task(tasks[i])
  {
    seq(|tasks|, i requires 0 <= i < |tasks| => Task(tasks[i]))
  }

  /** A normalized layout may be normalized again, as advancing does. */
  lemma {:induction false} NormalizedTwice(tasks: seq<PlacementTask>)
    ensures Normalized(AsEntries(tasks)) == tasks
  {
    if tasks != [] {
      NormalizedTwice(tasks[..|tasks| - 1]);
      assert AsEntries(tasks)[..|tasks| - 1] == AsEntries(tasks[..|tasks| - 1]);
      assert tasks == tasks[..|tasks| - 1] + [tasks[|tasks| - 1]];
    }
  }

  /** Where the next batch starts and ends. */
  function Start(placed: int, total: nat): nat {
    Least(Clamp(placed), total)
  }

  function End(placed: int, total: nat, batchSize: int): nat {
    Least(Start(placed, total) + (if batchSize < 1 then 1 else batchSize), total)
  }

  function Batch(layout: seq<PlacementTask>, placed: int, batchSize: int): seq<PlacementTask> {
    layout[Start(placed, |layout|)..End(placed, |layout|, batchSize)]
  }

  function TransitionPhase(current: Phase, procurement: map<string, int>, batch: seq<PlacementTask>, total: nat,
                           placed: int): Phase {
    if procurement != map[] then Procurement
    else if batch != [] then Placement
    else if total > 0 && placed >= total then Inspection
    else if current == Inspection then Inspection
    else Survey
  }

  datatype Advanced = Advanced(checkpoint: Checkpoint, procurement: map<string, int>, batch: seq<PlacementTask>)

  function Advance(cp: Checkpoint, requirements: Requirements, inventory: map<string, int>,
                   layout: seq<PlacementTask>, batchSize: int): Advanced {
    var procurement := ProcurementPlan(requirements, inventory, cp.reserved);
    var batch := Batch(layout, cp.placed, batchSize);
    var end := End(cp.placed, |layout|, batchSize);
    var phase := TransitionPhase(cp.phase, procurement, batch, |layout|, end);
    var placed := if batch != [] then end else if phase == Inspection then |layout| else cp.placed;
    Advanced(Checkpoint(phase, Reservations(requirements, inventory, cp.reserved), placed), procurement, batch)
  }

  method PlanBlockPlacement(layout: seq<Entry>, placedBlocks: int, batchSize: int)
    returns (batch: seq<PlacementTask>, updated: int)
    ensures batch == Batch(Normalized(layout), placedBlocks, batchSize)
    ensures updated == End(placedBlocks, |Normalized(layout)|, batchSize)
  {
    var normalized := NormalizeLayout(layout);
    var start := Least(Clamp(placedBlocks), |normalized|);
    var end := Least(start + (if batchSize < 1 then 1 else batchSize), |normalized|);
    return normalized[start..end], end;
  }

  method AdvanceBuildingState(cp: Checkpoint, requirements: Requirements, inventory: map<string, int>,
                              layout: seq<Entry>, batchSize: int)
    returns (updated: Checkpoint, procurement: map<string, int>, batch: seq<PlacementTask>)
    ensures Advanced(updated, procurement, batch) == Advance(cp, requirements, inventory, Normalized(layout), batchSize)
  {
    var normalized := NormalizeLayout(layout);
    procurement := PlanMaterialProcurement(requirements, inventory, cp.reserved);
    NormalizedTwice(normalized);
    var count;
    batch, count := PlanBlockPlacement(AsEntries(normalized), cp.placed, batchSize);
    var phase := TransitionPhase(cp.phase, procurement, batch, |normalized|, count);
    var reserved := SynchronizeReservedMaterials(requirements, inventory, cp.reserved);
    var placed := cp.placed;
    if batch != [] {
      placed := count;
    } else if phase == Inspection {
      placed := |normalized|;
    }
    updated := Checkpoint(phase, reserved, placed);
  }

  // ---------------------------------------------------------------------
  // Rollback
  // ---------------------------------------------------------------------

  function Before(p: Phase): Phase {
    match p
    case Survey => Survey
    case Procurement => Survey
    case Placement => Procurement
    case Inspection => Placement
  }

  function Rollback(cp: Checkpoint, failed: Option<Phase>, attempted: seq<PlacementTask>): Checkpoint {
    var phase := Before(if failed.Some? then failed.value else cp.phase);
    if phase == Survey then DEFAULT
    else Checkpoint(phase, map k | k in cp.reserved && cp.reserved[k] > 0 :: cp.reserved[k],
                    if attempted != [] then Clamp(cp.placed - |attempted|) else cp.placed)
  }
}

/** What the steps of building come to, told from their inputs alone. */
module BuildingMeaning {
  import opened Building
  import opened Options

  function AtLeastZero(n: int): int {
    if n < 0 then 0 else n
  }

  function Amount(m: map<string, int>, k: string): int {
    if k in m then AtLeastZero(m[k]) else 0
  }

  // ---------------------------------------------------------------------
  // Advancing
  // ---------------------------------------------------------------------

  /** More of some material is required than there is and was reserved. */
  ghost predicate Short(requirements: Requirements, inventory: map<string, int>, reserved: map<string, int>) {
    exists k :: k in requirements && IsShort(requirements, inventory, reserved, k)
  }

  predicate IsShort(requirements: Requirements, inventory: map<string, int>, reserved: map<string, int>, k: string)
    requires k in requirements
  {
    requirements[k].Some? && requirements[k].value > Amount(inventory, k) + Amount(reserved, k)
  }

  lemma PlanIsEmptyIff(requirements: Requirements, inventory: map<string, int>, reserved: map<string, int>)
    ensures ProcurementPlan(requirements, inventory, reserved) == map[] <==> !Short(requirements, inventory, reserved)
  {
    var plan := ProcurementPlan(requirements, inventory, reserved);
    forall k | k in requirements
      ensures k in plan <==> IsShort(requirements, inventory, reserved, k)
    {
    }
    if plan == map[] {
      assert forall k | k in requirements :: k !in plan;
    } else {
      var k :| k in plan;
    }
  }

  /** Main result: the phase after an advance. */
  lemma PhaseAfterAdvance(cp: Checkpoint, requirements: Requirements, inventory: map<string, int>,
                          layout: seq<PlacementTask>, batchSize: int)
    ensures var phase := Advance(cp, requirements, inventory, layout, batchSize).checkpoint.phase;
      && (phase == Procurement <==> Short(requirements, inventory, cp.reserved))
      && (!Short(requirements, inventory, cp.reserved) ==>
           && (phase == Placement <==> cp.placed < |layout| && 0 < |layout|)
           && (phase == Inspection <==>
                (|layout| > 0 && cp.placed >= |layout|) || (|layout| == 0 && cp.phase == Inspection))
           && (phase == Survey <==> |layout| == 0 && cp.phase != Inspection))
  {
    PlanIsEmptyIff(requirements, inventory, cp.reserved);
    BatchIsEmptyIff(layout, cp.placed, batchSize);
    hide ProcurementPlan, Reservations, Batch, End, Short;
  }

  lemma BatchIsEmptyIff(layout: seq<PlacementTask>, placed: int, batchSize: int)
    ensures Batch(layout, placed, batchSize) == [] <==> |layout| == 0 || placed >= |layout|
    ensures placed >= |layout| ==> End(placed, |layout|, batchSize) == |layout|
  {
  }

  /** Main result: what is procured and what is reserved by an advance, material by material. */
  lemma MaterialsOfAdvance(cp: Checkpoint, requirements: Requirements, inventory: map<string, int>,
                           layout: seq<PlacementTask>, batchSize: int, k: string)
    ensures var r := Advance(cp, requirements, inventory, layout, batchSize);
      && (k in r.procurement <==> k in requirements && IsShort(requirements, inventory, cp.reserved, k))
      && (k in r.procurement ==>
           r.procurement[k] == requirements[k].value - (Amount(inventory, k) + Amount(cp.reserved, k)))
      && (k in r.checkpoint.reserved <==> k in requirements && requirements[k].Some?)
      && (k in r.checkpoint.reserved ==>
           r.checkpoint.reserved[k] == if IsShort(requirements, inventory, cp.reserved, k)
             then Amount(inventory, k) + Amount(cp.reserved, k) else AtLeastZero(requirements[k].value))
  {
  }

  /** Main result: the batch of an advance, and the count after it, for counts of any quality. */
  lemma BatchOfAdvance(cp: Checkpoint, requirements: Requirements, inventory: map<string, int>,
                       layout: seq<PlacementTask>, batchSize: int)
    ensures var r := Advance(cp, requirements, inventory, layout, batchSize);
      var left := |layout| - AtLeastZero(cp.placed);
      && |r.batch| ==
           (if left <= 0 then 0 else if batchSize <= 1 then 1 else if batchSize < left then batchSize else left)
      && (forall i | 0 <= i < |r.batch| :: r.batch[i] == layout[AtLeastZero(cp.placed) + i])
      && (r.batch != [] ==> r.checkpoint.placed == AtLeastZero(cp.placed) + |r.batch|)
      && (r.batch == [] ==>
           r.checkpoint.placed == if r.checkpoint.phase == Inspection then |layout| else cp.placed)
  {
    hide ProcurementPlan, Reservations;
  }

  // ---------------------------------------------------------------------
  // Rolling back
  // ---------------------------------------------------------------------

  /** Main result: where a rollback leads, and what it keeps. */
  lemma RollbackLeadsTo(cp: Checkpoint, failed: Option<Phase>, attempted: seq<PlacementTask>)
    ensures var from := if failed.Some? then failed.value else cp.phase;
      var r := Rollback(cp, failed, attempted);
      && (from == Survey || from == Procurement ==> r == Checkpoint(Survey, map[], 0))
      && (from == Placement ==> r.phase == Procurement)
      && (from == Inspection ==> r.phase == Placement)
      && (from == Placement || from == Inspection ==>
           && r.placed == (if attempted == [] then cp.placed else AtLeastZero(cp.placed - |attempted|))
           && (forall k :: k in r.reserved <==> k in cp.reserved && cp.reserved[k] > 0)
           && (forall k | k in r.reserved :: r.reserved[k] == cp.reserved[k]))
  {
  }

  // ---------------------------------------------------------------------
  // Reading
  // ---------------------------------------------------------------------

  /** Main result: what a stored checkpoint of any quality is read as. */
  lemma RestoredReads(raw: Raw)
    requires raw.Raw?
    ensures var cp := Restored(raw);
      && (cp.phase == Procurement <==> raw.phase == Some("procurement"))
      && (cp.phase == Placement <==> raw.phase == Some("placement"))
      && (cp.phase == Inspection <==> raw.phase == Some("inspection"))
      && cp.placed == (if raw.placed.Some? then AtLeastZero(raw.placed.value) else 0)
      && (forall k :: k in cp.reserved <==>
           raw.reserved.Some? && k in raw.reserved.value && IsPositive(raw.reserved.value[k]))
      && (forall k | k in cp.reserved :: raw.reserved.value[k] == Some(cp.reserved[k]))
  {
  }

  lemma NothingIsReadAsDefault()
    ensures Restored(NotAMapping) == Checkpoint(Survey, map[], 0)
  {
  }

  predicate IsPositive(n: Option<int>) {
    n.Some? && n.value > 0
  }

  /** How many of the first n entries are usable. */
  function Usables(layout: seq<Entry>, n: nat): nat
    requires n <= |layout|
  {
    if n == 0 then 0 else Usables(layout, n - 1) + if layout[n - 1].Unusable? then 0 else 1
  }

  lemma {:induction false} NormalizedSize(layout: seq<Entry>, n: nat)
    requires n <= |layout|
    ensures |Normalized(layout[..n])| == Usables(layout, n)
    ensures n < |layout| ==> Normalized(layout[..n]) <= Normalized(layout[..n + 1])
  {
    if n > 0 {
      NormalizedSize(layout, n - 1);
      assert layout[..n][..n - 1] == layout[..n - 1];
    }
    if n < |layout| {
      assert layout[..n + 1][..n] == layout[..n];
    }
  }

  lemma {:induction false} NormalizedGrows(layout: seq<Entry>, n: nat, m: nat)
    requires n <= m <= |layout|
    ensures Normalized(layout[..n]) <= Normalized(layout[..m])
    decreases m
  {
    if n < m {
      NormalizedGrows(layout, n, m - 1);
      NormalizedSize(layout, m - 1);
    }
  }

  /** Main result: every usable entry becomes one task, at its place among the usable ones, with
      the block and the position it names. */
  lemma NormalizedAt(layout: seq<Entry>, i: nat)
    requires i < |layout| && !layout[i].Unusable?
    ensures |Normalized(layout)| == Usables(layout, |layout|)
    ensures var k := Usables(layout, i);
      && k < |Normalized(layout)|
      && var task := Normalized(layout)[k];
      match layout[i]
      case Task(t) => task == t
      case Described(block, coords) =>
        && task.block == block && task.coords.0 == coords.0
        && task.coords.1 == coords.1 && task.coords.2 == coords.2
  {
    NormalizedSize(layout, i);
    NormalizedSize(layout, |layout|);
    NormalizedGrows(layout, i + 1, |layout|);
    assert layout[..|layout|] == layout && layout[..i + 1][..i] == layout[..i];
    assert Normalized(layout[..i + 1]) == Normalized(layout[..i]) + Accepted(layout[i]);
  }
}

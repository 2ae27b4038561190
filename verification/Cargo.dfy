/** What wood collection may carry and store, how it counts it, and the record it keeps of a trip. */
module Cargo {
  import opened Geometry
  import opened Options

  /** The eight kinds of cargo; Other is everything else in the inventory. */
  datatype Kind = OakLog | BirchLog | SpruceLog | OakSapling | BirchSapling | SpruceSapling | Stick | Apple | Other

  /** plain: without the extra data that makes an item more than its kind. */
  datatype Item = Item(kind: Kind, count: nat, plain: bool)

  type Counts = m: map<Kind, nat> | Other !in m

  const SLOTS: nat := 36
  const STACK: nat := 64
  const MOST: nat := 2304

  function At(m: map<Kind, nat>, k: Kind): nat {
    if k in m then m[k] else 0
  }

  /** An inventory: at most 36 stacks of 64. */
  predicate Stocked(items: seq<Item>) {
    |items| <= SLOTS && forall i :: 0 <= i < |items| ==> 1 <= items[i].count <= STACK
  }

  function Total(items: seq<Item>, k: Kind): nat {
    if items == [] then 0
    else Total(items[..|items| - 1], k) + if items[|items| - 1].kind == k then items[|items| - 1].count else 0
  }

  lemma {:induction false} TotalBounded(items: seq<Item>, k: Kind)
    requires Stocked(items)
    ensures Total(items, k) <= STACK * |items| <= MOST
  {
    if items != [] {
      TotalBounded(items[..|items| - 1], k);
    }
  }

  /** Counts the cargo in an inventory: exactly the kinds that are there, with their totals. */
  method CargoCounts(items: seq<Item>) returns (counts: Counts)
    requires Stocked(items)
    ensures forall k :: k in counts ==> 1 <= counts[k] <= MOST
    ensures forall k :: k != Other ==> At(counts, k) == Total(items, k)
  {
    counts := map[];
    for i := 0 to |items|
      invariant forall k :: k in counts ==> 1 <= counts[k] <= STACK * i
      invariant forall k :: k != Other ==> At(counts, k) == Total(items[..i], k)
    {
      assert items[..i + 1][..i] == items[..i];
      var item := items[i];
      if item.kind != Other {
        counts := counts[item.kind := At(counts, item.kind) + item.count];
      }
    }
    assert items[..|items|] == items;
  }

  predicate OrdinaryCargo(items: seq<Item>) {
    forall i | 0 <= i < |items| && items[i].kind != Other :: items[i].plain
  }

  /** What exceeds the baseline, kind by kind. */
  function CargoDelta(current: Counts, baseline: Counts): Counts {
    map k | k in current && current[k] > At(baseline, k) :: current[k] - At(baseline, k)
  }

  /** Storing the delta leaves of each kind what there was, up to the baseline, and no kind
      is in the delta exactly when nothing exceeds the baseline. */
  lemma DeltaIsExcess(current: Counts, baseline: Counts)
    ensures forall k :: At(current, k) - At(CargoDelta(current, baseline), k)
                     == if At(current, k) <= At(baseline, k) then At(current, k) else At(baseline, k)
    ensures CargoDelta(current, baseline) == map[] <==> forall k :: At(current, k) <= At(baseline, k)
  {
    var delta := CargoDelta(current, baseline);
    if delta == map[] {
      forall k
        ensures At(current, k) <= At(baseline, k)
      {
        assert k !in delta;
      }
    }
  }

  // ---------------------------------------------------------------------
  // The record of a trip
  // ---------------------------------------------------------------------

  /** A position that was not finite is kept as a missing one. */
  datatype WoodState = WoodState(
    owner: string, dimension: string, home: Point, chest: Point,
    pending: bool, baseline: map<Kind, nat>, trail: seq<Option<Point>>)

  const LONGEST_TRAIL: nat := 64
  /** Collecting stops extending the trail here. */
  const TRAIL: nat := 60

  predicate IsNameChar(c: char) {
    'A' <= c <= 'Z' || 'a' <= c <= 'z' || '0' <= c <= '9' || c == '_'
  }

  predicate IsName(s: string) {
    3 <= |s| <= 16 && forall i | 0 <= i < |s| :: IsNameChar(s[i])
  }

  /** What loading demands of a stored record. */
  predicate Loadable(s: WoodState) {
    && IsName(s.owner)
    && |s.trail| <= LONGEST_TRAIL && (forall i | 0 <= i < |s.trail| :: s.trail[i].Some?)
    && (forall k <- s.baseline :: k != Other && s.baseline[k] <= MOST)
  }

  /** What every record keeps: all that loading demands, but for the place where the trip was
      opened, which is stored as it was read. */
  predicate WellFormed(s: WoodState) {
    && IsName(s.owner)
    && |s.trail| <= LONGEST_TRAIL && (forall i | 0 < i < |s.trail| :: s.trail[i].Some?)
    && (forall k <- s.baseline :: k != Other && s.baseline[k] <= MOST)
  }

  /** A record loads again exactly if the position at the opening was finite. */
  lemma ReloadsIff(s: WoodState)
    requires WellFormed(s)
    ensures Loadable(s) <==> s.trail == [] || s.trail[0].Some?
  {
    if s.trail != [] && s.trail[0].Some? {
      assert forall i | 0 <= i < |s.trail| :: i == 0 || s.trail[i].Some?;
    }
  }

  /** A record that was saved, at a position that was not finite, and is refused by loading. */
  lemma UnknownOpeningIsRefused(s: WoodState)
    requires s == WoodState("abc", "overworld", Point(0.5, 64.0, 0.5), Point(2.0, 64.0, 0.0),
      true, map[OakLog := 3], [None])
    ensures WellFormed(s) && !Loadable(s) && Loadable(s.(trail := [Some(s.home)]))
  {
    assert IsName(s.owner);
    assert s.trail[0].None?;
  }

  /** Twelve points around home, four each 6, 12 and 18 blocks out. */
  function ExplorationPoints(home: Point): (ps: seq<Point>)
    ensures |ps| == 12
  {
    Around(home, 6.0) + Around(home, 12.0) + Around(home, 18.0)
  }

  function Around(home: Point, r: real): (ps: seq<Point>)
    ensures |ps| == 4
  {
    [home.(x := home.x + r), home.(z := home.z + r), home.(x := home.x - r), home.(z := home.z - r)]
  }
}

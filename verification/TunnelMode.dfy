/** The tunnel miner: it evaluates a window, mines what is safe in it, and moves on by one slice. */
module TunnelMode {
  import opened Options
  import opened TunnelGeometry

  /** The bridge's answer about one cell; natural tells whether the block is on the list of natural ones. */
  datatype Evaluation = Evaluation(pos: Cell, inRegion: bool, liquid: bool, functional: bool, air: bool, natural: bool)

  /** Whether a player placed the block; an answer may leave it open. */
  datatype Placement = Placement(pos: Cell, placed: Option<bool>)

  datatype Settings = Settings(window: int, torchInterval: int, liquidsStop: bool)

  datatype Reply<T> = Ok(value: T) | LiquidStop | Failed

  /** How the bridge and the bot answer, step by step. */
  datatype World = World(
    bulkEval: (seq<Cell>, nat) -> Reply<seq<Evaluation>>,
    playerPlaced: (seq<Cell>, nat) -> Reply<seq<Placement>>,
    mines: nat -> bool,
    torches: nat -> bool,
    advance: nat -> Reply<bool>)
  {
    /** Answers are about the cells asked about, in that order. */
    ghost predicate Aligned() {
      && (forall cs, n | bulkEval(cs, n).Ok? ::
            && |bulkEval(cs, n).value| == |cs|
            && forall i | 0 <= i < |cs| :: bulkEval(cs, n).value[i].pos == cs[i])
      && (forall cs, n | playerPlaced(cs, n).Ok? ::
            && |playerPlaced(cs, n).value| == |cs|
            && forall i | 0 <= i < |cs| :: playerPlaced(cs, n).value[i].pos == cs[i])
    }
  }

  datatype Stop = Functional | Liquid | PlayerPlaced

  datatype Outcome = NotStarted | Complete | Finished | LiquidDetected | HardStop(reason: Stop) | Raised

  // ---------------------------------------------------------------------
  // The mask
  // ---------------------------------------------------------------------

  /** The last answer about a cell. */
  ghost function LastWord(placements: seq<Placement>, c: Cell): Option<bool> {
    if placements == [] then None
    else
      var last := placements[|placements| - 1];
      if last.pos == c then last.placed else LastWord(placements[..|placements| - 1], c)
  }

  /** It is on record that no player placed the block. */
  ghost predicate Free(placements: seq<Placement>, c: Cell) {
    LastWord(placements, c) == Some(false)
  }

  ghost predicate Safe(e: Evaluation, placements: seq<Placement>) {
    e.inRegion && !e.liquid && !e.functional && e.natural && Free(placements, e.pos)
  }

  method BuildMiningMask(evaluations: seq<Evaluation>, placements: seq<Placement>) returns (mask: seq<bool>)
    ensures |mask| == |evaluations|
    ensures forall i | 0 <= i < |mask| :: mask[i] <==> Safe(evaluations[i], placements)
  {
    var placed: map<Cell, bool> := map[];
    for i := 0 to |placements|
      invariant forall c :: (c in placed && !placed[c]) <==> Free(placements[..i], c)
    {
      var p := placements[i];
      assert placements[..i + 1][..i] == placements[..i];
      placed := placed[p.pos := p.placed != Some(false)];
    }
    assert placements[..|placements|] == placements;
    mask := [];
    for i := 0 to |evaluations|
      invariant |mask| == i
      invariant forall k | 0 <= k < i :: mask[k] <==> Safe(evaluations[k], placements)
    {
      var e := evaluations[i];
      var taken := if e.pos in placed then placed[e.pos] else true;
      mask := mask + [e.inRegion && !e.liquid && !e.functional && !taken && e.natural];
    }
  }

  // ---------------------------------------------------------------------
  // Stopping
  // ---------------------------------------------------------------------

  /** Why a pair of answers stops the miner; a cell's placement is said to be open only by leaving it out. */
  function Offence(e: Evaluation, p: Placement, liquidsStop: bool): Option<Stop> {
    if e.functional then Some(Functional)
    else if liquidsStop && e.liquid then Some(Liquid)
    else if p.placed == Some(true) then Some(PlayerPlaced)
    else None
  }

  ghost predicate NoOffence(es: seq<Evaluation>, ps: seq<Placement>, liquidsStop: bool) {
    forall k | 0 <= k < |es| && k < |ps| :: Offence(es[k], ps[k], liquidsStop) == None
  }

  /** The offence of pair i, if none comes before it. */
  ghost function FirstOffence(es: seq<Evaluation>, ps: seq<Placement>, liquidsStop: bool, i: nat): Option<Stop>
    requires i < |es| && i < |ps|
  {
    if forall k | 0 <= k < i :: Offence(es[k], ps[k], liquidsStop) == None
    then Offence(es[i], ps[i], liquidsStop)
    else None
  }

  /** The first offence among paired answers. */
  method DetectHardStop(evaluations: seq<Evaluation>, placements: seq<Placement>, liquidsStop: bool)
    returns (r: Option<Stop>)
    ensures r.None? ==> NoOffence(evaluations, placements, liquidsStop)
    ensures r.Some? ==>
      exists i ::
        && 0 <= i < |evaluations| && i < |placements|
        && FirstOffence(evaluations, placements, liquidsStop, i) == r
  {
    var n := if |evaluations| < |placements| then |evaluations| else |placements|;
    for i := 0 to n
      invariant forall k | 0 <= k < i :: Offence(evaluations[k], placements[k], liquidsStop) == None
    {
      var o := Offence(evaluations[i], placements[i], liquidsStop);
      if o.Some? {
        assert FirstOffence(evaluations, placements, liquidsStop, i) == o;
        return o;
      }
    }
    r := None;
  }

  // ---------------------------------------------------------------------
  // The run
  // ---------------------------------------------------------------------

  function Ahead(s: Settings, length: int, step: nat): nat {
    var n := if s.window < length - step then s.window else length - step;
    if n > 0 then n else 0
  }

  function Window(t: Tunnel, s: Settings, length: int, step: nat): seq<Cell>
    requires t.Straight()
  {
    t.Cells(step, Ahead(s, length, step))
  }

  /** A cell sent to be mined, and the step at which it was. */
  datatype Mined = Mined(cell: Cell, step: nat)

  /** Some evaluation of the cell itself says that it may be mined and is not air. */
  ghost predicate Judged(evaluations: seq<Evaluation>, placements: seq<Placement>, c: Cell) {
    exists e <- evaluations ::
      && e.pos == c && e.inRegion && !e.liquid && !e.functional && !e.air && e.natural && Free(placements, c)
  }

  /** The evidence for mining a cell: at that step it was evaluated as in the region, neither
      liquid nor near a functional block, natural and not air, with the last word on it that
      no player placed it, and nothing in the same window called for a stop. */
  ghost predicate Justified(t: Tunnel, s: Settings, length: int, w: World, m: Mined)
    requires t.Straight()
  {
    var window := Window(t, s, length, m.step);
    var evaluations, placements := w.bulkEval(window, m.step), w.playerPlaced(window, m.step);
    && evaluations.Ok? && placements.Ok?
    && Judged(evaluations.value, placements.value, m.cell)
    && (forall e <- evaluations.value :: !e.functional && !(s.liquidsStop && e.liquid))
    && (forall p <- placements.value :: p.placed != Some(true))
  }

  /** A cell evaluated at an earlier step. */
  ghost predicate Evaluated(t: Tunnel, s: Settings, length: int, w: World, step: nat, c: Cell)
    requires t.Straight()
  {
    exists k: nat :: k < step && c in Window(t, s, length, k) && w.bulkEval(Window(t, s, length, k), k).Ok?
  }

  /** Both answers came, and nothing in them calls for a stop. */
  ghost predicate Cleared(t: Tunnel, s: Settings, length: int, w: World, step: nat)
    requires t.Straight()
  {
    var window := Window(t, s, length, step);
    var evaluations, placements := w.bulkEval(window, step), w.playerPlaced(window, step);
    && evaluations.Ok? && placements.Ok?
    && NoOffence(evaluations.value, placements.value, s.liquidsStop)
  }

  /** Answers are paired by their place. */
  function Least(m: nat, n: nat): nat {
    if m < n then m else n
  }

  /** The first n evaluated cells of a window that may be mined and are not air. */
  ghost function Chosen(window: seq<Cell>, evaluations: seq<Evaluation>, placements: seq<Placement>, step: nat,
                        n: nat): seq<Mined>
    requires n <= |window| && n <= |evaluations|
  {
    if n == 0 then []
    else
      var before := Chosen(window, evaluations, placements, step, n - 1);
      if Safe(evaluations[n - 1], placements) && !evaluations[n - 1].air
      then before + [Mined(window[n - 1], step)]
      else before
  }

  /** What a step sends to be mined. */
  ghost function Picks(t: Tunnel, s: Settings, length: int, w: World, step: nat): seq<Mined>
    requires t.Straight()
  {
    var window := Window(t, s, length, step);
    if Cleared(t, s, length, w, step) then
      var evaluations := w.bulkEval(window, step).value;
      Chosen(window, evaluations, w.playerPlaced(window, step).value, step, Least(|window|, |evaluations|))
    else []
  }

  ghost function PicksBefore(t: Tunnel, s: Settings, length: int, w: World, step: nat): seq<Mined>
    requires t.Straight()
  {
    if step == 0 then [] else PicksBefore(t, s, length, w, step - 1) + Picks(t, s, length, w, step - 1)
  }

  /** How a step ends that goes no further than its window. */
  ghost predicate StopsWith(t: Tunnel, s: Settings, length: int, w: World, step: nat, o: Outcome)
    requires t.Straight()
  {
    var window := Window(t, s, length, step);
    var evaluations, placements := w.bulkEval(window, step), w.playerPlaced(window, step);
    if evaluations.LiquidStop? then o == LiquidDetected
    else if evaluations.Failed? || !placements.Ok? then o == Raised
    else
      && o.HardStop?
      && exists i ::
        && 0 <= i < |evaluations.value| && i < |placements.value|
        && FirstOffence(evaluations.value, placements.value, s.liquidsStop, i) == Some(o.reason)
  }

  /** One step up to mining: it goes on exactly when the window is cleared, with every cell
      of it that may be mined, in order. */
  method Look(t: Tunnel, s: Settings, length: int, w: World, step: nat)
    returns (stop: Option<Outcome>, toMine: seq<Mined>)
    requires t.Straight() && step < length
    ensures stop.None? <==> Cleared(t, s, length, w, step)
    ensures stop.Some? ==> StopsWith(t, s, length, w, step, stop.value)
    ensures toMine == Picks(t, s, length, w, step)
  {
    toMine := [];
    var window := Window(t, s, length, step);
    var evaluations := w.bulkEval(window, step);
    if !evaluations.Ok? {
      return Some(if evaluations.LiquidStop? then LiquidDetected else Raised), [];
    }
    var placements := w.playerPlaced(window, step);
    if !placements.Ok? {
      return Some(Raised), [];
    }
    var mask := BuildMiningMask(evaluations.value, placements.value);
    var hard := DetectHardStop(evaluations.value, placements.value, s.liquidsStop);
    if hard.Some? {
      return Some(HardStop(hard.value)), [];
    }
    for i := 0 to Least(|window|, |evaluations.value|)
      invariant toMine == Chosen(window, evaluations.value, placements.value, step, i)
    {
      if mask[i] && !evaluations.value[i].air {
        toMine := toMine + [Mined(window[i], step)];
      }
    }
    stop := None;
  }

  lemma {:induction false} ChosenMembers(window: seq<Cell>, es: seq<Evaluation>, ps: seq<Placement>, step: nat, n: nat)
    requires n <= |window| && n <= |es|
    ensures forall m | m in Chosen(window, es, ps, step, n) ::
      m.step == step && exists i :: 0 <= i < n && m.cell == window[i] && Safe(es[i], ps) && !es[i].air
    ensures forall i | 0 <= i < n && Safe(es[i], ps) && !es[i].air ::
      Mined(window[i], step) in Chosen(window, es, ps, step, n)
  {
    if n > 0 {
      ChosenMembers(window, es, ps, step, n - 1);
    }
  }

  lemma {:induction false} MiningIsInWindows(t: Tunnel, s: Settings, length: int, w: World, step: nat)
    requires t.Straight()
    ensures forall m | m in PicksBefore(t, s, length, w, step) ::
      m.step < step && m.cell in Window(t, s, length, m.step)
  {
    hide Window;
    if step > 0 {
      MiningIsInWindows(t, s, length, w, step - 1);
      if Cleared(t, s, length, w, step - 1) {
        var window := Window(t, s, length, step - 1);
        var es := w.bulkEval(window, step - 1).value;
        ChosenMembers(window, es, w.playerPlaced(window, step - 1).value, step - 1, Least(|window|, |es|));
      }
    }
  }

  lemma PicksAreJustified(t: Tunnel, s: Settings, length: int, w: World, step: nat)
    requires t.Straight() && w.Aligned()
    ensures forall m | m in Picks(t, s, length, w, step) :: m.step == step && Justified(t, s, length, w, m)
  {
    if Cleared(t, s, length, w, step) {
      var window := Window(t, s, length, step);
      var es, ps := w.bulkEval(window, step).value, w.playerPlaced(window, step).value;
      ChosenMembers(window, es, ps, step, |window|);
      forall m | m in Chosen(window, es, ps, step, |window|)
        ensures m.step == step && Justified(t, s, length, w, m)
      {
        var i :| 0 <= i < |window| && m.cell == window[i] && Safe(es[i], ps) && !es[i].air;
        assert es[i] in es && es[i].pos == window[i];
      }
    }
  }

  /** Main result: with answers about the cells asked about, in their order, everything a run sends
      to be mined is justified by the answers of its own step. */
  lemma {:induction false} MiningIsJustified(t: Tunnel, s: Settings, length: int, w: World, step: nat)
    requires t.Straight() && w.Aligned()
    ensures forall m | m in PicksBefore(t, s, length, w, step) :: m.step < step && Justified(t, s, length, w, m)
  {
    hide Picks, Justified, Window;
    if step > 0 {
      MiningIsJustified(t, s, length, w, step - 1);
      PicksAreJustified(t, s, length, w, step - 1);
    }
  }

  /** Cell i of the window of a cleared step is mined, by the evaluation in its place. */
  ghost predicate MayBeMined(t: Tunnel, s: Settings, length: int, w: World, k: nat, i: nat)
    requires t.Straight() && i < |Window(t, s, length, k)|
  {
    var window := Window(t, s, length, k);
    && Cleared(t, s, length, w, k)
    && i < |w.bulkEval(window, k).value|
    && var e := w.bulkEval(window, k).value[i];
    && e.inRegion && !e.liquid && !e.functional && !e.air && e.natural
    && Free(w.playerPlaced(window, k).value, e.pos)
  }

  lemma PicksEvery(t: Tunnel, s: Settings, length: int, w: World, k: nat, i: nat)
    requires t.Straight() && i < |Window(t, s, length, k)| && MayBeMined(t, s, length, w, k, i)
    ensures Mined(Window(t, s, length, k)[i], k) in Picks(t, s, length, w, k)
  {
    var window := Window(t, s, length, k);
    var es := w.bulkEval(window, k).value;
    ChosenMembers(window, es, w.playerPlaced(window, k).value, k, Least(|window|, |es|));
  }

  /** Main result: nothing that may be mined is passed over. */
  lemma {:induction false} NothingPassedOver(t: Tunnel, s: Settings, length: int, w: World, step: nat, k: nat, i: nat)
    requires t.Straight() && k < step
    requires i < |Window(t, s, length, k)| && MayBeMined(t, s, length, w, k, i)
    ensures Mined(Window(t, s, length, k)[i], k) in PicksBefore(t, s, length, w, step)
  {
    hide Window, MayBeMined, Picks;
    if k < step - 1 {
      NothingPassedOver(t, s, length, w, step - 1, k, i);
    } else {
      PicksEvery(t, s, length, w, k, i);
    }
  }

  // ---------------------------------------------------------------------
  // Answers in another order
  // ---------------------------------------------------------------------

  /** The answers are about the given cells, in that order. */
  ghost predicate About(evaluations: seq<Evaluation>, cells: seq<Cell>) {
    |evaluations| == |cells| && forall i | 0 <= i < |cells| :: evaluations[i].pos == cells[i]
  }

  /** As far as both go, the cells answered about are those of the window, in its order. */
  ghost predicate InOrder(window: seq<Cell>, cells: seq<Cell>) {
    forall i | 0 <= i < |window| && i < |cells| :: cells[i] == window[i]
  }

  /** Everything chosen by these answers was itself judged fit by one of them. */
  ghost predicate AllJudged(window: seq<Cell>, evaluations: seq<Evaluation>, placements: seq<Placement>) {
    forall m | m in Chosen(window, evaluations, placements, 0, Least(|window|, |evaluations|)) ::
      Judged(evaluations, placements, m.cell)
  }

  /** A reply about the given cells in which only cell i may be mined. */
  function OnlyOne(cells: seq<Cell>, i: nat): (es: seq<Evaluation>)
    ensures |es| == |cells| && forall k | 0 <= k < |cells| ::
      es[k] == Evaluation(cells[k], k == i, false, false, false, true)
  {
    seq(|cells|, k requires 0 <= k < |cells| => Evaluation(cells[k], k == i, false, false, false, true))
  }

  function Unplaced(cells: seq<Cell>): seq<Placement> {
    if cells == [] then [] else Unplaced(cells[..|cells| - 1]) + [Placement(cells[|cells| - 1], Some(false))]
  }

  lemma {:induction false} UnplacedIsFree(cells: seq<Cell>)
    ensures |Unplaced(cells)| == |cells|
    ensures forall i | 0 <= i < |cells| :: Unplaced(cells)[i].placed == Some(false)
    ensures forall c | c in cells :: Free(Unplaced(cells), c)
  {
    if cells != [] {
      UnplacedIsFree(cells[..|cells| - 1]);
      var before := Unplaced(cells[..|cells| - 1]);
      assert Unplaced(cells)[..|cells| - 1] == before;
      assert cells == cells[..|cells| - 1] + [cells[|cells| - 1]];
    }
  }

  /** Main result: whatever a reply says about the given cells, as long as it calls for no stop,
      every cell mined on it was itself judged fit, exactly if the cells are those of the window in
      its order: an answer is taken for the cell at its place. */
  lemma EvidenceIsOwnIff(window: seq<Cell>, cells: seq<Cell>, liquidsStop: bool)
    ensures InOrder(window, cells) <==>
      forall es, ps | About(es, cells) && NoOffence(es, ps, liquidsStop) :: AllJudged(window, es, ps)
  {
    if InOrder(window, cells) {
      forall es, ps | About(es, cells)
        ensures AllJudged(window, es, ps)
      {
        OrderedIsJudged(window, cells, es, ps);
      }
    } else {
      var i: nat :| i < |window| && i < |cells| && cells[i] != window[i];
      var es, ps := OnlyOne(cells, i), Unplaced(cells);
      MisorderedIsNot(window, cells, i);
      UnplacedIsFree(cells);
      assert About(es, cells) && NoOffence(es, ps, liquidsStop) && !AllJudged(window, es, ps);
    }
  }

  lemma OrderedIsJudged(window: seq<Cell>, cells: seq<Cell>, es: seq<Evaluation>, ps: seq<Placement>)
    requires InOrder(window, cells) && About(es, cells)
    ensures AllJudged(window, es, ps)
  {
    var n := Least(|window|, |es|);
    ChosenMembers(window, es, ps, 0, n);
    forall m | m in Chosen(window, es, ps, 0, n)
      ensures Judged(es, ps, m.cell)
    {
      var i :| 0 <= i < n && m.cell == window[i] && Safe(es[i], ps) && !es[i].air;
      assert es[i] in es && es[i].pos == window[i];
    }
  }

  /** A reply about other cells: the cell at the place of the only one that may be mined is mined,
      and nothing says that it may be. */
  lemma {:induction false} MisorderedIsNot(window: seq<Cell>, cells: seq<Cell>, i: nat)
    requires i < |window| && i < |cells| && cells[i] != window[i]
    ensures Mined(window[i], 0) in
      Chosen(window, OnlyOne(cells, i), Unplaced(cells), 0, Least(|window|, |OnlyOne(cells, i)|))
    ensures !Judged(OnlyOne(cells, i), Unplaced(cells), window[i])
  {
    var es, ps := OnlyOne(cells, i), Unplaced(cells);
    UnplacedIsFree(cells);
    assert cells[i] in cells && Safe(es[i], ps);
    ChosenMembers(window, es, ps, 0, Least(|window|, |es|));
    forall e <- es | e.pos == window[i]
      ensures !e.inRegion
    {
      var k :| 0 <= k < |es| && es[k] == e;
      assert k != i;
    }
  }

  datatype Report = Report(outcome: Outcome, steps: nat, mined: seq<Mined>, torches: seq<Cell>)

  /** A call about a job on the server. */
  datatype Call = Started(job: nat) | Advanced(job: nat) | Stopped(job: nat)

  /** The server's jobs, told by the calls it got. */
  class Jobs {
    var created: nat
    var calls: seq<Call>

    method Start() returns (job: nat)
      modifies this
      ensures job == old(created) && created == job + 1 && calls == old(calls) + [Started(job)]
    {
      job := created;
      created := created + 1;
      calls := calls + [Started(job)];
    }

    method Tell(call: Call)
      modifies this`calls
      ensures calls == old(calls) + [call]
    {
      calls := calls + [call];
    }
  }

  function Advances(job: nat, n: nat): seq<Call> {
    if n == 0 then [] else Advances(job, n - 1) + [Advanced(job)]
  }

  /** Every step done had its window evaluated and cleared. */
  ghost predicate ClearedUpTo(t: Tunnel, s: Settings, length: int, w: World, steps: nat)
    requires t.Straight()
  {
    forall k: nat | k < steps :: Cleared(t, s, length, w, k)
  }

  predicate TorchDue(s: Settings, step: nat) {
    s.torchInterval > 0 && (step + 1) % s.torchInterval == 0
  }

  /** The torches placed in the first n steps. */
  function Lit(t: Tunnel, s: Settings, n: nat): seq<Cell>
    requires t.Straight()
  {
    if n == 0 then [] else Lit(t, s, n - 1) + if TorchDue(s, n - 1) then [TorchPosition(t, n - 1)] else []
  }

  /** A torch stands at every so many steps, and nowhere else. */
  lemma {:induction false} LitEvery(t: Tunnel, s: Settings, n: nat)
    requires t.Straight()
    ensures s.torchInterval <= 0 ==> Lit(t, s, n) == []
    ensures s.torchInterval > 0 ==> |Lit(t, s, n)| == n / s.torchInterval
    ensures s.torchInterval > 0 ==>
      forall i | 0 <= i < |Lit(t, s, n)| ::
        s.torchInterval * (i + 1) >= 1 && Lit(t, s, n)[i] == TorchPosition(t, s.torchInterval * (i + 1) - 1)
  {
    if n > 0 {
      LitEvery(t, s, n - 1);
      if s.torchInterval > 0 {
        NextMultiple(n, s.torchInterval);
      }
    }
  }

  lemma NextMultiple(n: nat, d: nat)
    requires n > 0 && d > 0
    ensures n / d == (n - 1) / d + if n % d == 0 then 1 else 0
    ensures n % d == 0 ==> n == d * (n / d)
  {
    var q, r := (n - 1) / d, (n - 1) % d;
    assert n - 1 == d * q + r;
    if r == d - 1 {
      assert n == d * (q + 1);
      QuotientIs(n, d, q + 1, 0);
    } else {
      QuotientIs(n, d, q, r + 1);
    }
  }

  lemma QuotientIs(n: nat, d: nat, q: nat, r: nat)
    requires d > r && n == d * q + r
    ensures n / d == q && n % d == r
  {
    SameQuotient(d, n / d, n % d, q, r);
  }

  lemma SameQuotient(d: nat, a: int, b: int, q: int, r: int)
    requires 0 <= b < d && 0 <= r < d && d * a + b == d * q + r
    ensures a == q && b == r
  {
    if a < q {
      Gap(d, a, q);
    } else if a > q {
      Gap(d, q, a);
    }
  }

  lemma Gap(d: nat, a: int, q: int)
    requires a < q
    ensures d * q >= d * a + d
  {
    assert d * q == d * a + d + d * (q - a - 1);
  }

  /** A step that is cleared, and whose mining and torch succeed. */
  ghost predicate Works(t: Tunnel, s: Settings, length: int, w: World, k: nat)
    requires t.Straight()
  {
    && Cleared(t, s, length, w, k)
    && (Picks(t, s, length, w, k) != [] ==> w.mines(k)) && (TorchDue(s, k) ==> w.torches(k))
  }

  ghost predicate GoesOn(t: Tunnel, s: Settings, length: int, w: World, k: nat)
    requires t.Straight()
  {
    Works(t, s, length, w, k) && w.advance(k + 1) == Ok(false)
  }

  ghost predicate WentOn(t: Tunnel, s: Settings, length: int, w: World, steps: nat)
    requires t.Straight()
  {
    forall k: nat | k < steps :: GoesOn(t, s, length, w, k)
  }

  /** How a run ends: at its length, in a step that does not work, or by what the server says to its last step. */
  ghost predicate Ends(t: Tunnel, s: Settings, length: int, w: World, o: Outcome, steps: nat)
    requires t.Straight()
  {
    || (o == Complete && steps >= length && WentOn(t, s, length, w, steps))
    || (&& steps < length && WentOn(t, s, length, w, steps) && !Works(t, s, length, w, steps)
        && if Cleared(t, s, length, w, steps) then o == Raised else StopsWith(t, s, length, w, steps, o))
    || (&& 0 < steps <= length && WentOn(t, s, length, w, steps - 1) && Works(t, s, length, w, steps - 1)
        && match w.advance(steps)
           case Ok(finished) => finished && o == Finished
           case LiquidStop => o == LiquidDetected
           case Failed => o == Raised)
  }

  /** What was mined is what the steps done picked, and the pick of a step that was cut off after its window was
      cleared; torches stand where the steps done put them. */
  ghost predicate MinedAsPicked(t: Tunnel, s: Settings, length: int, w: World, r: Report)
    requires t.Straight()
  {
    && ClearedUpTo(t, s, length, w, r.steps) && r.torches == Lit(t, s, r.steps)
    && r.mined == PicksBefore(t, s, length, w, r.steps)
         + if CutOff(t, s, length, w, r.steps) then Picks(t, s, length, w, r.steps) else []
  }

  ghost predicate CutOff(t: Tunnel, s: Settings, length: int, w: World, steps: nat)
    requires t.Straight()
  {
    && steps < length && WentOn(t, s, length, w, steps)
    && Cleared(t, s, length, w, steps) && !Works(t, s, length, w, steps)
  }

  /** Main result: a run ends as complete exactly if every step of its length went on, and as finished
      exactly if the server said so after a step with nothing amiss before. */
  lemma EndMeans(t: Tunnel, s: Settings, length: nat, w: World, o: Outcome, steps: nat)
    requires t.Straight() && steps <= length && Ends(t, s, length, w, o, steps)
    ensures o == Complete <==> WentOn(t, s, length, w, length)
    ensures o == Complete ==> steps == length
    ensures o == Finished <==>
      && 0 < steps && WentOn(t, s, length, w, steps - 1) && Works(t, s, length, w, steps - 1)
      && w.advance(steps) == Ok(true)
    ensures o.HardStop? ==> steps < length && !Cleared(t, s, length, w, steps)
  {
    hide Works, Cleared, FirstOffence;
    if WentOn(t, s, length, w, length) && steps < length {
      assert GoesOn(t, s, length, w, steps);
    }
    if 0 < steps && (WentOn(t, s, length, w, length) || WentOn(t, s, length, w, steps)) {
      assert GoesOn(t, s, length, w, steps - 1);
    }
  }

  lemma TorchCount(s: Settings, step: nat, counter: nat)
    requires s.torchInterval > 0 && counter == step % s.torchInterval
    ensures counter + 1 >= s.torchInterval <==> TorchDue(s, step)
    ensures (step + 1) % s.torchInterval == if counter + 1 >= s.torchInterval then 0 else counter + 1
  {
    var d := s.torchInterval;
    assert step == d * (step / d) + counter;
    if counter + 1 == d {
      assert step + 1 == d * (step / d + 1);
      QuotientIs(step + 1, d, step / d + 1, 0);
    } else {
      QuotientIs(step + 1, d, step / d, counter + 1);
    }
  }

  /** The main loop. */
  method Advance(t: Tunnel, s: Settings, length: int, w: World, jobs: Jobs, job: nat) returns (r: Report)
    requires t.Straight()
    modifies jobs
    ensures jobs.calls == old(jobs.calls) + Advances(job, r.steps)
    ensures MinedAsPicked(t, s, length, w, r)
    ensures Ends(t, s, length, w, r.outcome, r.steps)
    ensures length > 0 ==> r.steps <= length
  {
    hide Picks, Cleared, TorchDue, StopsWith;
    var step: nat := 0;
    var torchCounter: nat := 0;
    var mined: seq<Mined>, torches: seq<Cell> := [], [];
    while step < length
      invariant length > 0 ==> step <= length
      invariant mined == PicksBefore(t, s, length, w, step) && torches == Lit(t, s, step)
      invariant s.torchInterval > 0 ==> torchCounter == step % s.torchInterval
      invariant jobs.calls == old(jobs.calls) + Advances(job, step)
      invariant ClearedUpTo(t, s, length, w, step) && WentOn(t, s, length, w, step)
    {
      var stop, toMine := Look(t, s, length, w, step);
      if stop.Some? {
        return Report(stop.value, step, mined, torches);
      }
      if toMine != [] {
        mined := mined + toMine;
        if !w.mines(step) {
          return Report(Raised, step, mined, torches);
        }
      }
      LitAt(s, step, torchCounter);
      torchCounter := torchCounter + 1;
      if s.torchInterval > 0 && torchCounter >= s.torchInterval {
        if !w.torches(step) {
          return Report(Raised, step, mined, torches);
        }
        torches := torches + [TorchPosition(t, step)];
        torchCounter := 0;
      }
      step := step + 1;
      jobs.Tell(Advanced(job));
      var advance := w.advance(step);
      assert advance != Ok(false) ==> !GoesOn(t, s, length, w, step - 1);
      if !advance.Ok? {
        return Report(if advance.LiquidStop? then LiquidDetected else Raised, step, mined, torches);
      }
      if advance.value {
        return Report(Finished, step, mined, torches);
      }
    }
    r := Report(Complete, step, mined, torches);
  }

  lemma LitAt(s: Settings, step: nat, counter: nat)
    requires s.torchInterval > 0 ==> counter == step % s.torchInterval
    ensures TorchDue(s, step) <==> s.torchInterval > 0 && counter + 1 >= s.torchInterval
    ensures s.torchInterval > 0 ==>
      (step + 1) % s.torchInterval == if counter + 1 >= s.torchInterval then 0 else counter + 1
  {
    if s.torchInterval > 0 {
      TorchCount(s, step, counter);
    }
  }

  /** One job from start to stop: however the run ends, a job that was started is advanced once
      for every step done and then stopped, and nothing else is asked of the server about jobs. */
  method Run(t: Tunnel, s: Settings, length: int, w: World, jobs: Jobs, starts: bool) returns (r: Report)
    modifies jobs
    ensures !starts ==> r.outcome == NotStarted && r.mined == [] && jobs.calls == old(jobs.calls)
    ensures starts ==> var job := old(jobs.created);
      jobs.calls == old(jobs.calls) + ([Started(job)] + Advances(job, r.steps) + [Stopped(job)])
    ensures !t.Straight() ==> r.mined == []
    ensures t.Straight() && starts ==> MinedAsPicked(t, s, length, w, r) && Ends(t, s, length, w, r.outcome, r.steps)
    ensures !t.Straight() && starts ==> r.outcome == (if length > 0 then Raised else Complete) && r.steps == 0
    ensures starts ==> r.outcome != NotStarted && (length > 0 ==> r.steps <= length)
  {
    if !starts {
      return Report(NotStarted, 0, [], []);
    }
    var job := jobs.Start();
    if t.Straight() {
      r := Advance(t, s, length, w, jobs, job);
    } else {
      r := Report(if length > 0 then Raised else Complete, 0, [], []);
    }
    jobs.Tell(Stopped(job));
  }

  /** Main result: whatever a run mines lies in the tunnel, within its length. */
  lemma MinedInTunnel(t: Tunnel, s: Settings, length: nat, w: World, step: nat)
    requires t.Straight()
    ensures forall m | m in PicksBefore(t, s, length, w, step) :: t.Contains(0, length, m.cell)
  {
    MiningIsInWindows(t, s, length, w, step);
    hide PicksBefore;
    forall m | m in PicksBefore(t, s, length, w, step)
      ensures t.Contains(0, length, m.cell)
    {
      CellsEnumerate(t, m.step, Ahead(s, length, m.step));
      var i, a, b :| m.step <= i < m.step + Ahead(s, length, m.step)
        && 0 <= a < t.section.width && 0 <= b < t.section.height && m.cell == t.At(i, a, b);
      assert 0 <= i < length;
    }
  }

  /** Main result: a run through the whole length has evaluated every cell of the tunnel,
      exactly when the window reaches ahead at all (an empty tunnel aside). */
  lemma WholeRunCoversIff(t: Tunnel, s: Settings, length: nat, w: World)
    requires t.Straight() && length > 0 && t.section.width > 0 && t.section.height > 0
    requires ClearedUpTo(t, s, length, w, length)
    ensures (forall c | t.Contains(0, length, c) :: Evaluated(t, s, length, w, length, c)) <==> s.window > 0
  {
    if s.window > 0 {
      forall c | t.Contains(0, length, c)
        ensures Evaluated(t, s, length, w, length, c)
      {
        var i, a, b :| 0 <= i < length && 0 <= a < t.section.width && 0 <= b < t.section.height && c == t.At(i, a, b);
        CellsEnumerate(t, i, Ahead(s, length, i));
        assert t.Contains(i, Ahead(s, length, i), c);
        assert c in Window(t, s, length, i) && Cleared(t, s, length, w, i);
      }
    } else {
      var c := t.At(0, 0, 0);
      assert t.Contains(0, length, c);
      assert forall k: nat :: Window(t, s, length, k) == [];
    }
  }
}

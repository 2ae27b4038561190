/** Reflections on failed steps, and the recursion between running a plan and asking for another
    one after a failure. */
module Reflection {
  import opened Options

  type Id = nat

  datatype Verdict = Pending | Success | Failed

  /** The attempt and the step that failed, and what came of trying again. */
  datatype Entry = Entry(attempt: nat, step: nat, result: Verdict)

  /** What the memory holds; ids are fresh, and those below next have been used. */
  datatype Record = Record(entries: map<Id, Entry>, active: Option<Id>, next: Id)

  /** What one step of a plan came to. A step nothing handles leaves no trace. */
  datatype StepResult = Unhandled | Handled(failed: bool, terminal: bool, halts: bool)

  /** paused: the plan asks the player first. */
  datatype Plan = Plan(paused: bool, steps: seq<StepResult>)

  /** How running a plan ends; clean tells that no handled step failed. */
  datatype Ending = Paused | Empty | Over(clean: bool) | Halted(step: nat)

  // ---------------------------------------------------------------------
  // Endings, independently of how they are reached
  // ---------------------------------------------------------------------

  predicate Ends(r: StepResult) {
    r.Handled? && (r.terminal || r.halts)
  }

  predicate Fails(r: StepResult) {
    r.Handled? && r.failed
  }

  /** The first step that ends the plan decides; without one the plan runs to its end. */
  ghost predicate IsEnding(p: Plan, e: Ending) {
    if p.paused then e == Paused
    else if p.steps == [] then e == Empty
    else if forall k | 0 <= k < |p.steps| :: !Ends(p.steps[k]) then
      e == Over(forall k | 0 <= k < |p.steps| :: !Fails(p.steps[k]))
    else
      exists i ::
        && 0 <= i < |p.steps| && EndsAt(p, i)
        && e == (if p.steps[i].terminal then Over(CleanTo(p, i)) else Halted(i))
  }

  ghost predicate EndsAt(p: Plan, i: nat)
    requires i < |p.steps|
  {
    Ends(p.steps[i]) && forall k | 0 <= k < i :: !Ends(p.steps[k])
  }

  ghost predicate CleanTo(p: Plan, i: nat)
    requires i < |p.steps|
  {
    forall k | 0 <= k <= i :: !Fails(p.steps[k])
  }

  // ---------------------------------------------------------------------
  // The record
  // ---------------------------------------------------------------------

  /** loaded is where the ids of this process begin. What is still pending since then is the
      active reflection. */
  ghost predicate OnlyActivePends(r: Record, loaded: Id) {
    && loaded <= r.next
    && (forall id: Id | loaded <= id < r.next :: id in r.entries)
    && (forall id: Id | id >= r.next :: id !in r.entries)
    && (forall id: Id | id in r.entries && id >= loaded :: (r.entries[id].result == Pending <==> r.active == Some(id)))
    && (r.active.Some? ==> r.active.value in r.entries && r.active.value >= loaded)
  }

  function Finalize(r: Record, v: Verdict): Record {
    match r.active
    case None => r
    case Some(id) =>
      if id !in r.entries then r.(active := None)
      else
        r.(entries := r.entries[id := r.entries[id].(result := v)],
          active := if v == Pending then Some(id) else None)
  }

  function Begin(r: Record, attempt: nat, step: nat): Record {
    Record(r.entries[r.next := Entry(attempt, step, Pending)], Some(r.next), r.next + 1)
  }

  /** What becomes of the active reflection when a plan ends, if anything. */
  function Judgement(e: Ending): Option<Verdict> {
    match e
    case Over(clean) => Some(if clean then Success else Failed)
    case Halted(_) => Some(Failed)
    case _ => None
  }

  function Judged(r: Record, e: Ending): Record {
    if Judgement(e).Some? then Finalize(r, Judgement(e).value) else r
  }

  /** All of a task: the ending of its plan, and after a halt that of the next attempt's plan,
      as far as the limit lets it ask for one. */
  function Recovered(r: Record, endings: nat -> Ending, depth: nat, limit: nat): Record
    decreases if depth <= limit then limit - depth + 1 else 0
  {
    var e := endings(depth);
    if !e.Halted? then Judged(r, e)
    else
      var r := Begin(Judged(r, e), depth, e.step);
      if depth >= limit then r else Recovered(r, endings, depth + 1, limit)
  }

  /** How many attempts halt in a row. */
  function Halts(endings: nat -> Ending, depth: nat, limit: nat): nat
    decreases if depth <= limit then limit - depth + 1 else 0
  {
    if !endings(depth).Halted? then 0
    else if depth >= limit then 1
    else 1 + Halts(endings, depth + 1, limit)
  }

  // ---------------------------------------------------------------------
  // Errors
  // ---------------------------------------------------------------------

  /** Where an attempt may break off with an error: while its plan runs, while the failure is
      reported, while it is shared after the reflection was opened, while a new plan is asked for. */
  datatype Errors = Errors(running: bool, reporting: bool, sharing: bool, asking: bool)

  /** Whether an attempt with this ending meets one of its errors. */
  predicate Meets(e: Ending, x: Errors, mayAsk: bool) {
    x.running || (e.Halted? && (x.reporting || x.sharing || (mayAsk && x.asking)))
  }

  /** The record when an attempt breaks off: the reflection on it is open if the error came after that. */
  function BrokenOff(r: Record, e: Ending, x: Errors, attempt: nat): Record {
    if x.running || x.reporting || !e.Halted? then r else Begin(Judged(r, e), attempt, e.step)
  }

  /** What a task leaves, with errors. */
  function Left(r: Record, endings: nat -> Ending, errors: nat -> Errors, depth: nat, limit: nat): Record
    decreases if depth <= limit then limit - depth + 1 else 0
  {
    var e, x := endings(depth), errors(depth);
    if Meets(e, x, depth < limit) then BrokenOff(r, e, x, depth)
    else if !e.Halted? then Judged(r, e)
    else
      var r := Begin(Judged(r, e), depth, e.step);
      if depth >= limit then r else Left(r, endings, errors, depth + 1, limit)
  }

  /** One plan is asked for after every halt but one at the limit. */
  function Requests(endings: nat -> Ending, depth: nat, limit: nat): nat
    requires depth <= limit
    decreases limit - depth
  {
    if !endings(depth).Halted? || depth == limit then 0 else 1 + Requests(endings, depth + 1, limit)
  }

  /** None of the attempts that a task comes to meets an error. */
  ghost predicate NoErrorMet(endings: nat -> Ending, errors: nat -> Errors, depth: nat, limit: nat)
    requires depth <= limit
  {
    forall d | depth <= d <= depth + Requests(endings, depth, limit) :: !MeetsAt(endings, errors, d, limit)
  }

  predicate MeetsAt(endings: nat -> Ending, errors: nat -> Errors, d: nat, limit: nat) {
    Meets(endings(d), errors(d), d < limit)
  }

  lemma NoErrorMetStep(endings: nat -> Ending, errors: nat -> Errors, depth: nat, limit: nat)
    requires depth <= limit
    ensures NoErrorMet(endings, errors, depth, limit) <==>
      && !MeetsAt(endings, errors, depth, limit)
      && (endings(depth).Halted? && depth < limit ==> NoErrorMet(endings, errors, depth + 1, limit))
  {
    hide MeetsAt;
  }

  /** Main result: without an error met, a task leaves what it would leave without errors. */
  lemma {:induction false} LeftWithoutErrors(r: Record, endings: nat -> Ending, errors: nat -> Errors,
                                             depth: nat, limit: nat)
    requires depth <= limit && NoErrorMet(endings, errors, depth, limit)
    ensures Left(r, endings, errors, depth, limit) == Recovered(r, endings, depth, limit)
    decreases limit - depth
  {
    hide NoErrorMet, Judged, Begin;
    NoErrorMetStep(endings, errors, depth, limit);
    var e := endings(depth);
    if e.Halted? && depth < limit {
      LeftWithoutErrors(Begin(Judged(r, e), depth, e.step), endings, errors, depth + 1, limit);
    }
  }

  lemma JudgedKeeps(r: Record, e: Ending, loaded: Id)
    requires OnlyActivePends(r, loaded)
    ensures OnlyActivePends(Judged(r, e), loaded) && (e.Over? || e.Halted? ==> Judged(r, e).active == None)
  {
  }

  lemma BeginKeeps(r: Record, attempt: nat, step: nat, loaded: Id)
    requires OnlyActivePends(r, loaded) && r.active == None
    ensures OnlyActivePends(Begin(r, attempt, step), loaded)
  {
  }

  /** Main result: since loading, whatever is pending is the active reflection, after any task. */
  lemma {:induction false} RecoveryKeeps(r: Record, endings: nat -> Ending, depth: nat, limit: nat, loaded: Id)
    requires OnlyActivePends(r, loaded)
    ensures OnlyActivePends(Recovered(r, endings, depth, limit), loaded)
    decreases if depth <= limit then limit - depth + 1 else 0
  {
    hide OnlyActivePends, Judged, Begin;
    var e := endings(depth);
    JudgedKeeps(r, e, loaded);
    if e.Halted? {
      BeginKeeps(Judged(r, e), depth, e.step, loaded);
      if depth < limit {
        RecoveryKeeps(Begin(Judged(r, e), depth, e.step), endings, depth + 1, limit, loaded);
      }
    }
  }

  /** What the last reflection of a task is left with: pending when no further attempt was
      allowed or the attempt made no move, else as the attempt ended. */
  ghost function LastVerdict(endings: nat -> Ending, depth: nat, limit: nat): Verdict
    requires Halts(endings, depth, limit) > 0
  {
    var n := Halts(endings, depth, limit);
    if depth + n > limit || Judgement(endings(depth + n)).None? then Pending
    else Judgement(endings(depth + n)).value
  }

  /** A task's new reflections, one per halted attempt: all but the last failed. */
  ghost predicate Chain(r: Record, r': Record, endings: nat -> Ending, depth: nat, limit: nat) {
    var n := Halts(endings, depth, limit);
    && r'.next == r.next + n
    && (forall k: nat | k < n :: IsLink(r.next, r'.entries, endings, depth, limit, k))
  }

  ghost predicate IsLink(first: Id, entries: map<Id, Entry>, endings: nat -> Ending, depth: nat, limit: nat, k: nat)
    requires k < Halts(endings, depth, limit)
  {
    && first + k in entries
    && var entry := entries[first + k];
    && endings(depth + k) == Halted(entry.step) && entry.attempt == depth + k
    && entry.result == if k < Halts(endings, depth, limit) - 1 then Failed else LastVerdict(endings, depth, limit)
  }

  /** An entry as an ending leaves it, if that decides anything. */
  function Decided(entry: Entry, e: Ending): Entry {
    if Judgement(e).Some? then entry.(result := Judgement(e).value) else entry
  }

  /** What was there before keeps its result, but for the reflection that was active, which the
      first attempt decides. */
  ghost predicate Past(r: Record, r': Record, e: Ending) {
    forall id | id in r.entries ::
      && id in r'.entries
      && r'.entries[id] == if r.active == Some(id) then Decided(r.entries[id], e) else r.entries[id]
  }

  lemma {:induction false} RecoveryPast(r: Record, endings: nat -> Ending, depth: nat, limit: nat, loaded: Id)
    requires OnlyActivePends(r, loaded)
    ensures Past(r, Recovered(r, endings, depth, limit), endings(depth))
    decreases if depth <= limit then limit - depth + 1 else 0
  {
    var e := endings(depth);
    JudgedKeeps(r, e, loaded);
    if e.Halted? {
      var b := Begin(Judged(r, e), depth, e.step);
      BeginKeeps(Judged(r, e), depth, e.step, loaded);
      if depth < limit {
        RecoveryPast(b, endings, depth + 1, limit, loaded);
        assert b.active == Some(r.next) && r.next !in r.entries;
      }
    }
  }

  lemma {:induction false} RecoveryLinks(r: Record, endings: nat -> Ending, depth: nat, limit: nat, loaded: Id)
    requires OnlyActivePends(r, loaded) && depth <= limit
    ensures Halts(endings, depth, limit) <= limit - depth + 1
    ensures Chain(r, Recovered(r, endings, depth, limit), endings, depth, limit)
    decreases limit - depth
  {
    var e := endings(depth);
    JudgedKeeps(r, e, loaded);
    if e.Halted? && depth < limit {
      var b := Begin(Judged(r, e), depth, e.step);
      BeginKeeps(Judged(r, e), depth, e.step, loaded);
      var r' := Recovered(b, endings, depth + 1, limit);
      RecoveryLinks(b, endings, depth + 1, limit, loaded);
      RecoveryPast(b, endings, depth + 1, limit, loaded);
      NextLinks(r, b, r', endings, depth, limit);
    }
  }

  /** The links of the next attempts, seen from this one. */
  lemma NextLinks(r: Record, b: Record, r': Record, endings: nat -> Ending, depth: nat, limit: nat)
    requires depth < limit && endings(depth).Halted?
    requires b == Begin(Judged(r, endings(depth)), depth, endings(depth).step)
    requires Judged(r, endings(depth)).next == r.next
    requires Chain(b, r', endings, depth + 1, limit) && Past(b, r', endings(depth + 1))
    ensures Chain(r, r', endings, depth, limit)
  {
    assert r.next in b.entries && b.active == Some(r.next);
    forall k: nat | k < Halts(endings, depth, limit)
      ensures IsLink(r.next, r'.entries, endings, depth, limit, k)
    {
      if k > 0 {
        assert IsLink(b.next, r'.entries, endings, depth + 1, limit, k - 1);
        assert b.next + (k - 1) == r.next + k && depth + 1 + (k - 1) == depth + k;
      }
    }
  }

  /** Main result: exactly what a task leaves in the record. A reflection is marked a success
      only when the attempt after it ran without a failed step. */
  lemma RecoveryChain(r: Record, endings: nat -> Ending, limit: nat, loaded: Id)
    requires OnlyActivePends(r, loaded)
    ensures Halts(endings, 0, limit) <= limit + 1
    ensures Chain(r, Recovered(r, endings, 0, limit), endings, 0, limit)
    ensures Past(r, Recovered(r, endings, 0, limit), endings(0))
  {
    RecoveryLinks(r, endings, 0, limit, loaded);
    RecoveryPast(r, endings, 0, limit, loaded);
  }

  /** A pending reflection becomes a success in the next task exactly when that task's first
      plan runs without a failed step, whatever the task is about. */
  lemma NextTaskDecides(r: Record, id: Id, endings: nat -> Ending, limit: nat, loaded: Id)
    requires OnlyActivePends(r, loaded) && r.active == Some(id)
    ensures id in Recovered(r, endings, 0, limit).entries
    ensures Recovered(r, endings, 0, limit).entries[id].result == Success <==> endings(0) == Over(true)
    ensures Recovered(r, endings, 0, limit).entries[id].result == Pending <==> endings(0).Paused? || endings(0).Empty?
  {
    RecoveryPast(r, endings, 0, limit, loaded);
    assert id in r.entries;
  }
}

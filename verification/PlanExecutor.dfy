/** Running plans, step by step, with recovery from failures. Running, handling a failure and
    asking for another plan call each other until the limit on attempts. */
module PlanExecutor {
  import opened Options
  import opened Reflection

  /** Raised: an error, a time-out or a cancellation left some call; what it had done stays. */
  datatype Outcome = Done | Raised

  class Memory {
    var entries: map<Id, Entry>
    var active: Option<Id>
    var next: Id
    /** Where the ids of this process begin. */
    const loaded: Id

    ghost function State(): Record
      reads this
    {
      Record(entries, active, next)
    }

    ghost predicate Valid()
      reads this
    {
      OnlyActivePends(State(), loaded)
    }

    /** Starts from what was stored, whose pending reflections stay as they are. */
    constructor (stored: map<Id, Entry>, next: Id)
      requires forall id <- stored :: id < next
      ensures Valid() && entries == stored && active == None && this.next == next && loaded == next
    {
      entries, active, this.next, loaded := stored, None, next, next;
    }

    method BeginReflection(attempt: nat, step: nat) returns (id: Id)
      modifies this
      ensures State() == Begin(old(State()), attempt, step) && active == Some(id) && id == old(next)
    {
      id := next;
      entries := entries[id := Entry(attempt, step, Pending)];
      active := Some(id);
      next := next + 1;
    }

    method FinalizePendingReflection(outcome: Verdict) returns (closed: Option<Id>)
      requires outcome != Pending
      modifies this
      ensures State() == Finalize(old(State()), outcome) && active == None
      ensures closed.Some? ==>
        old(active) == closed && closed.value in entries && entries[closed.value].result == outcome
    {
      if active.None? {
        return None;
      }
      closed := active;
      active := None;
      if closed.value !in entries {
        return None;
      }
      entries := entries[closed.value := entries[closed.value].(result := outcome)];
    }
  }

  class Executor {
    const memory: Memory
    const maxReplanDepth: nat

    constructor (memory: Memory, maxReplanDepth: nat)
      ensures this.memory == memory && this.maxReplanDepth == maxReplanDepth
    {
      this.memory, this.maxReplanDepth := memory, maxReplanDepth;
    }

    /** Goes through the steps until one ends the plan. */
    method Walk(plan: Plan) returns (ending: Ending)
      ensures IsEnding(plan, ending)
    {
      if plan.paused {
        return Paused;
      }
      if |plan.steps| == 0 {
        return Empty;
      }
      var clean := true;
      for i := 0 to |plan.steps|
        invariant forall k | 0 <= k < i :: !Ends(plan.steps[k])
        invariant clean <==> forall k | 0 <= k < i :: !Fails(plan.steps[k])
      {
        var result := plan.steps[i];
        if result.Unhandled? {
          continue;
        }
        if result.failed {
          clean := false;
        }
        if result.terminal {
          assert EndsAt(plan, i);
          return Over(clean);
        }
        if result.halts {
          assert EndsAt(plan, i);
          return Halted(i);
        }
      }
      ending := Over(clean);
    }

    /** What all three take for granted: endings tells how the plan of every attempt there may be ends. */
    ghost predicate Ready(plans: nat -> Plan, endings: nat -> Ending, depth: nat)
      reads memory
    {
      memory.Valid() && depth <= maxReplanDepth && forall d :: IsEnding(plans(d), endings(d))
    }

    /** Runs the plan of one attempt. plans and errors give the plan and the errors of every attempt
        there may be; requests counts the plans asked for. */
    method Run(plans: nat -> Plan, errors: nat -> Errors, depth: nat, ghost endings: nat -> Ending)
      returns (r: Outcome, requests: nat)
      requires Ready(plans, endings, depth)
      modifies memory
      ensures memory.Valid() && requests <= maxReplanDepth - depth
      ensures r.Done? <==> NoErrorMet(endings, errors, depth, maxReplanDepth)
      ensures memory.State() == Left(old(memory.State()), endings, errors, depth, maxReplanDepth)
      ensures r.Done? ==> memory.State() == Recovered(old(memory.State()), endings, depth, maxReplanDepth)
      ensures r.Done? ==> requests == Requests(endings, depth, maxReplanDepth)
      decreases maxReplanDepth - depth, 2
    {
      requests := 0;
      var ending := Walk(plans(depth));
      OneEnding(plans(depth), ending, endings(depth));
      NoErrorMetStep(endings, errors, depth, maxReplanDepth);
      if errors(depth).running {
        return Raised, 0;
      }
      match ending {
        case Paused =>
        case Empty =>
        case Halted(step) =>
          r, requests := HandleFailure(plans, errors, depth, step, endings);
          return;
        case Over(clean) =>
          JudgedKeeps(memory.State(), ending, memory.loaded);
          var closed := memory.FinalizePendingReflection(if clean then Success else Failed);
      }
      r := Done;
    }

    /** Closes the last reflection as failed, opens one on this failure, and tries again. */
    method HandleFailure(plans: nat -> Plan, errors: nat -> Errors, depth: nat, step: nat, ghost endings: nat -> Ending)
      returns (r: Outcome, requests: nat)
      requires Ready(plans, endings, depth) && endings(depth) == Halted(step) && !errors(depth).running
      modifies memory
      ensures memory.Valid() && requests <= maxReplanDepth - depth
      ensures r.Done? <==> NoErrorMet(endings, errors, depth, maxReplanDepth)
      ensures memory.State() == Left(old(memory.State()), endings, errors, depth, maxReplanDepth)
      ensures r.Done? ==> memory.State() == Recovered(old(memory.State()), endings, depth, maxReplanDepth)
      ensures r.Done? ==> requests == Requests(endings, depth, maxReplanDepth)
      decreases maxReplanDepth - depth, 1
    {
      requests := 0;
      JudgedKeeps(memory.State(), Halted(step), memory.loaded);
      BeginKeeps(Judged(memory.State(), Halted(step)), depth, step, memory.loaded);
      NoErrorMetStep(endings, errors, depth, maxReplanDepth);
      if errors(depth).reporting {
        return Raised, 0;
      }
      var closed := memory.FinalizePendingReflection(Failed);
      var id := memory.BeginReflection(depth, step);
      if errors(depth).sharing {
        return Raised, 0;
      }
      r, requests := RequestReplan(plans, errors, depth, endings);
    }

    /** Asks for another plan and runs it, unless the limit is reached. */
    method RequestReplan(plans: nat -> Plan, errors: nat -> Errors, depth: nat, ghost endings: nat -> Ending)
      returns (r: Outcome, requests: nat)
      requires Ready(plans, endings, depth)
      modifies memory
      ensures memory.Valid() && requests <= maxReplanDepth - depth
      ensures depth == maxReplanDepth ==> r.Done? && requests == 0 && memory.State() == old(memory.State())
      ensures depth < maxReplanDepth && errors(depth).asking ==>
        r.Raised? && requests == 1 && memory.State() == old(memory.State())
      ensures depth < maxReplanDepth && !errors(depth).asking ==>
        && (r.Done? <==> NoErrorMet(endings, errors, depth + 1, maxReplanDepth))
        && memory.State() == Left(old(memory.State()), endings, errors, depth + 1, maxReplanDepth)
        && (r.Done? ==> memory.State() == Recovered(old(memory.State()), endings, depth + 1, maxReplanDepth))
        && (r.Done? ==> requests == 1 + Requests(endings, depth + 1, maxReplanDepth))
      decreases maxReplanDepth - depth, 0
    {
      hide Recovered, Left, Requests, NoErrorMet, OnlyActivePends, IsEnding;
      if depth >= maxReplanDepth {
        return Done, 0;
      }
      requests := 1;
      if errors(depth).asking {
        return Raised, requests;
      }
      var more;
      r, more := Run(plans, errors, depth + 1, endings);
      requests := requests + more;
    }
  }

  /** A plan has one ending. */
  lemma OneEnding(p: Plan, e: Ending, f: Ending)
    requires IsEnding(p, e) && IsEnding(p, f)
    ensures e == f
  {
    if !p.paused && p.steps != [] && !(forall k | 0 <= k < |p.steps| :: !Ends(p.steps[k])) {
      var i :| 0 <= i < |p.steps| && EndsAt(p, i)
        && e == (if p.steps[i].terminal then Over(CleanTo(p, i)) else Halted(i));
      var j :| 0 <= j < |p.steps| && EndsAt(p, j)
        && f == (if p.steps[j].terminal then Over(CleanTo(p, j)) else Halted(j));
      assert i == j;
    }
  }

  /** Plans asked for are halts, save the one that finds the limit reached. */
  lemma {:induction false} RequestsAreHalts(endings: nat -> Ending, depth: nat, limit: nat)
    requires depth <= limit
    ensures var n := Halts(endings, depth, limit);
      Requests(endings, depth, limit) == if n <= limit - depth then n else limit - depth
    decreases limit - depth
  {
    if endings(depth).Halted? && depth < limit {
      RequestsAreHalts(endings, depth + 1, limit);
    }
  }
}

/** In which order tasks leave the queue, and what each end of a task means. */
module ChatQueueOrder {
  import opened ChatQueue

  /** What one step does to the queue: at most its head leaves, at most one task joins at the end. */
  ghost predicate Moves(before: seq<Task>, after: seq<Task>, k: nat, more: seq<Task>) {
    k <= |before| && k <= 1 && |more| <= 1 && after == before[k..] + more
  }

  lemma ByCallers(c: Config, s: State, e: Event) returns (k: nat, more: seq<Task>)
    requires Enabled(c, s, e) && (e.Arrive? || e.CallerTold? || e.Resume?)
    ensures Moves(s.queue, Step(c, s, e).queue, k, more)
  {
    match e {
      case Arrive =>
        k, more := if Full(c, s) then 1 else 0, if Full(c, s) then [] else [Task(s.created, 0)];
      case CallerTold(id) =>
        k, more := 0, if Full(c, s) then [] else [Task(id, 0)];
      case Resume =>
        k := 0;
        more := if Full(c, s) then [] else [if s.line[0].ByWorker? then s.hand.task else Task(s.line[0].id, 0)];
    }
  }

  lemma ByWorker(c: Config, s: State, e: Event) returns (k: nat, more: seq<Task>)
    requires Enabled(c, s, e) && !(e.Arrive? || e.CallerTold? || e.Resume?)
    ensures Moves(s.queue, Step(c, s, e).queue, k, more)
  {
    match e {
      case Take =>
        k, more := 1, [];
      case TimeOut =>
        var retries := s.hand.task.retries < c.retryLimit;
        k := if retries && Full(c, s) then 1 else 0;
        more := if retries && !Full(c, s) then [s.hand.task.(retries := s.hand.task.retries + 1)] else [];
      case WorkerTold =>
        k, more := 0, if Full(c, s) then [] else [s.hand.task];
      case Finish(_) =>
        k, more := 0, [];
      case SkipTold =>
        k, more := 0, [];
    }
  }

  lemma OneStep(c: Config, s: State, e: Event) returns (k: nat, more: seq<Task>)
    requires Enabled(c, s, e)
    ensures Moves(s.queue, Step(c, s, e).queue, k, more)
  {
    hide Enabled, Step, Moves;
    if e.Arrive? || e.CallerTold? || e.Resume? {
      k, more := ByCallers(c, s, e);
    } else {
      k, more := ByWorker(c, s, e);
    }
  }

  /** Main result: over any run, what is left of the tasks that were queued are the last of them,
      in their order, ahead of everything queued since: tasks leave in the order they joined. */
  lemma {:induction false} LeaveInOrder(c: Config, s: State, es: seq<Event>) returns (k: nat, more: seq<Task>)
    requires Runs(c, s, es)
    ensures k <= |s.queue| && After(c, s, es).queue == s.queue[k..] + more
    decreases |es|
  {
    hide Step, Enabled;
    if es == [] {
      k, more := 0, [];
      assert s.queue[0..] + [] == s.queue;
    } else {
      var k1, more1 := OneStep(c, s, es[0]);
      var s1 := Step(c, s, es[0]);
      var k2, more2 := LeaveInOrder(c, s1, es[1..]);
      var left := |s.queue| - k1;
      if k2 <= left {
        k, more := k1 + k2, more1 + more2;
        assert s1.queue[k2..] == s.queue[k..] + more1;
      } else {
        k, more := |s.queue|, s1.queue[k2..] + more2;
        assert s.queue[k..] == [];
      }
    }
  }

  /** So of two queued tasks the one that joined first is gone whenever the other is, unless it
      was put back since. */
  lemma FirstInFirstOut(c: Config, s: State, es: seq<Event>, i: nat, j: nat)
    requires Runs(c, s, es) && i < j < |s.queue|
    ensures s.queue[j] !in After(c, s, es).queue ==>
      exists k: nat, more :: i < k <= |s.queue| && After(c, s, es).queue == s.queue[k..] + more
  {
    var k, more := LeaveInOrder(c, s, es);
    if k <= i {
      assert s.queue[k..][j - k] == s.queue[j];
    }
  }

  /** Main result: the worker takes the task that is longest in the queue, and a message that finds
      the queue full drops that one. */
  lemma OldestGoes(c: Config, s: State)
    requires Invariant(c, s) && s.queue != []
    ensures s.hand == Empty ==>
      && Enabled(c, s, Take)
      && Step(c, s, Take).hand == Processing(s.queue[0]) && Step(c, s, Take).queue == s.queue[1..]
    ensures c.maxSize > 0 && |s.queue| == c.maxSize ==>
      var s' := Step(c, s, Arrive);
      s'.queue == s.queue[1..] && s'.outcomes == s.outcomes[s.queue[0].id := Overflowed]
    ensures c.maxSize == 0 || |s.queue| < c.maxSize ==>
      var s' := Step(c, s, Arrive);
      s'.queue == s.queue + [Task(s.created, 0)] && s'.outcomes == s.outcomes
  {
  }

  /** Main result: why a task ended. */
  lemma WhyEnded(c: Config, s: State, e: Event, id: nat)
    requires Enabled(c, s, e) && id in Step(c, s, e).outcomes
    requires id !in s.outcomes || Step(c, s, e).outcomes[id] != s.outcomes[id]
    ensures match Step(c, s, e).outcomes[id]
      case Processed => e == Finish(true) && s.hand.task.id == id
      case Crashed => e == Finish(false) && s.hand.task.id == id
      case TimedOut => e == SkipTold && s.hand.task.id == id
      case Overflowed => (e == Arrive || e == TimeOut) && s.queue != [] && s.queue[0].id == id && Full(c, s)
  {
    if e == Arrive || e == TimeOut {
      OverflowEnds(c, s);
    } else if !e.Finish? && e != SkipTold {
      WaitingEndsNothing(c, s, e);
    }
    hide Starts, WorkerPut, CallerPut, Wake, Put, ResumeFirst;
  }

  lemma OverflowEnds(c: Config, s: State)
    ensures Step(c, s, Arrive).outcomes
         == if Full(c, s) then s.outcomes[s.queue[0].id := Overflowed] else s.outcomes
    ensures s.hand.Processing? ==>
      Step(c, s, TimeOut).outcomes == s.outcomes
      || (Full(c, s) && Step(c, s, TimeOut).outcomes == s.outcomes[s.queue[0].id := Overflowed])
  {
  }

  lemma WaitingEndsNothing(c: Config, s: State, e: Event)
    requires Enabled(c, s, e) && (e.CallerTold? || e == Resume || e == Take || e == WorkerTold)
    ensures Step(c, s, e).outcomes == s.outcomes
  {
  }

  /** Main result: a task that times out is tried again exactly while it has retries left. */
  lemma RetriedWhileAllowed(c: Config, s: State)
    requires s.hand.Processing?
    ensures var s' := Step(c, s, TimeOut);
      var t := s.hand.task;
      && (s'.hand == Skipping(t) <==> t.retries >= c.retryLimit)
      && (t.retries < c.retryLimit ==>
           var again := Task(t.id, t.retries + 1);
           if Full(c, s) then s'.hand == Telling(again)
           else s'.hand == Empty && s'.queue == s.queue + [again])
  {
  }
}

/** When the queue can come to a standstill with work left in it, and what ends it. */
module ChatQueueProgress {
  import opened ChatQueue

  /** Nothing can happen any more unless someone enqueues another message. */
  ghost predicate Quiet(c: Config, s: State) {
    forall e | e != Arrive :: !Enabled(c, s, e)
  }

  ghost predicate Stuck(c: Config, s: State) {
    Quiet(c, s) && (s.queue != [] || s.hand != Empty || s.callers != map[])
  }

  /** The worker waits for room in the queue that only it empties, and nobody is about to act. */
  ghost predicate WaitsForItself(c: Config, s: State) {
    Waiting(c, s) && forall id | id in s.callers :: s.callers[id] == Blocked
  }

  /** The worker waits for room in a full queue, and everyone in line sleeps. */
  ghost predicate Waiting(c: Config, s: State) {
    s.hand.Putting? && Full(c, s) && s.awake == 0
  }

  /** Standing still with work left means exactly that the worker waits for itself. */
  lemma StuckIffWaitsForItself(c: Config, s: State)
    requires Invariant(c, s)
    ensures Stuck(c, s) <==> WaitsForItself(c, s)
  {
    if Stuck(c, s) {
      assert !Enabled(c, s, Take) && !Enabled(c, s, Finish(true)) && !Enabled(c, s, WorkerTold);
      assert !Enabled(c, s, SkipTold) && !Enabled(c, s, Resume);
      forall id | id in s.callers
        ensures s.callers[id] == Blocked
      {
        assert !Enabled(c, s, CallerTold(id));
      }
      assert Waits(s, ByWorker) ==> s.line != [];
      if s.line != [] {
        assert s.line[0] in s.line && Waits(s, s.line[0]);
      } else if s.callers != map[] {
        var id :| id in s.callers;
        assert Waits(s, ByCaller(id));
      }
    }
  }

  // ---------------------------------------------------------------------
  // What ends it
  // ---------------------------------------------------------------------

  /** How many are ahead of the worker in line. */
  ghost function Ahead(line: seq<Waiter>): nat {
    if line == [] || line[0] == ByWorker then 0 else 1 + Ahead(line[1..])
  }

  function Arrivals(es: seq<Event>): nat
    decreases |es|
  {
    if es == [] then 0 else Arrivals(es[1..]) + if es[0] == Arrive then 1 else 0
  }

  /** Whoever is woken looks for room before anything else happens: no message comes in between,
      and every notice takes longer than that. */
  ghost predicate Prompt(c: Config, s: State, es: seq<Event>)
    requires Runs(c, s, es)
    decreases |es|
  {
    es != [] ==> (s.awake > 0 ==> es[0] == Resume) && Prompt(c, Step(c, s, es[0]), es[1..])
  }

  /** At some point of the run the worker has put its task back. */
  ghost predicate GoesOn(c: Config, s: State, es: seq<Event>)
    requires Runs(c, s, es)
    decreases |es|
  {
    s.hand == Empty || (es != [] && GoesOn(c, Step(c, s, es[0]), es[1..]))
  }

  lemma {:induction false} AheadOfMore(line: seq<Waiter>, w: Waiter)
    requires ByWorker in line
    ensures Ahead(line + [w]) == Ahead(line)
  {
    if line[0] != ByWorker {
      assert (line + [w])[1..] == line[1..] + [w];
      AheadOfMore(line[1..], w);
    }
  }

  /** A caller that was notifying joins the line behind the worker. */
  lemma ToldBehind(c: Config, s: State, id: nat)
    requires Invariant(c, s) && Waiting(c, s) && Enabled(c, s, CallerTold(id))
    ensures var s' := Step(c, s, CallerTold(id));
      Waiting(c, s') && s'.hand == s.hand && Ahead(s'.line) == Ahead(s.line)
  {
    assert Waits(s, ByWorker);
    AheadOfMore(s.line, ByCaller(id));
  }

  /** A message makes room for the first in line. */
  lemma MessageAndTurn(c: Config, s: State)
    requires Invariant(c, s) && Waiting(c, s)
    ensures var s1 := Step(c, s, Arrive);
      && s1.awake == 1 && s1.hand == s.hand && Enabled(c, s1, Resume)
      && var s2 := Step(c, s1, Resume);
      if Ahead(s.line) == 0 then s2.hand == Empty
      else Waiting(c, s2) && s2.hand == s.hand && Ahead(s2.line) == Ahead(s.line) - 1
  {
    assert Waits(s, ByWorker);
    assert s.line != [] && s.line[0] in s.line;
    StepKeepsInvariant(c, s, Arrive);
  }

  lemma OnlyThese(c: Config, s: State, e: Event)
    requires Waiting(c, s) && Enabled(c, s, e)
    ensures e == Arrive || e.CallerTold?
  {
  }

  /** Main result: while everyone woken looks for room promptly, the worker goes on exactly when
      more messages have come in than there were callers ahead of it; until then each message
      moves it one place up. */
  lemma {:induction false} GoesOnIff(c: Config, s: State, es: seq<Event>)
    requires Invariant(c, s) && Waiting(c, s)
    requires Runs(c, s, es) && Prompt(c, s, es) && After(c, s, es).awake == 0
    ensures GoesOn(c, s, es) <==> Arrivals(es) > Ahead(s.line)
    ensures Arrivals(es) <= Ahead(s.line) ==> Waiting(c, After(c, s, es)) && After(c, s, es).hand == s.hand
    ensures Arrivals(es) <= Ahead(s.line) ==> Ahead(After(c, s, es).line) == Ahead(s.line) - Arrivals(es)
    decreases |es|
  {
    hide Step, Enabled, Invariant;
    if es != [] {
      OnlyThese(c, s, es[0]);
      StepKeepsInvariant(c, s, es[0]);
      var s1, rest := Step(c, s, es[0]), es[1..];
      if es[0] == Arrive {
        MessageAndTurn(c, s);
        assert rest != [] && rest[0] == Resume;
        StepKeepsInvariant(c, s1, Resume);
        var s2 := Step(c, s1, Resume);
        assert GoesOn(c, s1, rest) <==> GoesOn(c, s2, rest[1..]);
        assert Arrivals(rest) == Arrivals(rest[1..]);
        if Ahead(s.line) > 0 {
          assert Prompt(c, s2, rest[1..]);
          GoesOnIff(c, s2, rest[1..]);
        } else {
          assert GoesOn(c, s2, rest[1..]);
        }
      } else {
        ToldBehind(c, s, es[0].id);
        GoesOnIff(c, s1, rest);
      }
    }
  }

  /** A second message that overtakes the wake-up takes the room, and whoever was woken goes to
      the end of the line: the queue stands still as before. */
  lemma Overtaken(c: Config, s: State)
    requires Invariant(c, s) && WaitsForItself(c, s)
    ensures Enabled(c, s, Arrive)
    ensures var s1 := Step(c, s, Arrive);
      && Enabled(c, s1, Arrive)
      && var s2 := Step(c, s1, Arrive);
      && Enabled(c, s2, Resume)
      && var s3 := Step(c, s2, Resume);
      && Enabled(c, s3, CallerTold(s.created))
      && var s4 := Step(c, s3, CallerTold(s.created));
      && WaitsForItself(c, s4)
      && {s.hand, s1.hand, s2.hand, s3.hand, s4.hand} == {s.hand}
  {
    assert Waits(s, ByWorker);
    assert s.line != [] && s.line[0] in s.line;
    assert Places(s, s.created) == 0;
    StepKeepsInvariant(c, s, Arrive);
    StepKeepsInvariant(c, Step(c, s, Arrive), Arrive);
  }

  /** Without promptness no number of messages is enough. */
  lemma {:induction false} NeverEnough(c: Config, s: State, n: nat) returns (es: seq<Event>)
    requires Invariant(c, s) && WaitsForItself(c, s)
    ensures Runs(c, s, es) && Arrivals(es) >= n && !GoesOn(c, s, es)
    ensures WaitsForItself(c, After(c, s, es)) && After(c, s, es).hand == s.hand
    decreases n
  {
    if n == 0 {
      es := [];
    } else {
      Overtaken(c, s);
      hide Step, Enabled, Invariant;
      StepKeepsInvariant(c, s, Arrive);
      var s1 := Step(c, s, Arrive);
      StepKeepsInvariant(c, s1, Arrive);
      var s2 := Step(c, s1, Arrive);
      StepKeepsInvariant(c, s2, Resume);
      var s3 := Step(c, s2, Resume);
      StepKeepsInvariant(c, s3, CallerTold(s.created));
      var s4 := Step(c, s3, CallerTold(s.created));
      var more := NeverEnough(c, s4, n - 1);
      Before(c, s3, CallerTold(s.created), more);
      Before(c, s2, Resume, [CallerTold(s.created)] + more);
      Before(c, s1, Arrive, [Resume] + ([CallerTold(s.created)] + more));
      Before(c, s, Arrive, [Arrive] + ([Resume] + ([CallerTold(s.created)] + more)));
      es := [Arrive] + ([Arrive] + ([Resume] + ([CallerTold(s.created)] + more)));
    }
  }

  /** One event before a run. */
  lemma Before(c: Config, s: State, e: Event, es: seq<Event>)
    requires Enabled(c, s, e) && Runs(c, Step(c, s, e), es)
    ensures Runs(c, s, [e] + es) && After(c, s, [e] + es) == After(c, Step(c, s, e), es)
    ensures Arrivals([e] + es) == Arrivals(es) + if e == Arrive then 1 else 0
    ensures GoesOn(c, s, [e] + es) <==> s.hand == Empty || GoesOn(c, Step(c, s, e), es)
  {
    hide Step, Enabled;
    assert ([e] + es)[1..] == es;
  }

  // ---------------------------------------------------------------------
  // How it comes about
  // ---------------------------------------------------------------------

  /** Only a task that is being retried is ever put back. */
  ghost predicate RetriedInHand(c: Config, s: State) {
    s.hand.Telling? || s.hand.Putting? ==> 1 <= s.hand.task.retries <= c.retryLimit
  }

  lemma {:induction false} RunKeepsRetried(c: Config, s: State, es: seq<Event>)
    requires RetriedInHand(c, s) && Runs(c, s, es)
    ensures RetriedInHand(c, After(c, s, es))
    decreases |es|
  {
    if es != [] {
      RunKeepsRetried(c, Step(c, s, es[0]), es[1..]);
    }
  }

  lemma {:induction false} RunsCompose(c: Config, s: State, es: seq<Event>, fs: seq<Event>)
    requires Runs(c, s, es) && Runs(c, After(c, s, es), fs)
    ensures Runs(c, s, es + fs) && After(c, s, es + fs) == After(c, After(c, s, es), fs)
    decreases |es|
  {
    hide Step, Enabled;
    if es == [] {
      assert es + fs == fs;
    } else {
      RunsCompose(c, Step(c, s, es[0]), es[1..], fs);
      assert (es + fs)[1..] == es[1..] + fs;
    }
  }

  /** A run from the start, one event longer. */
  lemma OneMore(c: Config, es: seq<Event>, e: Event)
    requires Runs(c, INITIAL, es) && Enabled(c, After(c, INITIAL, es), e)
    ensures Runs(c, INITIAL, es + [e]) && After(c, INITIAL, es + [e]) == Step(c, After(c, INITIAL, es), e)
    ensures Invariant(c, After(c, INITIAL, es + [e]))
  {
    hide Step, Enabled, Invariant;
    var s := After(c, INITIAL, es);
    assert [e][1..] == [] && Runs(c, Step(c, s, e), []) && Runs(c, s, [e]);
    RunsCompose(c, INITIAL, es, [e]);
    InitiallyInvariant(c);
    RunKeepsInvariant(c, INITIAL, es + [e]);
  }

  /** Messages that arrive while there is room are queued. */
  lemma {:induction false} Fill(c: Config, es: seq<Event>, n: nat) returns (es': seq<Event>)
    requires Runs(c, INITIAL, es) && |After(c, INITIAL, es).queue| + n <= c.maxSize
    ensures Runs(c, INITIAL, es') && |After(c, INITIAL, es').queue| == |After(c, INITIAL, es).queue| + n
    ensures After(c, INITIAL, es').hand == After(c, INITIAL, es).hand
    ensures After(c, INITIAL, es').callers == After(c, INITIAL, es).callers
    ensures After(c, INITIAL, es').line == After(c, INITIAL, es).line
    ensures After(c, INITIAL, es').awake == After(c, INITIAL, es).awake
    decreases n
  {
    if n == 0 {
      es' := es;
    } else {
      OneMore(c, es, Arrive);
      es' := Fill(c, es + [Arrive], n - 1);
    }
  }

  ghost function Notifiers(s: State): set<nat> {
    set id | id in s.callers && s.callers[id] == Notifying
  }

  /** A first task is being processed, the queue is full behind it, and nobody is woken. */
  ghost predicate Busy(c: Config, s: State) {
    Invariant(c, s) && s.hand == Processing(Task(0, 0)) && Full(c, s) && s.awake == 0
  }

  lemma FirstTask(c: Config) returns (es: seq<Event>)
    requires c.maxSize >= 1
    ensures Runs(c, INITIAL, es) && Busy(c, After(c, INITIAL, es))
    ensures After(c, INITIAL, es).callers == map[] && After(c, INITIAL, es).line == []
  {
    OneMore(c, [], Arrive);
    OneMore(c, [] + [Arrive], Take);
    es := Fill(c, [] + [Arrive] + [Take], c.maxSize);
    InitiallyInvariant(c);
    RunKeepsInvariant(c, INITIAL, es);
  }

  lemma CrowdStep(c: Config, s: State)
    requires Busy(c, s) && s.line == []
    ensures var s1 := Step(c, s, Arrive);
      && !Full(c, s1)
      && var s2 := Step(c, s1, Arrive);
      && s2.hand == s.hand && Full(c, s2) && s2.awake == 0 && s2.line == []
      && s.created !in Notifiers(s) && Notifiers(s2) == Notifiers(s) + {s.created}
  {
    assert Places(s, s.created) == 0;
  }

  /** n callers drop a task each and are notifying the player about it, while other messages
      take the room. */
  lemma {:induction false} Crowd(c: Config, es: seq<Event>, n: nat) returns (es': seq<Event>)
    requires Runs(c, INITIAL, es) && Busy(c, After(c, INITIAL, es)) && After(c, INITIAL, es).line == []
    ensures Runs(c, INITIAL, es') && Busy(c, After(c, INITIAL, es')) && After(c, INITIAL, es').line == []
    ensures |Notifiers(After(c, INITIAL, es'))| == |Notifiers(After(c, INITIAL, es))| + n
    decreases n
  {
    if n == 0 {
      es' := es;
    } else {
      var s := After(c, INITIAL, es);
      CrowdStep(c, s);
      hide Step, Notifiers, Invariant, Full;
      OneMore(c, es, Arrive);
      OneMore(c, es + [Arrive], Arrive);
      es' := Crowd(c, es + [Arrive] + [Arrive], n - 1);
    }
  }

  lemma QueueUpStep(c: Config, s: State, id: nat)
    requires Busy(c, s) && id in Notifiers(s)
    ensures Enabled(c, s, CallerTold(id))
    ensures var s' := Step(c, s, CallerTold(id));
      && s'.hand == s.hand && Full(c, s') && s'.awake == 0
      && s'.line == s.line + [ByCaller(id)] && Notifiers(s') == Notifiers(s) - {id}
  {
  }

  /** They have notified, and go to the line. */
  lemma {:induction false} QueueUp(c: Config, es: seq<Event>) returns (es': seq<Event>)
    requires Runs(c, INITIAL, es) && Busy(c, After(c, INITIAL, es))
    ensures Runs(c, INITIAL, es') && Busy(c, After(c, INITIAL, es'))
    ensures Notifiers(After(c, INITIAL, es')) == {}
    ensures |After(c, INITIAL, es').line| == |After(c, INITIAL, es).line| + |Notifiers(After(c, INITIAL, es))|
    decreases |Notifiers(After(c, INITIAL, es))|
  {
    var s := After(c, INITIAL, es);
    if Notifiers(s) == {} {
      es' := es;
    } else {
      var id :| id in Notifiers(s);
      QueueUpStep(c, s, id);
      hide Step, Enabled, Notifiers, Invariant, Full;
      OneMore(c, es, CallerTold(id));
      es' := QueueUp(c, es + [CallerTold(id)]);
    }
  }

  lemma {:induction false} CallersAhead(line: seq<Waiter>)
    requires ByWorker !in line
    ensures Ahead(line + [ByWorker]) == |line|
  {
    if line != [] {
      assert (line + [ByWorker])[1..] == line[1..] + [ByWorker];
      CallersAhead(line[1..]);
    }
  }

  /** The task times out on the full queue, the first in line takes the room that this makes,
      and the worker queues up behind the others. */
  lemma TimeOutBehind(c: Config, s: State)
    requires Busy(c, s) && c.retryLimit >= 1 && s.line != [] && Notifiers(s) == {}
    ensures Enabled(c, s, TimeOut)
    ensures var s1 := Step(c, s, TimeOut);
      && Enabled(c, s1, Resume)
      && var s2 := Step(c, s1, Resume);
      && Enabled(c, s2, WorkerTold)
      && var s3 := Step(c, s2, WorkerTold);
      && WaitsForItself(c, s3) && Ahead(s3.line) == |s.line| - 1
  {
    assert !Waits(s, ByWorker);
    assert s.line[0] in s.line;
    CallersAhead(s.line[1..]);
    forall id | id in s.callers
      ensures s.callers[id] == Blocked
    {
      assert id !in Notifiers(s);
    }
  }

  /** A run from the start that ends in a standstill. */
  ghost predicate ComesToStandstill(c: Config, es: seq<Event>) {
    Runs(c, INITIAL, es) && Stuck(c, After(c, INITIAL, es))
  }

  /** Main result: with any number of callers ahead of the worker a standstill can be reached. */
  lemma GetStuck(c: Config, ahead: nat) returns (es: seq<Event>)
    requires c.maxSize >= 1 && c.retryLimit >= 1
    ensures ComesToStandstill(c, es) && Ahead(After(c, INITIAL, es).line) == ahead
  {
    es := FirstTask(c);
    hide Step, Enabled, Invariant, Ahead, Full;
    es := Crowd(c, es, ahead + 1);
    es := QueueUp(c, es);
    TimeOutBehind(c, After(c, INITIAL, es));
    OneMore(c, es, TimeOut);
    OneMore(c, es + [TimeOut], Resume);
    OneMore(c, es + [TimeOut] + [Resume], WorkerTold);
    es := es + [TimeOut] + [Resume] + [WorkerTold];
    StuckIffWaitsForItself(c, After(c, INITIAL, es));
  }

  /** Main result: the queue can come to a standstill with work left exactly when it is
      bounded and timed-out tasks are retried. */
  lemma StandstillIff(c: Config)
    ensures (exists es :: ComesToStandstill(c, es)) <==> c.maxSize >= 1 && c.retryLimit >= 1
  {
    if c.maxSize >= 1 && c.retryLimit >= 1 {
      var es := GetStuck(c, 0);
    }
    forall es | ComesToStandstill(c, es)
      ensures c.maxSize >= 1 && c.retryLimit >= 1
    {
      RunKeepsRetried(c, INITIAL, es);
      InitiallyInvariant(c);
      RunKeepsInvariant(c, INITIAL, es);
      StuckIffWaitsForItself(c, After(c, INITIAL, es));
    }
  }
}

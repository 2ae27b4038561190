/** What can still be delivered from a reachable state: everything outstanding, unless a
    final attempt has already failed with too little room to put its batch back. */
module BridgeDelivery {
  import opened AgentBridge
  import opened Options

  /** The final attempt of the flush has no socket, or has failed, and its batch no longer fits. */
  predicate Doomed(c: Config, s: Bridge) {
    && |InFlight(s)| + |s.queue| > c.queueMax
    && match s.flush {
         case Sending(_, attempt, via) => via.None? && attempt >= c.MaxAttempts()
         case Failing(_) => true
         case _ => false
       }
  }

  ghost predicate Drained(s: Bridge) {
    s.queue == [] && s.flush == Idle
  }

  /** A run that leaves nothing waiting and loses nothing: what was outstanding is now acknowledged, in order. */
  ghost predicate Delivers(c: Config, s: Bridge, es: seq<Event>) {
    && Runs(c, s, es) && Emit !in es
    && Drained(After(c, s, es))
    && After(c, s, es).acked == Ledger(s)
    && After(c, s, es).dropped == s.dropped
  }

  lemma {:induction false} RunsCompose(c: Config, s: Bridge, es: seq<Event>, fs: seq<Event>)
    requires Runs(c, s, es) && Runs(c, After(c, s, es), fs)
    ensures Runs(c, s, es + fs) && After(c, s, es + fs) == After(c, After(c, s, es), fs)
    decreases |es|
  {
    hide Step, Enabled;
    if es == [] {
      assert es + fs == fs;
    } else {
      RunsCompose(c, Step(c, s, es[0]), es[1..], fs);
      assert (es + fs)[1..] == es[1..] + fs;
    }
  }

  lemma OneEvent(c: Config, s: Bridge, e: Event)
    requires Enabled(s, e)
    ensures Runs(c, s, [e]) && After(c, s, [e]) == Step(c, s, e)
  {
    hide Step, Enabled;
    assert [e][1..] == [];
    assert Runs(c, Step(c, s, e), []);
  }

  /** Two runs, one after the other, that add no event and keep what is outstanding. */
  lemma DeliverLater(c: Config, s: Bridge, es: seq<Event>, fs: seq<Event>)
    requires Runs(c, s, es) && Emit !in es && Delivers(c, After(c, s, es), fs)
    requires Ledger(After(c, s, es)) == Ledger(s) && After(c, s, es).dropped == s.dropped
    ensures Delivers(c, s, es + fs)
  {
    hide Step, Enabled, Ledger;
    RunsCompose(c, s, es, fs);
  }

  lemma DeliverAfter(c: Config, s: Bridge, e: Event, fs: seq<Event>)
    requires Enabled(s, e) && e != Emit && Delivers(c, Step(c, s, e), fs)
    requires Ledger(Step(c, s, e)) == Ledger(s) && Step(c, s, e).dropped == s.dropped
    ensures Delivers(c, s, [e] + fs)
  {
    hide Step, Enabled, Ledger, Delivers;
    OneEvent(c, s, e);
    DeliverLater(c, s, [e], fs);
  }

  ghost predicate SameOutstanding(s: Bridge, s': Bridge) {
    s'.flush == s.flush && s'.queue == s.queue && s'.acked == s.acked && s'.dropped == s.dropped
    && s'.emitted == s.emitted && s'.batchTimer == s.batchTimer
  }

  /** From any reachable state a connected session is at most three events away: a socket that is
      terminated closes first, and the reconnect timer brings another. */
  lemma Connect(c: Config, s: Bridge) returns (es: seq<Event>)
    requires c.Usable() && Invariant(c, s) && s.created > 0
    ensures Runs(c, s, es) && Emit !in es && |es| <= 3
    ensures Invariant(c, After(c, s, es)) && After(c, s, es).session == Connected && SameOutstanding(s, After(c, s, es))
  {
    match s.session {
      case Connected =>
        es := [];
      case Connecting =>
        var k := s.socket.value;
        if k in s.terminated {
          StepKeepsInvariant(c, s, Closed(k));
          OneEvent(c, s, Closed(k));
          es := ConnectAnew(c, Step(c, s, Closed(k)));
          RunsCompose(c, s, [Closed(k)], es);
          es := [Closed(k)] + es;
        } else {
          OneEvent(c, s, Opened(k));
          es := [Opened(k)];
          StepKeepsInvariant(c, s, es[0]);
        }
      case Disconnected =>
        es := ConnectAnew(c, s);
    }
  }

  lemma ConnectAnew(c: Config, s: Bridge) returns (es: seq<Event>)
    requires c.Usable() && Invariant(c, s) && s.created > 0 && s.session == Disconnected
    ensures Runs(c, s, es) && Emit !in es && |es| == 2
    ensures Invariant(c, After(c, s, es)) && After(c, s, es).session == Connected && SameOutstanding(s, After(c, s, es))
  {
    var s1 := Step(c, s, ReconnectTimer);
    StepKeepsInvariant(c, s, ReconnectTimer);
    StepKeepsInvariant(c, s1, Opened(s.created));
    OneEvent(c, s, ReconnectTimer);
    OneEvent(c, s1, Opened(s.created));
    RunsCompose(c, s, [ReconnectTimer], [Opened(s.created)]);
    es := [ReconnectTimer] + [Opened(s.created)];
  }

  lemma SomethingWasCreated(c: Config, s: Bridge)
    requires Invariant(c, s) && |Ledger(s)| > |s.acked|
    ensures s.created > 0
  {
    var l := Ledger(s);
    assert l[|l| - 1] in l;
  }

  /** An idle bridge empties its queue batch by batch. */
  lemma {:induction false} DeliverQueue(c: Config, s: Bridge) returns (es: seq<Event>)
    requires c.Usable() && Invariant(c, s) && s.flush == Idle
    ensures Delivers(c, s, es)
    decreases |s.queue|, 1
  {
    if s.queue == [] {
      es := [];
      assert Ledger(s) == s.acked;
    } else {
      SomethingWasCreated(c, s);
      var pre := Connect(c, s);
      var s1 := After(c, s, pre);
      assert Ledger(s1) == Ledger(s);
      es := DeliverBatch(c, s1);
      DeliverLater(c, s, pre, es);
      es := pre + es;
    }
  }

  lemma {:induction false} DeliverBatch(c: Config, s: Bridge) returns (es: seq<Event>)
    requires c.Usable() && Invariant(c, s) && s.flush == Idle && s.queue != [] && s.session == Connected && s.batchTimer
    ensures Delivers(c, s, es)
    decreases |s.queue|, 0
  {
    ConnectedHasSocket(c, s);
    hide Invariant, Delivers;
    StepKeepsInvariant(c, s, BatchTimer(true));
    OtherStepsKeepLedger(c, s, BatchTimer(true));
    es := DeliverFromLiveAttempt(c, Step(c, s, BatchTimer(true)));
    DeliverAfter(c, s, BatchTimer(true), es);
    es := [BatchTimer(true)] + es;
  }

  lemma ConnectedHasSocket(c: Config, s: Bridge)
    requires Invariant(c, s) && s.session == Connected
    ensures s.socket.Some?
  {
  }

  // ---------------------------------------------------------------------
  // From any flush
  // ---------------------------------------------------------------------

  lemma {:induction false} DeliverFromSettling(c: Config, s: Bridge) returns (es: seq<Event>)
    requires c.Usable() && Invariant(c, s) && s.flush.Settling?
    ensures Delivers(c, s, es)
    decreases |s.queue|, 2
  {
    StepKeepsInvariant(c, s, FinallyRuns);
    es := DeliverQueue(c, Step(c, s, FinallyRuns));
    DeliverAfter(c, s, FinallyRuns, es);
    es := [FinallyRuns] + es;
  }

  lemma {:induction false} DeliverFromLiveAttempt(c: Config, s: Bridge) returns (es: seq<Event>)
    requires c.Usable() && Invariant(c, s) && s.flush.Sending? && s.flush.via.Some?
    ensures Delivers(c, s, es)
    decreases |s.queue|, 3
  {
    hide Invariant, Delivers;
    StepKeepsInvariant(c, s, SendOk);
    OtherStepsKeepLedger(c, s, SendOk);
    es := DeliverFromSettling(c, Step(c, s, SendOk));
    DeliverAfter(c, s, SendOk, es);
    es := [SendOk] + es;
  }

  lemma DeliverFromFailing(c: Config, s: Bridge) returns (es: seq<Event>)
    requires c.Usable() && Invariant(c, s) && s.flush.Failing? && !Doomed(c, s)
    ensures Delivers(c, s, es)
  {
    hide Invariant, Delivers;
    StepKeepsInvariant(c, s, CatchRuns);
    var batch := s.flush.batch;
    assert batch[..|batch|] == batch && batch[|batch|..] == [];
    assert Ledger(Step(c, s, CatchRuns)) == Ledger(s);
    es := DeliverFromSettling(c, Step(c, s, CatchRuns));
    DeliverAfter(c, s, CatchRuns, es);
    es := [CatchRuns] + es;
  }

  lemma DeliverFromBackoff(c: Config, s: Bridge) returns (es: seq<Event>)
    requires c.Usable() && Invariant(c, s) && s.flush.Backoff?
    ensures Delivers(c, s, es)
  {
    assert |s.flush.batch| >= 1;
    SomethingWasCreated(c, s);
    hide Invariant, Delivers;
    var pre := Connect(c, s);
    var s1 := After(c, s, pre);
    assert Ledger(s1) == Ledger(s);
    assert s1.socket.Some? by {
      ConnectedHasSocket(c, s1);
    }
    StepKeepsInvariant(c, s1, BackoffOver(true));
    OtherStepsKeepLedger(c, s1, BackoffOver(true));
    es := DeliverFromLiveAttempt(c, Step(c, s1, BackoffOver(true)));
    DeliverAfter(c, s1, BackoffOver(true), es);
    DeliverLater(c, s, pre, [BackoffOver(true)] + es);
    es := pre + ([BackoffOver(true)] + es);
  }

  lemma DeliverFromDeadAttempt(c: Config, s: Bridge) returns (es: seq<Event>)
    requires c.Usable() && Invariant(c, s) && s.flush.Sending? && s.flush.via.None? && !Doomed(c, s)
    ensures Delivers(c, s, es)
  {
    hide Invariant, Delivers;
    var s1 := Step(c, s, SendFail(false));
    StepKeepsInvariant(c, s, SendFail(false));
    OtherStepsKeepLedger(c, s, SendFail(false));
    if s.flush.attempt >= c.MaxAttempts() {
      es := DeliverFromFailing(c, s1);
    } else {
      es := DeliverFromBackoff(c, s1);
    }
    DeliverAfter(c, s, SendFail(false), es);
    es := [SendFail(false)] + es;
  }

  lemma Deliver(c: Config, s: Bridge) returns (es: seq<Event>)
    requires c.Usable() && Invariant(c, s) && !Doomed(c, s)
    ensures Delivers(c, s, es)
  {
    hide Invariant, Delivers;
    match s.flush {
      case Idle => es := DeliverQueue(c, s);
      case Settling => es := DeliverFromSettling(c, s);
      case Failing(_) => es := DeliverFromFailing(c, s);
      case Backoff(_, _) => es := DeliverFromBackoff(c, s);
      case Sending(_, _, via) =>
        if via.Some? {
          es := DeliverFromLiveAttempt(c, s);
        } else {
          es := DeliverFromDeadAttempt(c, s);
        }
    }
  }

  // ---------------------------------------------------------------------
  // A doomed batch
  // ---------------------------------------------------------------------

  /** Something more is dropped. */
  ghost predicate LostMore(before: set<Serial>, after: set<Serial>) {
    before <= after && exists e :: e in after && e !in before
  }

  lemma DroppedOnlyGrows(c: Config, s: Bridge, e: Event)
    requires Enabled(s, e)
    ensures s.dropped <= Step(c, s, e).dropped
  {
    if e != Emit && e != CatchRuns {
      OtherStepsKeepLedger(c, s, e);
    }
  }

  /** A doomed flush stays doomed until its catch handler gives part of the batch up. */
  lemma DoomedStep(c: Config, s: Bridge, e: Event)
    requires c.Usable() && Invariant(c, s) && Doomed(c, s) && Enabled(s, e)
    ensures var s' := Step(c, s, e);
      (s'.dropped == s.dropped && Doomed(c, s')) || LostMore(s.dropped, s'.dropped)
  {
    DroppedOnlyGrows(c, s, e);
    if e == CatchRuns {
      var batch := s.flush.batch;
      var n := Room(c, s, batch);
      assert batch[n] in batch[n..] && batch[n] in Ledger(s);
    } else if e == Emit && |s.queue| >= c.queueMax {
      assert s.queue[0] in Ledger(s);
    }
  }

  lemma {:induction false} LossIsFinal(c: Config, s: Bridge, es: seq<Event>)
    requires Runs(c, s, es)
    ensures s.dropped <= After(c, s, es).dropped
    decreases |es|
  {
    hide Step, Enabled;
    if es != [] {
      DroppedOnlyGrows(c, s, es[0]);
      LossIsFinal(c, Step(c, s, es[0]), es[1..]);
    }
  }

  lemma {:induction false} DoomedRun(c: Config, s: Bridge, es: seq<Event>)
    requires c.Usable() && Invariant(c, s) && Doomed(c, s) && Runs(c, s, es)
    ensures Doomed(c, After(c, s, es)) || After(c, s, es).dropped != s.dropped
    decreases |es|
  {
    hide Step, Enabled, Invariant, Doomed;
    if es != [] {
      var s1 := Step(c, s, es[0]);
      DoomedStep(c, s, es[0]);
      StepKeepsInvariant(c, s, es[0]);
      if Doomed(c, s1) && s1.dropped == s.dropped {
        DoomedRun(c, s1, es[1..]);
      } else {
        LossIsFinal(c, s1, es[1..]);
      }
    }
  }

  /** Main result: from a reachable state everything outstanding can still be acknowledged, in order
      and with nothing dropped, exactly when the flush in flight is not doomed. */
  lemma DeliverableIffNotDoomed(c: Config, s: Bridge)
    requires c.Usable() && Invariant(c, s)
    ensures (exists es :: Delivers(c, s, es)) <==> !Doomed(c, s)
  {
    if Doomed(c, s) {
      forall es
        ensures !Delivers(c, s, es)
      {
        if Runs(c, s, es) {
          DoomedRun(c, s, es);
        }
      }
    } else {
      var es := Deliver(c, s);
    }
  }

  // ---------------------------------------------------------------------
  // Doom does happen
  // ---------------------------------------------------------------------

  lemma OneMore(c: Config, es: seq<Event>, e: Event)
    requires Runs(c, INITIAL, es) && Enabled(After(c, INITIAL, es), e)
    ensures Runs(c, INITIAL, es + [e]) && After(c, INITIAL, es + [e]) == Step(c, After(c, INITIAL, es), e)
  {
    hide Step, Enabled;
    OneEvent(c, After(c, INITIAL, es), e);
    RunsCompose(c, INITIAL, es, [e]);
  }

  /** A batch of one event is being sent for the first time, and nothing waits. */
  lemma FirstBatch(c: Config) returns (es: seq<Event>)
    requires c.Usable()
    ensures Runs(c, INITIAL, es)
    ensures After(c, INITIAL, es).flush == Sending([0], 1, Some(0)) && After(c, INITIAL, es).queue == []
  {
    OneMore(c, [], Emit);
    var s1 := Step(c, INITIAL, Emit);
    OneMore(c, [] + [Emit], Opened(0));
    var s2 := Step(c, s1, Opened(0));
    OneMore(c, [] + [Emit] + [Opened(0)], BatchTimer(true));
    es := [] + [Emit] + [Opened(0)] + [BatchTimer(true)];
    assert s2.queue == [0] && s2.queue[..1] == [0] && s2.queue[1..] == [];
  }

  /** Events that come in while there is room. */
  lemma {:induction false} FillUp(c: Config, es: seq<Event>, n: nat) returns (es': seq<Event>)
    requires Runs(c, INITIAL, es) && |After(c, INITIAL, es).queue| + n <= c.queueMax
    ensures Runs(c, INITIAL, es') && After(c, INITIAL, es').flush == After(c, INITIAL, es).flush
    ensures |After(c, INITIAL, es').queue| == |After(c, INITIAL, es).queue| + n
    decreases n
  {
    if n == 0 {
      es' := es;
    } else {
      OneMore(c, es, Emit);
      es' := FillUp(c, es + [Emit], n - 1);
    }
  }

  /** Every attempt from here on fails. */
  lemma {:induction false} FailOn(c: Config, es: seq<Event>) returns (es': seq<Event>)
    requires Runs(c, INITIAL, es) && After(c, INITIAL, es).flush.Sending?
    ensures Runs(c, INITIAL, es') && After(c, INITIAL, es').flush == Failing(After(c, INITIAL, es).flush.batch)
    ensures After(c, INITIAL, es').queue == After(c, INITIAL, es).queue
    decreases c.MaxAttempts() - After(c, INITIAL, es).flush.attempt
  {
    var s := After(c, INITIAL, es);
    OneMore(c, es, SendFail(false));
    es' := es + [SendFail(false)];
    if s.flush.attempt < c.MaxAttempts() {
      OneMore(c, es', BackoffOver(true));
      es' := FailOn(c, es' + [BackoffOver(true)]);
    }
  }

  /** Main result: with every configuration a run from the start can lose an event this way. A
      batch is on its way while the queue fills up behind it, and all its attempts fail. */
  lemma DoomIsReachable(c: Config) returns (es: seq<Event>)
    requires c.Usable()
    ensures Runs(c, INITIAL, es) && Doomed(c, After(c, INITIAL, es)) && Invariant(c, After(c, INITIAL, es))
  {
    hide Step, Enabled, Invariant, Ledger;
    es := FirstBatch(c);
    es := FillUp(c, es, c.queueMax);
    es := FailOn(c, es);
    InitiallyInvariant(c);
    RunKeepsInvariant(c, INITIAL, es);
  }
}

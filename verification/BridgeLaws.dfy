/** What a step of the bridge does to events, attempts and sockets, told from what the step is
    about rather than from how it is carried out. */
module BridgeLaws {
  import opened AgentBridge
  import opened Options

  ghost function NewlyDropped(c: Config, s: Bridge, e: Event): set<Serial>
    requires Enabled(s, e)
  {
    Step(c, s, e).dropped - s.dropped
  }

  ghost predicate AllBelow(es: set<Serial>, fs: seq<Serial>) {
    forall e, f | e in es && f in fs :: e < f
  }

  // ---------------------------------------------------------------------
  // What is lost
  // ---------------------------------------------------------------------

  lemma PartsOfThree(a: seq<Serial>, b: seq<Serial>, d: seq<Serial>)
    requires Increasing(a + b + d)
    ensures Increasing(b) && Increasing(d)
    ensures forall i, j | 0 <= i < |b| && 0 <= j < |d| :: b[i] < d[j]
    ensures (forall i | 0 <= i < |b| :: b[i] in a + b + d) && (forall i | 0 <= i < |d| :: d[i] in a + b + d)
  {
    var l := a + b + d;
    forall i | 0 <= i < |b|
      ensures l[|a| + i] == b[i]
    {
    }
    forall i | 0 <= i < |d|
      ensures l[|a| + |b| + i] == d[i]
    {
    }
  }

  lemma ConservedParts(s: Bridge)
    requires Conserved(s)
    ensures Increasing(s.queue) && Increasing(InFlight(s))
    ensures forall i, j | 0 <= i < |InFlight(s)| && 0 <= j < |s.queue| :: InFlight(s)[i] < s.queue[j]
    ensures forall i | 0 <= i < |s.queue| :: s.queue[i] < s.emitted && s.queue[i] !in s.dropped
    ensures forall i | 0 <= i < |InFlight(s)| :: InFlight(s)[i] < s.emitted && InFlight(s)[i] !in s.dropped
  {
    hide Increasing, InFlight;
    PartsOfThree(s.acked, InFlight(s), s.queue);
  }

  /** Main result: an emission drops exactly one event if the queue was full, the oldest one, and
      none otherwise; the new event is the last in the queue. */
  lemma EmissionDropsOldest(c: Config, s: Bridge)
    requires c.Usable() && Conserved(s) && QueueAlive(c, s)
    ensures var s' := Step(c, s, Emit);
      && |NewlyDropped(c, s, Emit)| == (if |s.queue| >= c.queueMax then 1 else 0)
      && AllBelow(NewlyDropped(c, s, Emit), s'.queue)
      && (forall d | d in NewlyDropped(c, s, Emit) :: d in s.queue)
      && (forall q | q in s.queue && q !in NewlyDropped(c, s, Emit) :: q in s'.queue)
      && s'.queue != [] && s'.queue[|s'.queue| - 1] == s.emitted && s'.emitted == s.emitted + 1
      && |s'.queue| == (if |s.queue| >= c.queueMax then |s.queue| else |s.queue| + 1)
      && s'.acked == s.acked && s'.flush == s.flush
  {
    ConservedParts(s);
    EmissionParts(c, s);
    hide Conserved, Step, QueueAlive;
    if |s.queue| >= c.queueMax {
      assert NewlyDropped(c, s, Emit) == {s.queue[0]};
      assert forall q | q in s.queue && q != s.queue[0] :: q in s.queue[1..];
    } else {
      assert NewlyDropped(c, s, Emit) == {};
    }
  }

  lemma EmissionParts(c: Config, s: Bridge)
    ensures var s' := Step(c, s, Emit);
      && s'.queue == (if |s.queue| >= c.queueMax && s.queue != [] then s.queue[1..] else s.queue) + [s.emitted]
      && s'.dropped == s.dropped + (if |s.queue| >= c.queueMax && s.queue != [] then {s.queue[0]} else {})
      && s'.emitted == s.emitted + 1 && s'.acked == s.acked && s'.flush == s.flush
  {
  }

  /** Main result: of a batch that failed for good as much goes back as there is room, and what
      goes back is older than what is dropped. */
  lemma FailureDropsNewest(c: Config, s: Bridge)
    requires c.Usable() && Conserved(s) && QueueAlive(c, s) && s.flush.Failing?
    ensures var s' := Step(c, s, CatchRuns);
      var back := |s'.queue| - |s.queue|;
      && back == Least(|s.flush.batch|, c.queueMax - |s.queue|) >= 0
      && (forall d, i | d in NewlyDropped(c, s, CatchRuns) && 0 <= i < back :: s'.queue[i] < d)
      && (forall d | d in NewlyDropped(c, s, CatchRuns) :: d in s.flush.batch)
      && (forall i | 0 <= i < back :: s'.queue[i] in s.flush.batch)
      && s'.queue[back..] == s.queue && s'.acked == s.acked && InFlight(s') == []
  {
    ConservedParts(s);
    hide Conserved;
    var n := Room(c, s, s.flush.batch);
    var batch := s.flush.batch;
    assert forall d | d in NewlyDropped(c, s, CatchRuns) :: d in batch[n..];
    forall d, i | d in batch[n..] && 0 <= i < n
      ensures batch[i] < d
    {
      var j :| 0 <= j < |batch[n..]| && batch[n..][j] == d;
      assert batch[n + j] == d;
    }
  }

  /** Nothing else loses an event. */
  lemma OthersDropNothing(c: Config, s: Bridge, e: Event)
    requires Enabled(s, e) && e != Emit && e != CatchRuns
    ensures NewlyDropped(c, s, e) == {}
  {
    OtherStepsKeepLedger(c, s, e);
  }

  // ---------------------------------------------------------------------
  // What is sent
  // ---------------------------------------------------------------------

  /** Main result: when the batch timer fires a flush starts exactly if none is in flight, events
      wait and the session is open, and it takes the oldest of them, as many as a batch holds;
      otherwise no event moves, and a flush that had to wait for the session is tried again. */
  lemma TimerTakesOldest(c: Config, s: Bridge, open: bool)
    requires c.Usable() && Conserved(s) && s.batchTimer
    ensures var s' := Step(c, s, BatchTimer(open));
      var starts := s.flush == Idle && s.queue != [] && s.socket.Some? && s.session == Connected && open;
      && (starts ==>
           && |InFlight(s')| == (if |s.queue| < c.batchMax then |s.queue| else c.batchMax)
           && InFlight(s') + s'.queue == s.queue
           && (forall i, j | 0 <= i < |InFlight(s')| && 0 <= j < |s'.queue| :: InFlight(s')[i] < s'.queue[j])
           && s'.flush.Sending? && s'.flush.attempt == 1 && s'.flush.via == s.socket && !s'.batchTimer)
      && (!starts ==> s'.queue == s.queue && s'.flush == s.flush)
      && (!starts && s.flush == Idle && s.queue != [] ==> s'.batchTimer && s'.session != Disconnected)
      && s'.acked == s.acked
  {
    ConservedParts(s);
  }

  /** Main result: an attempt that succeeds acknowledges the whole batch, one that fails is
      followed by another, until as many failed as there are attempts. */
  lemma AttemptsAreCounted(c: Config, s: Bridge, timedOut: bool)
    requires s.flush.Sending?
    ensures s.flush.via.Some? ==>
      var s' := Step(c, s, SendOk);
      s'.acked == s.acked + s.flush.batch && InFlight(s') == [] && s'.queue == s.queue
    ensures var s' := Step(c, s, SendFail(timedOut));
      && InFlight(s') == s.flush.batch && s'.queue == s.queue && s'.acked == s.acked
      && (s'.flush.Failing? <==> s.flush.attempt >= (if c.maxRetries < 0 then 1 else c.maxRetries + 1))
      && (!s'.flush.Failing? ==> s'.reconnectTimer && Enabled(s', BackoffOver(true)))
  {
  }

  lemma NextAttempt(c: Config, s: Bridge, open: bool)
    requires s.flush.Backoff?
    ensures var s' := Step(c, s, BackoffOver(open));
      && InFlight(s') == InFlight(s) && s'.queue == s.queue && s'.acked == s.acked
      && s'.flush.Sending? && s'.flush.attempt == s.flush.attempt + 1
      && (s'.flush.via.Some? ==> open && s.session == Connected && s'.flush.via == s.socket)
      && (open && s.session == Connected ==> s'.flush.via == s.socket)
  {
  }

  // ---------------------------------------------------------------------
  // What becomes of sockets
  // ---------------------------------------------------------------------

  /** Main result: a socket is terminated only when its connection, its answers or an attempt
      through it took too long. */
  lemma TerminatedOnlyWhenLate(c: Config, s: Bridge, e: Event, k: Socket)
    requires Enabled(s, e) && k !in s.terminated
    ensures k in Step(c, s, e).terminated <==>
      || e == ConnectTimer(k)
      || (e == HealthTimer(true, true) && s.healthcheck == Some(k) && s.socket == Some(k))
      || (e == SendFail(true) && s.flush.via == Some(k))
  {
  }

  /** Main result: a new socket is made exactly when there is no session and one is wanted. */
  lemma ConnectsOnlyWhenNeeded(c: Config, s: Bridge, e: Event)
    requires SessionAlive(s) && Enabled(s, e)
    ensures var s' := Step(c, s, e);
      var wanted := e.Emit? || e.ReconnectTimer? || (e.BatchTimer? && s.flush == Idle && s.queue != []);
      && s'.created == s.created + (if s.session == Disconnected && wanted then 1 else 0)
      && (s'.created > s.created ==> s'.session == Connecting && s'.socket == Some(s.created) && !s'.reconnectTimer)
      && (s'.session == Connected && s.session != Connected ==> e.Opened?)
      && (e.Opened? ==> s'.session == Connected)
      && (s'.session == Disconnected && s.session != Disconnected <==> e.Closed? || e.Errored?)
  {
  }
}

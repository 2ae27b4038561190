/** Delivery of events over one reconnecting session: a bounded queue, a batch timer,
    at most one flush with retries, and a batch put back when it fails. */
module AgentBridge {
  import opened Options

  /** Events are known by the order in which they were emitted. */
  type Serial = nat
  type Socket = nat

  datatype Config = Config(queueMax: nat, batchMax: nat, maxRetries: int) {
    predicate Usable() {
      queueMax >= 1 && batchMax >= 1
    }

    function MaxAttempts(): (n: nat)
      ensures n >= 1
    {
      if maxRetries + 1 < 1 then 1 else maxRetries + 1
    }
  }

  datatype Session = Disconnected | Connecting | Connected

  /** The flush in flight. Sending is one attempt, through a socket if there was an open one;
      Failing has given up and waits for its catch handler, Settling for its finally handler. */
  datatype Flush =
    | Idle
    | Sending(batch: seq<Serial>, attempt: nat, via: Option<Socket>)
    | Backoff(batch: seq<Serial>, attempt: nat)
    | Failing(batch: seq<Serial>)
    | Settling

  datatype Bridge = Bridge(
    session: Session, socket: Option<Socket>, reconnectTimer: bool, batchTimer: bool, healthcheck: Option<Socket>,
    flush: Flush, queue: seq<Serial>,
    created: nat,               // sockets created so far
    listening: set<Socket>,     // sockets whose handlers are attached
    unopened: set<Socket>,      // sockets that have not opened yet
    connectTimers: set<Socket>, // sockets with a connect timeout armed
    terminated: set<Socket>,    // sockets terminate() was called on
    emitted: nat, acked: seq<Serial>, dropped: set<Serial>)

  const INITIAL := Bridge(Disconnected, None, false, false, None, Idle, [], 0, {}, {}, {}, {}, 0, [], {})

  /** What can happen next. `open` is the readyState of the current socket. */
  datatype Event =
    | Emit
    | BatchTimer(open: bool)
    | ReconnectTimer
    | ConnectTimer(k: Socket)
    | HealthTimer(open: bool, stale: bool)
    | Opened(k: Socket)
    | Closed(k: Socket)
    | Errored(k: Socket)
    | SendOk
    | SendFail(timedOut: bool)
    | BackoffOver(open: bool)
    | CatchRuns
    | FinallyRuns

  // ---------------------------------------------------------------------
  // The handlers
  // ---------------------------------------------------------------------

  function EnsureSession(s: Bridge): Bridge {
    if s.session != Disconnected then s
    else s.(reconnectTimer := false, session := Connecting, socket := Some(s.created), created := s.created + 1,
            listening := s.listening + {s.created}, unopened := s.unopened + {s.created},
            connectTimers := s.connectTimers + {s.created})
  }

  function ScheduleFlush(s: Bridge): Bridge {
    s.(batchTimer := true)
  }

  function ScheduleReconnect(s: Bridge): Bridge {
    s.(reconnectTimer := true)
  }

  function Cleanup(s: Bridge, k: Socket): Bridge {
    var s := s.(healthcheck := None);
    if s.socket == Some(k) then s.(listening := s.listening - {k}, socket := None, session := Disconnected) else s
  }

  function Enqueue(c: Config, s: Bridge): Bridge {
    var s := if |s.queue| >= c.queueMax && s.queue != []
      then s.(queue := s.queue[1..], dropped := s.dropped + {s.queue[0]}) else s;
    EnsureSession(ScheduleFlush(s.(queue := s.queue + [s.emitted], emitted := s.emitted + 1)))
  }

  function Least(a: nat, b: nat): nat {
    if a < b then a else b
  }

  function Attempt(s: Bridge, batch: seq<Serial>, attempt: nat, open: bool): Bridge {
    s.(flush := Sending(batch, attempt, if s.session == Connected && open then s.socket else None))
  }

  function FlushQueue(c: Config, s: Bridge, open: bool): Bridge {
    if s.flush != Idle || s.queue == [] then s
    else if s.socket.None? || s.session != Connected || !open then ScheduleFlush(EnsureSession(s))
    else
      var n := Least(c.batchMax, |s.queue|);
      Attempt(s.(queue := s.queue[n..]), s.queue[..n], 1, open)
  }

  /** How much of a failed batch fits back in front of the queue. */
  function Room(c: Config, s: Bridge, batch: seq<Serial>): nat {
    Least(|batch|, if c.queueMax > |s.queue| then c.queueMax - |s.queue| else 0)
  }

  function PutBack(c: Config, s: Bridge, batch: seq<Serial>): Bridge {
    var n := Room(c, s, batch);
    ScheduleFlush(s.(queue := batch[..n] + s.queue, dropped := s.dropped + (set e | e in batch[n..]),
      flush := Settling))
  }

  predicate Enabled(s: Bridge, e: Event) {
    match e
    case Emit => true
    case BatchTimer(_) => s.batchTimer
    case ReconnectTimer => s.reconnectTimer
    case ConnectTimer(k) => k in s.connectTimers
    case HealthTimer(_, _) => s.healthcheck.Some?
    case Opened(k) => k in s.listening && k in s.unopened && k !in s.terminated
    case Closed(k) => k in s.listening
    case Errored(k) => k in s.listening
    case SendOk => s.flush.Sending? && s.flush.via.Some?
    case SendFail(_) => s.flush.Sending?
    case BackoffOver(_) => s.flush.Backoff?
    case CatchRuns => s.flush.Failing?
    case FinallyRuns => s.flush.Settling?
  }

  function Step(c: Config, s: Bridge, e: Event): Bridge
    requires Enabled(s, e)
  {
    match e
    case Emit => Enqueue(c, s)
    case BatchTimer(open) => FlushQueue(c, s.(batchTimer := false), open)
    case ReconnectTimer => EnsureSession(s.(reconnectTimer := false))
    case ConnectTimer(k) => s.(connectTimers := s.connectTimers - {k}, terminated := s.terminated + {k})
    case HealthTimer(open, stale) =>
      if s.healthcheck == s.socket && open && stale then s.(terminated := s.terminated + {s.healthcheck.value}) else s
    case Opened(k) =>
      s.(connectTimers := s.connectTimers - {k}, unopened := s.unopened - {k}, session := Connected,
        healthcheck := Some(k))
    case Closed(k) => ScheduleReconnect(Cleanup(s.(connectTimers := s.connectTimers - {k}), k))
    case Errored(k) => ScheduleReconnect(Cleanup(s.(connectTimers := s.connectTimers - {k}), k))
    case SendOk => s.(acked := s.acked + s.flush.batch, flush := Settling)
    case SendFail(timedOut) =>
      var s' := if timedOut && s.flush.via.Some? then s.(terminated := s.terminated + {s.flush.via.value}) else s;
      if s.flush.attempt >= c.MaxAttempts() then s'.(flush := Failing(s.flush.batch))
      else ScheduleReconnect(s'.(flush := Backoff(s.flush.batch, s.flush.attempt)))
    case BackoffOver(open) => Attempt(s, s.flush.batch, s.flush.attempt + 1, open)
    case CatchRuns => PutBack(c, s, s.flush.batch)
    case FinallyRuns =>
      var s' := s.(flush := Idle);
      if s'.queue != [] then ScheduleFlush(s') else s'
  }

  /** Every event of a run is enabled when it happens. */
  predicate Runs(c: Config, s: Bridge, es: seq<Event>)
    decreases |es|
  {
    es == [] || (Enabled(s, es[0]) && Runs(c, Step(c, s, es[0]), es[1..]))
  }

  function After(c: Config, s: Bridge, es: seq<Event>): Bridge
    requires Runs(c, s, es)
    decreases |es|
  {
    if es == [] then s else After(c, Step(c, s, es[0]), es[1..])
  }

  // ---------------------------------------------------------------------
  // The invariant
  // ---------------------------------------------------------------------

  function InFlight(s: Bridge): seq<Serial> {
    match s.flush
    case Sending(batch, _, _) => batch
    case Backoff(batch, _) => batch
    case Failing(batch) => batch
    case _ => []
  }

  /** What was acknowledged, what is in flight and what is queued, in that order. */
  function Ledger(s: Bridge): seq<Serial> {
    s.acked + InFlight(s) + s.queue
  }

  ghost predicate Increasing(es: seq<Serial>) {
    forall i, j | 0 <= i < j < |es| :: es[i] < es[j]
  }

  /** Conservation and order: every emitted event is acknowledged, in flight, queued or dropped,
      exactly one of them and once, and the first three together are in emission order. */
  ghost predicate Conserved(s: Bridge) {
    && Increasing(Ledger(s))
    && (forall e: Serial :: e < s.emitted <==> e in Ledger(s) || e in s.dropped)
    && (forall e: Serial | e in s.dropped :: e !in Ledger(s))
  }

  /** The session is never stuck: whatever state it is in, something is armed that moves it on. */
  ghost predicate SessionAlive(s: Bridge) {
    && (s.socket.Some? <==> s.session != Disconnected)
    && s.listening == (if s.socket.Some? then {s.socket.value} else {})
    && (s.socket.Some? ==> s.socket.value < s.created)
    && (s.session == Disconnected && s.created > 0 ==> s.reconnectTimer)
    && (s.session == Connecting ==> s.socket.value in s.unopened)
    && (s.session == Connecting ==> s.socket.value in s.connectTimers || s.socket.value in s.terminated)
    && (s.session == Connected ==> s.healthcheck == s.socket)
    && (s.session != Connected ==> s.healthcheck.None?)
    && (forall k | k in s.connectTimers :: s.session == Connecting && s.socket == Some(k))
    && (forall k | k in s.unopened :: k < s.created)
  }

  /** No wake-up is lost: a queue with something in it has a timer or a flush that will look at it. */
  ghost predicate QueueAlive(c: Config, s: Bridge) {
    && |s.queue| <= c.queueMax
    && (s.queue != [] ==> s.batchTimer || s.flush != Idle)
    && (s.emitted > 0 ==> s.created > 0)
    && (forall k | k in s.terminated :: k < s.created)
    && match s.flush {
         case Sending(batch, attempt, via) =>
           1 <= |batch| <= c.batchMax && 1 <= attempt <= c.MaxAttempts() && (via.Some? ==> via.value < s.created)
         case Backoff(batch, attempt) => 1 <= |batch| <= c.batchMax && 1 <= attempt < c.MaxAttempts()
         case Failing(batch) => 1 <= |batch| <= c.batchMax
         case _ => true
       }
  }

  ghost predicate Invariant(c: Config, s: Bridge) {
    Conserved(s) && SessionAlive(s) && QueueAlive(c, s)
  }

  lemma InitiallyInvariant(c: Config)
    ensures Invariant(c, INITIAL)
  {
    assert Ledger(INITIAL) == [];
  }

  lemma SameSession(s: Bridge, s': Bridge)
    requires SessionAlive(s)
    requires s' == s.(flush := s'.flush, queue := s'.queue, batchTimer := s'.batchTimer,
      reconnectTimer := s'.reconnectTimer, terminated := s'.terminated, emitted := s'.emitted, acked := s'.acked,
      dropped := s'.dropped)
    requires s.terminated <= s'.terminated && (s.reconnectTimer ==> s'.reconnectTimer)
    ensures SessionAlive(s')
  {
  }

  lemma EnsureKeepsSession(s: Bridge)
    requires SessionAlive(s.(reconnectTimer := true))
    ensures SessionAlive(EnsureSession(s))
  {
  }

  lemma LosingKeepsSession(s: Bridge, k: Socket)
    requires SessionAlive(s) && k in s.listening
    ensures SessionAlive(ScheduleReconnect(Cleanup(s.(connectTimers := s.connectTimers - {k}), k)))
  {
  }

  lemma StepKeepsSession(c: Config, s: Bridge, e: Event)
    requires SessionAlive(s) && Enabled(s, e)
    ensures SessionAlive(Step(c, s, e))
  {
    match e {
      case Emit => EmitKeepsSession(c, s);
      case BatchTimer(open) => FlushKeepsSession(c, s.(batchTimer := false), open);
      case ReconnectTimer =>
        assert SessionAlive(s.(reconnectTimer := true));
        EnsureKeepsSession(s.(reconnectTimer := false));
      case ConnectTimer(k) =>
      case Opened(k) =>
      case Closed(k) => LosingKeepsSession(s, k);
      case Errored(k) => LosingKeepsSession(s, k);
      case _ =>
        hide SessionAlive;
        SameSession(s, Step(c, s, e));
    }
  }

  lemma EmitKeepsSession(c: Config, s: Bridge)
    requires SessionAlive(s)
    ensures SessionAlive(Enqueue(c, s))
  {
    var s1 := if |s.queue| >= c.queueMax && s.queue != []
      then s.(queue := s.queue[1..], dropped := s.dropped + {s.queue[0]}) else s;
    var s2 := ScheduleFlush(s1.(queue := s1.queue + [s1.emitted], emitted := s1.emitted + 1));
    SameSession(s, s2.(reconnectTimer := true));
    EnsureKeepsSession(s2);
  }

  lemma FlushKeepsSession(c: Config, s: Bridge, open: bool)
    requires SessionAlive(s)
    ensures SessionAlive(FlushQueue(c, s, open))
  {
    SameSession(s, s.(reconnectTimer := true));
    EnsureKeepsSession(s);
    hide EnsureSession;
    if s.flush == Idle && s.queue != [] && (s.socket.None? || s.session != Connected || !open) {
      SameSession(EnsureSession(s), ScheduleFlush(EnsureSession(s)));
    } else {
      SameSession(s, FlushQueue(c, s, open));
    }
  }

  lemma EmitKeepsQueue(c: Config, s: Bridge)
    requires c.Usable() && SessionAlive(s) && QueueAlive(c, s)
    ensures QueueAlive(c, Step(c, s, Emit))
  {
  }

  lemma FlushKeepsQueue(c: Config, s: Bridge, open: bool)
    requires c.Usable() && SessionAlive(s) && QueueAlive(c, s.(batchTimer := true))
    ensures QueueAlive(c, FlushQueue(c, s, open))
  {
  }

  lemma SocketEventsKeepQueue(c: Config, s: Bridge, e: Event)
    requires SessionAlive(s) && QueueAlive(c, s) && Enabled(s, e)
    requires e.ReconnectTimer? || e.ConnectTimer? || e.HealthTimer? || e.Opened? || e.Closed? || e.Errored?
    ensures QueueAlive(c, Step(c, s, e))
  {
  }

  lemma SendEventsKeepQueue(c: Config, s: Bridge, e: Event)
    requires c.Usable() && SessionAlive(s) && QueueAlive(c, s) && Enabled(s, e)
    requires e.SendOk? || e.SendFail? || e.BackoffOver? || e.CatchRuns? || e.FinallyRuns?
    ensures QueueAlive(c, Step(c, s, e))
  {
  }

  lemma StepKeepsQueue(c: Config, s: Bridge, e: Event)
    requires c.Usable() && SessionAlive(s) && QueueAlive(c, s) && Enabled(s, e)
    ensures QueueAlive(c, Step(c, s, e))
  {
    match e {
      case Emit => EmitKeepsQueue(c, s);
      case BatchTimer(open) =>
        SameSession(s, s.(batchTimer := false));
        FlushKeepsQueue(c, s.(batchTimer := false), open);
      case SendOk => SendEventsKeepQueue(c, s, e);
      case SendFail(_) => SendEventsKeepQueue(c, s, e);
      case BackoffOver(_) => SendEventsKeepQueue(c, s, e);
      case CatchRuns => SendEventsKeepQueue(c, s, e);
      case FinallyRuns => SendEventsKeepQueue(c, s, e);
      case _ => SocketEventsKeepQueue(c, s, e);
    }
  }

  lemma SameLedger(s: Bridge, s': Bridge)
    requires Conserved(s) && Ledger(s') == Ledger(s) && s'.emitted == s.emitted && s'.dropped == s.dropped
    ensures Conserved(s')
  {
  }

  /** Taking a stretch out of the ledger into the dropped events. */
  lemma DropStretch(s: Bridge, s': Bridge, pre: seq<Serial>, lost: seq<Serial>, post: seq<Serial>)
    requires Conserved(s) && Ledger(s) == pre + lost + post && Ledger(s') == pre + post
    requires s'.emitted == s.emitted && s'.dropped == s.dropped + (set e | e in lost)
    ensures Conserved(s')
  {
    var l := Ledger(s);
    forall i, j | 0 <= i < j < |pre + post|
      ensures (pre + post)[i] < (pre + post)[j]
    {
      var i' := if i < |pre| then i else i + |lost|;
      var j' := if j < |pre| then j else j + |lost|;
      assert l[i'] < l[j'] && (pre + post)[i] == l[i'] && (pre + post)[j] == l[j'];
    }
    forall a, b | 0 <= a < |pre| && 0 <= b < |lost|
      ensures pre[a] < lost[b]
    {
      assert l[a] == pre[a] && l[|pre| + b] == lost[b];
    }
    forall a, b | 0 <= a < |post| && 0 <= b < |lost|
      ensures lost[b] < post[a]
    {
      assert l[|pre| + b] == lost[b] && l[|pre| + |lost| + a] == post[a];
    }
    assert forall e: Serial :: e in l <==> e in pre || e in lost || e in post;
  }

  lemma AddNewest(s: Bridge, s': Bridge)
    requires Conserved(s) && Ledger(s') == Ledger(s) + [s.emitted]
    requires s'.emitted == s.emitted + 1 && s'.dropped == s.dropped
    ensures Conserved(s')
  {
    var l := Ledger(s);
    forall i | 0 <= i < |l|
      ensures l[i] < s.emitted
    {
      assert l[i] in l;
    }
    assert forall e: Serial :: e in Ledger(s') <==> e in l || e == s.emitted;
  }

  lemma EnqueueConserves(c: Config, s: Bridge)
    requires Conserved(s)
    ensures Conserved(Enqueue(c, s))
  {
    hide Conserved;
    var front := s.acked + InFlight(s);
    var s1 := if |s.queue| >= c.queueMax && s.queue != []
      then s.(queue := s.queue[1..], dropped := s.dropped + {s.queue[0]}) else s;
    if |s.queue| >= c.queueMax && s.queue != [] {
      assert Ledger(s) == front + [s.queue[0]] + s.queue[1..];
      assert Ledger(s1) == front + s.queue[1..];
      DropStretch(s, s1, front, [s.queue[0]], s.queue[1..]);
    }
    var s2 := s1.(queue := s1.queue + [s1.emitted], emitted := s1.emitted + 1);
    assert Ledger(s2) == Ledger(s1) + [s1.emitted];
    AddNewest(s1, s2);
    EnqueueLedger(c, s, s2);
    SameLedger(s2, Enqueue(c, s));
  }

  /** Scheduling a flush and ensuring a session touch no event. */
  lemma EnqueueLedger(c: Config, s: Bridge, s2: Bridge)
    requires Enqueue(c, s) == EnsureSession(ScheduleFlush(s2))
    ensures Ledger(Enqueue(c, s)) == Ledger(s2) && Enqueue(c, s).emitted == s2.emitted
    ensures Enqueue(c, s).dropped == s2.dropped
  {
    hide Enqueue;
  }

  lemma PutBackConserves(c: Config, s: Bridge)
    requires Conserved(s) && s.flush.Failing?
    ensures Conserved(PutBack(c, s, s.flush.batch))
  {
    hide Conserved;
    var batch := s.flush.batch;
    var n := Room(c, s, batch);
    var s' := PutBack(c, s, batch);
    assert batch == batch[..n] + batch[n..];
    assert Ledger(s) == (s.acked + batch[..n]) + batch[n..] + s.queue;
    assert Ledger(s') == (s.acked + batch[..n]) + s.queue;
    DropStretch(s, s', s.acked + batch[..n], batch[n..], s.queue);
  }

  lemma FlushKeepsLedger(c: Config, s: Bridge, open: bool)
    ensures Ledger(FlushQueue(c, s, open)) == Ledger(s)
    ensures FlushQueue(c, s, open).emitted == s.emitted && FlushQueue(c, s, open).dropped == s.dropped
  {
  }

  /** Only an emission and a failed batch change what is outstanding. */
  lemma OtherStepsKeepLedger(c: Config, s: Bridge, e: Event)
    requires Enabled(s, e) && e != Emit && e != CatchRuns
    ensures Ledger(Step(c, s, e)) == Ledger(s)
    ensures Step(c, s, e).emitted == s.emitted && Step(c, s, e).dropped == s.dropped
  {
    match e {
      case BatchTimer(open) => FlushKeepsLedger(c, s.(batchTimer := false), open);
      case SendOk => assert s.acked + s.flush.batch + [] + s.queue == s.acked + s.flush.batch + s.queue;
      case _ =>
    }
  }

  lemma StepConserves(c: Config, s: Bridge, e: Event)
    requires Conserved(s) && Enabled(s, e)
    ensures Conserved(Step(c, s, e))
  {
    hide Conserved, Ledger;
    if e == Emit {
      EnqueueConserves(c, s);
    } else if e == CatchRuns {
      PutBackConserves(c, s);
    } else {
      hide Step;
      OtherStepsKeepLedger(c, s, e);
      SameLedger(s, Step(c, s, e));
    }
  }

  lemma StepKeepsInvariant(c: Config, s: Bridge, e: Event)
    requires c.Usable() && Invariant(c, s) && Enabled(s, e)
    ensures Invariant(c, Step(c, s, e))
  {
    hide Conserved, SessionAlive, QueueAlive;
    StepConserves(c, s, e);
    StepKeepsSession(c, s, e);
    StepKeepsQueue(c, s, e);
  }

  /** Main result: the invariant holds throughout every run. */
  lemma {:induction false} RunKeepsInvariant(c: Config, s: Bridge, es: seq<Event>)
    requires c.Usable() && Invariant(c, s) && Runs(c, s, es)
    ensures Invariant(c, After(c, s, es))
    decreases |es|
  {
    hide Invariant, Step, Enabled;
    if es != [] {
      StepKeepsInvariant(c, s, es[0]);
      RunKeepsInvariant(c, Step(c, s, es[0]), es[1..]);
    }
  }
}

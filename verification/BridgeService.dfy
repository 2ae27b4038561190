/** The bridge as the object it is: fields updated in place by timers, socket handlers and
    promise continuations. Every update is the step of the transition system it stands for. */
module BridgeService {
  import opened AgentBridge
  import opened Options

  class Service {
    const config: Config
    var session: Session
    var socket: Option<Socket>
    var reconnectTimer: bool
    var batchTimer: bool
    var healthcheckTimer: Option<Socket>
    var flushInFlight: Flush
    var eventQueue: seq<Serial>
    // What the surrounding system remembers: the sockets and their handlers, and what became of each event.
    var created: nat
    var listening: set<Socket>
    var unopened: set<Socket>
    var connectTimers: set<Socket>
    var terminated: set<Socket>
    ghost var emitted: nat
    ghost var acked: seq<Serial>
    ghost var dropped: set<Serial>

    ghost function State(): Bridge
      reads this
    {
      Bridge(session, socket, reconnectTimer, batchTimer, healthcheckTimer, flushInFlight, eventQueue,
             created, listening, unopened, connectTimers, terminated, emitted, acked, dropped)
    }

    constructor (config: Config)
      requires config.Usable()
      ensures this.config == config && State() == INITIAL && Invariant(config, State())
    {
      this.config := config;
      session, socket, reconnectTimer, batchTimer, healthcheckTimer := Disconnected, None, false, false, None;
      flushInFlight, eventQueue := Idle, [];
      created, listening, unopened, connectTimers, terminated := 0, {}, {}, {}, {};
      emitted, acked, dropped := 0, [], {};
      new;
      InitiallyInvariant(config);
    }

    method EnsureSession()
      modifies this
      ensures State() == AgentBridge.EnsureSession(old(State()))
    {
      if session != Disconnected {
        return;
      }
      if reconnectTimer {
        reconnectTimer := false;
      }
      var k := created;
      session, created, socket := Connecting, created + 1, Some(k);
      connectTimers, listening, unopened := connectTimers + {k}, listening + {k}, unopened + {k};
    }

    method ScheduleEventFlush()
      modifies this
      ensures State() == ScheduleFlush(old(State()))
    {
      if batchTimer {
        return;
      }
      batchTimer := true;
    }

    method ScheduleReconnect()
      modifies this
      ensures State() == AgentBridge.ScheduleReconnect(old(State()))
    {
      if reconnectTimer {
        return;
      }
      reconnectTimer := true;
    }

    /** After a lost socket's session is cleaned up it only takes a reconnect timer for the
        session to be alive; the handlers of any other socket leave session and socket alone.
        Nothing of this touches an event. */
    method CleanupSession(k: Socket)
      modifies this
      ensures State() == Cleanup(old(State()), k)
      ensures old(SessionAlive(State())) && k in old(listening) ==>
        SessionAlive(State().(reconnectTimer := true, connectTimers := connectTimers - {k}))
      ensures old(socket) != Some(k) ==> session == old(session) && socket == old(socket) && listening == old(listening)
      ensures socket != Some(k) && healthcheckTimer.None?
      ensures Ledger(State()) == old(Ledger(State())) && dropped == old(dropped)
    {
      if healthcheckTimer.Some? {
        healthcheckTimer := None;
      }
      if socket == Some(k) {
        listening := listening - {k};
        socket := None;
        session := Disconnected;
      }
    }

    /** Accepts one event, named by its place in the order of emission, and trims the
        oldest one when the queue is full. */
    method Emit(event: Serial)
      requires config.Usable() && Invariant(config, State()) && event == emitted
      modifies this
      ensures State() == Step(config, old(State()), Event.Emit) && Invariant(config, State())
      ensures event in State().queue
    {
      hide Invariant;
      StepKeepsInvariant(config, State(), Event.Emit);
      if |eventQueue| >= config.queueMax && eventQueue != [] {
        dropped := dropped + {eventQueue[0]};
        eventQueue := eventQueue[1..];
      }
      eventQueue := eventQueue + [event];
      emitted := emitted + 1;
      ScheduleEventFlush();
      EnsureSession();
    }

    /** One attempt of sendBatch, up to the point where it waits. */
    method SendThroughActiveSession(batch: seq<Serial>, attempt: nat, open: bool)
      modifies this
      ensures State() == Attempt(old(State()), batch, attempt, open)
    {
      var via := if socket.Some? && session == Connected && open then socket else None;
      flushInFlight := Sending(batch, attempt, via);
    }

    method OnBatchTimer(open: bool)
      requires config.Usable() && Invariant(config, State()) && batchTimer
      modifies this
      ensures State() == Step(config, old(State()), BatchTimer(open)) && Invariant(config, State())
    {
      hide Invariant;
      StepKeepsInvariant(config, State(), BatchTimer(open));
      batchTimer := false;
      if flushInFlight != Idle {
        return;
      }
      if |eventQueue| == 0 {
        return;
      }
      if socket.None? || session != Connected || !open {
        EnsureSession();
        ScheduleEventFlush();
        return;
      }
      var n := Least(config.batchMax, |eventQueue|);
      var batch := eventQueue[..n];
      eventQueue := eventQueue[n..];
      SendThroughActiveSession(batch, 1, open);
    }

    method OnSendOk()
      requires config.Usable() && Invariant(config, State()) && Enabled(State(), SendOk)
      modifies this
      ensures State() == Step(config, old(State()), SendOk) && Invariant(config, State())
    {
      hide Invariant;
      StepKeepsInvariant(config, State(), SendOk);
      acked := acked + flushInFlight.batch;
      flushInFlight := Settling;
    }

    method OnSendFail(timedOut: bool)
      requires config.Usable() && Invariant(config, State()) && flushInFlight.Sending?
      modifies this
      ensures State() == Step(config, old(State()), SendFail(timedOut)) && Invariant(config, State())
    {
      hide Invariant;
      StepKeepsInvariant(config, State(), SendFail(timedOut));
      if timedOut && flushInFlight.via.Some? {
        terminated := terminated + {flushInFlight.via.value};
      }
      if flushInFlight.attempt >= config.MaxAttempts() {
        flushInFlight := Failing(flushInFlight.batch);
      } else {
        ScheduleReconnect();
        flushInFlight := Backoff(flushInFlight.batch, flushInFlight.attempt);
      }
    }

    method OnBackoffOver(open: bool)
      requires config.Usable() && Invariant(config, State()) && flushInFlight.Backoff?
      modifies this
      ensures State() == Step(config, old(State()), BackoffOver(open)) && Invariant(config, State())
    {
      hide Invariant;
      StepKeepsInvariant(config, State(), BackoffOver(open));
      SendThroughActiveSession(flushInFlight.batch, flushInFlight.attempt + 1, open);
    }

    /** The catch handler: as much of the batch as fits goes back to the front. */
    method OnCatch()
      requires config.Usable() && Invariant(config, State()) && flushInFlight.Failing?
      modifies this
      ensures State() == Step(config, old(State()), CatchRuns) && Invariant(config, State())
    {
      hide Invariant;
      StepKeepsInvariant(config, State(), CatchRuns);
      var batch := flushInFlight.batch;
      var availableSlots := if config.queueMax > |eventQueue| then config.queueMax - |eventQueue| else 0;
      var n := Least(|batch|, availableSlots);
      assert n == Room(config, State(), batch) && (availableSlots == 0 ==> batch[..n] + eventQueue == eventQueue);
      dropped := dropped + set e | e in batch[n..];
      if availableSlots > 0 {
        eventQueue := batch[..n] + eventQueue;
      }
      ScheduleEventFlush();
      flushInFlight := Settling;
    }

    method OnFinally()
      requires config.Usable() && Invariant(config, State()) && flushInFlight.Settling?
      modifies this
      ensures State() == Step(config, old(State()), FinallyRuns) && Invariant(config, State())
    {
      hide Invariant;
      StepKeepsInvariant(config, State(), FinallyRuns);
      flushInFlight := Idle;
      if |eventQueue| > 0 {
        ScheduleEventFlush();
      }
    }

    method OnReconnectTimer()
      requires config.Usable() && Invariant(config, State()) && reconnectTimer
      modifies this
      ensures State() == Step(config, old(State()), ReconnectTimer) && Invariant(config, State())
    {
      hide Invariant;
      StepKeepsInvariant(config, State(), ReconnectTimer);
      reconnectTimer := false;
      EnsureSession();
    }

    method OnConnectTimer(k: Socket)
      requires config.Usable() && Invariant(config, State()) && k in connectTimers
      modifies this
      ensures State() == Step(config, old(State()), ConnectTimer(k)) && Invariant(config, State())
    {
      hide Invariant;
      StepKeepsInvariant(config, State(), ConnectTimer(k));
      connectTimers := connectTimers - {k};
      terminated := terminated + {k};
    }

    method OnOpen(k: Socket)
      requires config.Usable() && Invariant(config, State()) && Enabled(State(), Opened(k))
      modifies this
      ensures State() == Step(config, old(State()), Opened(k)) && Invariant(config, State())
    {
      hide Invariant;
      StepKeepsInvariant(config, State(), Opened(k));
      connectTimers := connectTimers - {k};
      unopened := unopened - {k};
      session := Connected;
      healthcheckTimer := Some(k);
    }

    method OnClose(k: Socket)
      requires config.Usable() && Invariant(config, State()) && k in listening
      modifies this
      ensures State() == Step(config, old(State()), Closed(k)) && Invariant(config, State())
    {
      hide Invariant;
      StepKeepsInvariant(config, State(), Closed(k));
      connectTimers := connectTimers - {k};
      CleanupSession(k);
      ScheduleReconnect();
    }

    method OnError(k: Socket)
      requires config.Usable() && Invariant(config, State()) && k in listening
      modifies this
      ensures State() == Step(config, old(State()), Errored(k)) && Invariant(config, State())
    {
      hide Invariant;
      StepKeepsInvariant(config, State(), Errored(k));
      connectTimers := connectTimers - {k};
      CleanupSession(k);
      ScheduleReconnect();
    }

    method OnHealthTimer(open: bool, stale: bool)
      requires config.Usable() && Invariant(config, State()) && healthcheckTimer.Some?
      modifies this
      ensures State() == Step(config, old(State()), HealthTimer(open, stale)) && Invariant(config, State())
    {
      hide Invariant;
      StepKeepsInvariant(config, State(), HealthTimer(open, stale));
      if healthcheckTimer != socket || !open {
        return;
      }
      if stale {
        terminated := terminated + {healthcheckTimer.value};
      }
    }
  }
}

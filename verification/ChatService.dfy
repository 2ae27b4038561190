/** The chat queue as the object it is: a queue, its counter of unfinished tasks and the one
    worker. Each method is what runs between two suspension points and is the step of the
    transition system it stands for. */
module ChatService {
  import opened ChatQueue

  class Service {
    const config: Config
    var queue: seq<Task>
    var unfinished: int
    var hand: Hand
    var callers: map<nat, Caller>
    var line: seq<Waiter>
    var awake: nat
    var created: nat
    ghost var outcomes: map<nat, Outcome>
    ghost var starts: map<nat, nat>
    ghost var underflow: bool

    ghost function State(): State
      reads this
    {
      ChatQueue.State(queue, unfinished, hand, callers, line, awake, created, outcomes, starts, underflow)
    }

    constructor (config: Config)
      ensures this.config == config && State() == INITIAL && Invariant(config, State())
    {
      this.config := config;
      queue, unfinished, hand, callers, line, awake, created := [], 0, Empty, map[], [], 0, 0;
      outcomes, starts, underflow := map[], map[], false;
      new;
      InitiallyInvariant(config);
    }

    predicate IsFull()
      reads this
      ensures IsFull() <==> Full(config, State())
    {
      config.maxSize > 0 && |queue| >= config.maxSize
    }

    method MarkDone()
      modifies this
      ensures State() == TaskDone(old(State()))
    {
      if unfinished <= 0 {
        underflow := true;
      } else {
        unfinished := unfinished - 1;
      }
    }

    /** Wakes the first in line that still sleeps. */
    method WakeNext()
      modifies this`awake
      ensures State() == Wake(old(State()))
    {
      if awake < |line| {
        awake := awake + 1;
      }
    }

    method PutNow(task: Task)
      modifies this
      ensures State() == Put(old(State()), task)
    {
      queue := queue + [task];
      unfinished := unfinished + 1;
    }

    /** Drops the oldest task and counts it as done: queue and counter shrink together, so the
        accounting still adds up, and a full queue has room for one. */
    method HandleQueueOverflow()
      requires queue != []
      modifies this
      ensures State() == Overflow(old(State()))
      ensures old(Counted(State())) ==> Counted(State()) && unfinished == old(unfinished) - 1
      ensures |queue| == old(|queue|) - 1 && old(queue) == [old(queue[0])] + queue
      ensures outcomes == old(outcomes[queue[0].id := Overflowed])
      ensures |old(queue)| == config.maxSize ==> !IsFull()
    {
      outcomes := outcomes[queue[0].id := Overflowed];
      queue := queue[1..];
      WakeNext();
      MarkDone();
    }

    /** A message comes in: its caller queues it at once, or first tells the player that an older one is dropped. */
    method EnqueueChat() returns (task: Task)
      requires Invariant(config, State())
      modifies this
      ensures State() == Step(config, old(State()), Arrive) && Invariant(config, State())
      ensures task.id == old(created) && (task in queue || task.id in callers)
    {
      hide Invariant;
      StepKeepsInvariant(config, State(), Arrive);
      task := Task(created, 0);
      created := created + 1;
      if IsFull() {
        HandleQueueOverflow();
        callers := callers[task.id := Notifying];
      } else {
        PutNow(task);
        assert queue[|queue| - 1] == task;
      }
    }

    /** What a caller does after telling the player, and again when it was woken. */
    method PutAsCaller(id: nat)
      modifies this
      ensures State() == CallerPut(config, old(State()), id)
    {
      if IsFull() {
        callers := callers[id := Blocked];
        line := line + [ByCaller(id)];
        return;
      }
      callers := callers - {id};
      PutNow(Task(id, 0));
    }

    method CallerTold(id: nat)
      requires Invariant(config, State()) && id in callers && callers[id] == Notifying
      modifies this
      ensures State() == Step(config, old(State()), Event.CallerTold(id)) && Invariant(config, State())
    {
      hide Invariant;
      StepKeepsInvariant(config, State(), Event.CallerTold(id));
      PutAsCaller(id);
    }

    /** Whoever is first in line was woken and looks for room again. */
    method Resume()
      requires Invariant(config, State()) && awake > 0
      modifies this
      ensures old(Enabled(config, State(), Event.Resume))
      ensures State() == Step(config, old(State()), Event.Resume) && Invariant(config, State())
    {
      assert line != [] && line[0] in line && Waits(State(), line[0]);
      StepKeepsInvariant(config, State(), Event.Resume);
      hide Invariant;
      var first := line[0];
      line := line[1..];
      awake := awake - 1;
      match first {
        case ByCaller(id) => PutAsCaller(id);
        case ByWorker => PutBack(hand.task);
      }
    }

    /** The worker takes the oldest task and starts processing it. */
    method TakeTask()
      requires Invariant(config, State()) && hand == Empty && queue != []
      modifies this
      ensures State() == Step(config, old(State()), Take) && Invariant(config, State())
    {
      hide Invariant;
      StepKeepsInvariant(config, State(), Take);
      var task := queue[0];
      queue := queue[1..];
      WakeNext();
      hand := Processing(task);
      starts := starts[task.id := (if task.id in starts then starts[task.id] else 0) + 1];
    }

    method ProcessingEnded(ok: bool)
      requires Invariant(config, State()) && hand.Processing?
      modifies this
      ensures State() == Step(config, old(State()), Finish(ok)) && Invariant(config, State())
    {
      hide Invariant;
      StepKeepsInvariant(config, State(), Finish(ok));
      outcomes := outcomes[hand.task.id := if ok then Processed else Crashed];
      MarkDone();
      hand := Empty;
    }

    /** Puts the worker's task back, or waits in line for room. */
    method PutBack(task: Task)
      modifies this
      ensures State() == WorkerPut(config, old(State()), task)
    {
      if IsFull() {
        hand := Putting(task);
        line := line + [ByWorker];
        return;
      }
      PutNow(task);
      MarkDone();
      hand := Empty;
    }

    /** The task ran out of time: it is retried up to the limit, for which an older one may have to go. */
    method ProcessingTimedOut()
      requires Invariant(config, State()) && hand.Processing?
      modifies this
      ensures State() == Step(config, old(State()), TimeOut) && Invariant(config, State())
    {
      hide Invariant;
      StepKeepsInvariant(config, State(), TimeOut);
      var task := hand.task;
      if task.retries < config.retryLimit {
        task := task.(retries := task.retries + 1);
        if IsFull() {
          HandleQueueOverflow();
          hand := Telling(task);
        } else {
          PutBack(task);
        }
      } else {
        hand := Skipping(task);
      }
    }

    method WorkerToldOverflow()
      requires Invariant(config, State()) && hand.Telling?
      modifies this
      ensures State() == Step(config, old(State()), WorkerTold) && Invariant(config, State())
    {
      hide Invariant;
      StepKeepsInvariant(config, State(), WorkerTold);
      PutBack(hand.task);
    }

    method WorkerToldSkip()
      requires Invariant(config, State()) && hand.Skipping?
      modifies this
      ensures State() == Step(config, old(State()), SkipTold) && Invariant(config, State())
    {
      hide Invariant;
      StepKeepsInvariant(config, State(), SkipTold);
      outcomes := outcomes[hand.task.id := TimedOut];
      MarkDone();
      hand := Empty;
    }
  }
}

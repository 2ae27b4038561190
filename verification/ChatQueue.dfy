/** The chat queue: callers that may wait for room, one worker that may put a timed-out task
    back, the oldest task dropped on overflow, and the counter of unfinished tasks.
    Each event is what runs between two suspension points. */
module ChatQueue {
  /** maxSize 0 means no bound. */
  datatype Config = Config(maxSize: nat, retryLimit: nat)

  datatype Task = Task(id: nat, retries: nat)

  /** What the worker holds: Telling and Skipping wait for a notice to be sent, Putting for room in the queue. */
  datatype Hand = Empty | Processing(task: Task) | Telling(task: Task) | Putting(task: Task) | Skipping(task: Task)

  /** A caller of enqueue_chat that has not returned: notifying about an overflow, or waiting for room. */
  datatype Caller = Notifying | Blocked

  /** Who waits for room in the queue. */
  datatype Waiter = ByCaller(id: nat) | ByWorker

  datatype Outcome = Processed | Crashed | Overflowed | TimedOut

  datatype State = State(
    queue: seq<Task>, unfinished: int, hand: Hand, callers: map<nat, Caller>,
    line: seq<Waiter>,           // who waits for room, in the order they began to
    awake: nat,                  // how many at the head of the line were woken and have not run since
    created: nat,                // tasks created so far, named by that order
    outcomes: map<nat, Outcome>, // how tasks ended
    starts: map<nat, nat>,       // how often each task was handed to process_task
    underflow: bool)             // task_done was called with nothing unfinished

  const INITIAL := State([], 0, Empty, map[], [], 0, 0, map[], map[], false)

  datatype Event =
    | Arrive
    | CallerTold(id: nat)
    | Resume
    | Take
    | Finish(ok: bool)
    | TimeOut
    | WorkerTold
    | SkipTold

  predicate Full(c: Config, s: State) {
    c.maxSize > 0 && |s.queue| >= c.maxSize
  }

  function TaskDone(s: State): State {
    if s.unfinished <= 0 then s.(underflow := true) else s.(unfinished := s.unfinished - 1)
  }

  function Put(s: State, t: Task): State {
    s.(queue := s.queue + [t], unfinished := s.unfinished + 1)
  }

  /** A task left the queue: the first in line that still sleeps is woken. */
  function Wake(s: State): State {
    if s.awake < |s.line| then s.(awake := s.awake + 1) else s
  }

  /** Drops the oldest task. */
  function Overflow(s: State): State
    requires s.queue != []
  {
    TaskDone(Wake(s.(queue := s.queue[1..], outcomes := s.outcomes[s.queue[0].id := Overflowed])))
  }

  function Enqueue(c: Config, s: State): State {
    var t, s := Task(s.created, 0), s.(created := s.created + 1);
    if Full(c, s) then
      var s := Overflow(s);
      s.(callers := s.callers[t.id := Notifying])
    else Put(s, t)
  }

  /** A caller puts its task, or goes to the end of the line. */
  function CallerPut(c: Config, s: State, id: nat): State {
    if Full(c, s) then s.(callers := s.callers[id := Blocked], line := s.line + [ByCaller(id)])
    else Put(s.(callers := s.callers - {id}), Task(id, 0))
  }

  /** The same for the worker, which is done with its hold of the task once it is queued again. */
  function WorkerPut(c: Config, s: State, t: Task): State {
    if Full(c, s) then s.(hand := Putting(t), line := s.line + [ByWorker])
    else TaskDone(Put(s, t)).(hand := Empty)
  }

  predicate Waits(s: State, w: Waiter) {
    match w
    case ByCaller(id) => id in s.callers && s.callers[id] == Blocked
    case ByWorker => s.hand.Putting?
  }

  /** The first in line was woken and looks again. If the queue is full once more it goes to the end. */
  function ResumeFirst(c: Config, s: State): State
    requires s.awake > 0 && s.line != [] && Waits(s, s.line[0])
  {
    var s' := s.(line := s.line[1..], awake := s.awake - 1);
    match s.line[0]
    case ByCaller(id) => CallerPut(c, s', id)
    case ByWorker => WorkerPut(c, s', s.hand.task)
  }

  function Starts(s: State, id: nat): nat {
    if id in s.starts then s.starts[id] else 0
  }

  predicate Enabled(c: Config, s: State, e: Event) {
    match e
    case Arrive => true
    case CallerTold(id) => id in s.callers && s.callers[id] == Notifying
    case Resume => s.awake > 0 && s.line != [] && Waits(s, s.line[0])
    case Take => s.hand == Empty && s.queue != []
    case Finish(_) => s.hand.Processing?
    case TimeOut => s.hand.Processing?
    case WorkerTold => s.hand.Telling?
    case SkipTold => s.hand.Skipping?
  }

  function Step(c: Config, s: State, e: Event): State
    requires Enabled(c, s, e)
  {
    match e
    case Arrive => Enqueue(c, s)
    case CallerTold(id) => CallerPut(c, s, id)
    case Resume => ResumeFirst(c, s)
    case Take =>
      var t := s.queue[0];
      Wake(s).(queue := s.queue[1..], hand := Processing(t), starts := s.starts[t.id := Starts(s, t.id) + 1])
    case Finish(ok) =>
      TaskDone(s.(outcomes := s.outcomes[s.hand.task.id := if ok then Processed else Crashed])).(hand := Empty)
    case TimeOut =>
      var t := s.hand.task;
      if t.retries < c.retryLimit then
        var t := t.(retries := t.retries + 1);
        if Full(c, s) then Overflow(s).(hand := Telling(t)) else WorkerPut(c, s, t)
      else s.(hand := Skipping(t))
    case WorkerTold => WorkerPut(c, s, s.hand.task)
    case SkipTold => TaskDone(s.(outcomes := s.outcomes[s.hand.task.id := TimedOut])).(hand := Empty)
  }

  predicate Runs(c: Config, s: State, es: seq<Event>)
    decreases |es|
  {
    es == [] || (Enabled(c, s, es[0]) && Runs(c, Step(c, s, es[0]), es[1..]))
  }

  function After(c: Config, s: State, es: seq<Event>): State
    requires Runs(c, s, es)
    decreases |es|
  {
    if es == [] then s else After(c, Step(c, s, es[0]), es[1..])
  }

  // ---------------------------------------------------------------------
  // Accounting
  // ---------------------------------------------------------------------

  function Held(s: State): nat {
    if s.hand == Empty then 0 else 1
  }

  /** The counter is what is queued plus what the worker holds, so task_done never underflows. */
  ghost predicate Counted(s: State) {
    s.unfinished == |s.queue| + Held(s) && !s.underflow
  }

  ghost predicate Queued(q: seq<Task>, id: nat) {
    exists i :: 0 <= i < |q| && q[i].id == id
  }

  ghost predicate InHand(s: State, id: nat) {
    s.hand != Empty && s.hand.task.id == id
  }

  /** In how many places a task is. */
  ghost function Places(s: State, id: nat): nat {
    (if id in s.callers then 1 else 0) + (if Queued(s.queue, id) then 1 else 0)
    + (if InHand(s, id) then 1 else 0) + (if id in s.outcomes then 1 else 0)
  }

  ghost predicate NoTwins(q: seq<Task>) {
    forall i, j | 0 <= i < j < |q| :: q[i].id != q[j].id
  }

  /** Every task created is in exactly one place: with a waiting caller, queued once, held, or ended. */
  ghost predicate Placed(s: State) {
    && NoTwins(s.queue)
    && (forall id: nat :: Places(s, id) == if id < s.created then 1 else 0)
  }

  /** How often a task was started follows from its retries, which stay within the limit. */
  ghost predicate Bounded(c: Config, s: State) {
    && (c.maxSize > 0 ==> |s.queue| <= c.maxSize)
    && (forall i | 0 <= i < |s.queue| ::
          s.queue[i].retries <= c.retryLimit && Starts(s, s.queue[i].id) == s.queue[i].retries)
    && (forall id | id in s.callers :: Starts(s, id) == 0)
    && (s.hand != Empty ==> s.hand.task.retries <= c.retryLimit)
    && (s.hand != Empty ==>
          Starts(s, s.hand.task.id) == s.hand.task.retries + if s.hand.Processing? || s.hand.Skipping? then 1 else 0)
    && (forall id: nat :: Starts(s, id) <= c.retryLimit + 1)
    && (forall id: nat | id >= s.created :: Starts(s, id) == 0)
  }

  /** The line holds exactly those who wait for room, each once, and no wake-up is lost: while
      anyone in it sleeps, whatever room there is belongs to those who were woken. */
  ghost predicate Lined(c: Config, s: State) {
    && s.awake <= |s.line|
    && (forall i, j | 0 <= i < j < |s.line| :: s.line[i] != s.line[j])
    && (forall w :: w in s.line <==> Waits(s, w))
    && (s.line != [] ==> c.maxSize > 0)
    && (s.awake < |s.line| ==> |s.queue| + s.awake >= c.maxSize)
  }

  ghost predicate Invariant(c: Config, s: State) {
    Counted(s) && Placed(s) && Bounded(c, s) && Lined(c, s)
  }

  lemma InitiallyInvariant(c: Config)
    ensures Invariant(c, INITIAL)
  {
  }

  lemma StepCounts(c: Config, s: State, e: Event)
    requires Counted(s) && Enabled(c, s, e)
    ensures Counted(Step(c, s, e))
  {
    hide Starts;
    match e {
      case Arrive => EnqueueCounts(c, s);
      case TimeOut => TimeOutCounts(c, s);
      case _ =>
    }
  }

  lemma EnqueueCounts(c: Config, s: State)
    requires Counted(s)
    ensures Counted(Enqueue(c, s))
  {
  }

  lemma TimeOutCounts(c: Config, s: State)
    requires Counted(s) && s.hand.Processing?
    ensures Counted(Step(c, s, TimeOut))
  {
  }

  lemma TailQueue(q: seq<Task>)
    requires NoTwins(q) && q != []
    ensures NoTwins(q[1..]) && Queued(q, q[0].id)
    ensures forall id: nat :: Queued(q[1..], id) <==> Queued(q, id) && id != q[0].id
  {
    forall id: nat | Queued(q, id) && id != q[0].id
      ensures Queued(q[1..], id)
    {
      var i :| 0 <= i < |q| && q[i].id == id;
      assert q[1..][i - 1].id == id;
    }
  }

  lemma LongerQueue(q: seq<Task>, t: Task)
    requires NoTwins(q) && !Queued(q, t.id)
    ensures NoTwins(q + [t])
    ensures forall id: nat :: Queued(q + [t], id) <==> Queued(q, id) || id == t.id
  {
    assert (q + [t])[|q|].id == t.id;
    forall id: nat | Queued(q, id)
      ensures Queued(q + [t], id)
    {
      var i :| 0 <= i < |q| && q[i].id == id;
      assert (q + [t])[i].id == id;
    }
  }

  lemma OverflowPlaces(s: State)
    requires Placed(s) && s.queue != []
    ensures Placed(Overflow(s))
  {
    TailQueue(s.queue);
    assert Places(s, s.queue[0].id) == 1;
    var s' := Overflow(s);
    forall k: nat
      ensures Places(s', k) == if k < s'.created then 1 else 0
    {
      assert Places(s, k) == if k < s.created then 1 else 0;
    }
  }

  lemma NewCallerPlaces(s: State)
    requires Placed(s)
    ensures Placed(s.(created := s.created + 1, callers := s.callers[s.created := Notifying]))
  {
    assert Places(s, s.created) == 0;
    var s' := s.(created := s.created + 1, callers := s.callers[s.created := Notifying]);
    forall k: nat
      ensures Places(s', k) == if k < s'.created then 1 else 0
    {
      assert Places(s, k) == if k < s.created then 1 else 0;
    }
  }

  lemma EnqueuePlaces(c: Config, s: State)
    requires Placed(s)
    ensures Placed(Enqueue(c, s))
  {
    var s' := Enqueue(c, s);
    if Full(c, s) {
      OverflowPlaces(s);
      NewCallerPlaces(Overflow(s));
      hide Placed;
    } else {
      assert Places(s, s.created) == 0;
      LongerQueue(s.queue, Task(s.created, 0));
      forall k: nat
        ensures Places(s', k) == if k < s'.created then 1 else 0
      {
        assert Places(s, k) == if k < s.created then 1 else 0;
      }
    }
  }

  lemma CallerPutPlaces(c: Config, s: State, id: nat)
    requires Placed(s) && id in s.callers
    ensures Placed(CallerPut(c, s, id))
  {
    assert Places(s, id) == 1;
    if !Full(c, s) {
      LongerQueue(s.queue, Task(id, 0));
    }
    var s' := CallerPut(c, s, id);
    forall k: nat
      ensures Places(s', k) == if k < s'.created then 1 else 0
    {
      assert Places(s, k) == if k < s.created then 1 else 0;
    }
  }

  lemma WorkerPutPlaces(c: Config, s: State, t: Task)
    requires Placed(s) && s.hand != Empty && t.id == s.hand.task.id
    ensures Placed(WorkerPut(c, s, t))
  {
    assert Places(s, t.id) == 1;
    if !Full(c, s) {
      LongerQueue(s.queue, t);
    }
    var s' := WorkerPut(c, s, t);
    forall k: nat
      ensures Places(s', k) == if k < s'.created then 1 else 0
    {
      assert Places(s, k) == if k < s.created then 1 else 0;
    }
  }

  lemma ResumePlaces(c: Config, s: State)
    requires Placed(s) && Enabled(c, s, Resume)
    ensures Placed(Step(c, s, Resume))
  {
    var s' := s.(line := s.line[1..], awake := s.awake - 1);
    assert forall id: nat :: Places(s', id) == Places(s, id);
    match s.line[0] {
      case ByCaller(id) => CallerPutPlaces(c, s', id);
      case ByWorker => WorkerPutPlaces(c, s', s.hand.task);
    }
  }

  /** Where tasks are depends on whose task the worker holds, not on what it does with it. */
  lemma SamePlaces(s: State, hand: Hand)
    requires Placed(s) && s.hand != Empty && hand != Empty && hand.task.id == s.hand.task.id
    ensures Placed(s.(hand := hand))
  {
    var s' := s.(hand := hand);
    forall k: nat
      ensures Places(s', k) == if k < s'.created then 1 else 0
    {
      assert Places(s, k) == if k < s.created then 1 else 0;
    }
  }

  lemma TimeOutPlaces(c: Config, s: State)
    requires Placed(s) && s.hand.Processing?
    ensures Placed(Step(c, s, TimeOut))
  {
    hide Placed;
    var t := s.hand.task;
    if t.retries < c.retryLimit {
      var t := t.(retries := t.retries + 1);
      if Full(c, s) {
        OverflowPlaces(s);
        SamePlaces(Overflow(s), Telling(t));
      } else {
        WorkerPutPlaces(c, s, t);
      }
    } else {
      SamePlaces(s, Skipping(t));
    }
  }

  lemma EndPlaces(s: State, o: Outcome)
    requires Placed(s) && s.hand != Empty
    ensures Placed(TaskDone(s.(outcomes := s.outcomes[s.hand.task.id := o])).(hand := Empty))
  {
    assert Places(s, s.hand.task.id) == 1;
    var s' := TaskDone(s.(outcomes := s.outcomes[s.hand.task.id := o])).(hand := Empty);
    forall k: nat
      ensures Places(s', k) == if k < s'.created then 1 else 0
    {
      assert Places(s, k) == if k < s.created then 1 else 0;
    }
  }

  lemma TakePlaces(c: Config, s: State)
    requires Placed(s) && Enabled(c, s, Take)
    ensures Placed(Step(c, s, Take))
  {
    TailQueue(s.queue);
    assert Places(s, s.queue[0].id) == 1;
    var s' := Step(c, s, Take);
    forall k: nat
      ensures Places(s', k) == if k < s'.created then 1 else 0
    {
      assert Places(s, k) == if k < s.created then 1 else 0;
    }
  }

  lemma StepPlaces(c: Config, s: State, e: Event)
    requires Placed(s) && Enabled(c, s, e)
    ensures Placed(Step(c, s, e))
  {
    match e {
      case Arrive => EnqueuePlaces(c, s);
      case CallerTold(id) => CallerPutPlaces(c, s, id);
      case Resume => ResumePlaces(c, s);
      case Take => TakePlaces(c, s);
      case Finish(ok) => EndPlaces(s, if ok then Processed else Crashed);
      case TimeOut => TimeOutPlaces(c, s);
      case WorkerTold => WorkerPutPlaces(c, s, s.hand.task);
      case SkipTold => EndPlaces(s, TimedOut);
    }
  }

  lemma TakeBounds(c: Config, s: State)
    requires Placed(s) && Bounded(c, s) && Enabled(c, s, Take)
    ensures Bounded(c, Step(c, s, Take))
  {
    var s', id := Step(c, s, Take), s.queue[0].id;
    assert Places(s, id) == (if id < s.created then 1 else 0) && Queued(s.queue, id);
    assert Starts(s, id) == s.queue[0].retries;
    forall k: nat
      ensures Starts(s', k) == if k == id then Starts(s, k) + 1 else Starts(s, k)
      ensures Starts(s', k) <= c.retryLimit + 1 && (k >= s.created ==> Starts(s', k) == 0)
    {
      assert Starts(s, k) <= c.retryLimit + 1;
    }
    forall i | 0 <= i < |s'.queue|
      ensures s'.queue[i].retries <= c.retryLimit && Starts(s', s'.queue[i].id) == s'.queue[i].retries
    {
      assert s'.queue[i] == s.queue[i + 1];
    }
  }

  lemma SameStarts(s: State, s': State)
    requires s'.starts == s.starts
    ensures forall k: nat :: Starts(s', k) == Starts(s, k)
  {
  }

  lemma OverflowBounds(c: Config, s: State)
    requires Bounded(c, s) && s.queue != []
    ensures Bounded(c, Overflow(s))
  {
    SameStarts(s, Overflow(s));
    hide Starts;
  }

  lemma PutBounds(c: Config, s: State, t: Task)
    requires Bounded(c, s) && !Full(c, s) && t.retries <= c.retryLimit && Starts(s, t.id) == t.retries
    ensures Bounded(c, Put(s, t))
  {
    SameStarts(s, Put(s, t));
    hide Starts;
  }

  /** The bounds look at who waits only to say that none of their tasks was started. */
  lemma CallersBounds(c: Config, s: State, s': State)
    requires Bounded(c, s) && s.created <= s'.created
    requires s' == s.(callers := s'.callers, line := s'.line, awake := s'.awake, created := s'.created)
    requires forall id | id in s'.callers && id !in s.callers :: Starts(s, id) == 0
    ensures Bounded(c, s')
  {
    SameStarts(s, s');
    hide Starts;
  }

  /** What the worker holds of a task, and what was counted as done, changes no bound. */
  lemma HandBounds(c: Config, s: State, s': State)
    requires Bounded(c, s)
    requires s' == s.(hand := s'.hand, line := s'.line, unfinished := s'.unfinished, underflow := s'.underflow)
    requires s'.hand != Empty ==> s'.hand.task.retries <= c.retryLimit
    requires s'.hand != Empty ==>
      Starts(s, s'.hand.task.id) == s'.hand.task.retries + if s'.hand.Processing? || s'.hand.Skipping? then 1 else 0
    ensures Bounded(c, s')
  {
    SameStarts(s, s');
    hide Starts;
  }

  lemma EnqueueBounds(c: Config, s: State)
    requires Bounded(c, s)
    ensures Bounded(c, Enqueue(c, s))
  {
    assert Starts(s, s.created) == 0;
    if Full(c, s) {
      OverflowBounds(c, s);
      SameStarts(s, Overflow(s));
      hide Bounded, Starts;
      CallersBounds(c, Overflow(s), Enqueue(c, s));
    } else {
      var s1 := s.(created := s.created + 1);
      CallersBounds(c, s, s1);
      SameStarts(s, s1);
      hide Bounded, Starts;
      PutBounds(c, s1, Task(s.created, 0));
    }
  }

  lemma CallerPutBounds(c: Config, s: State, id: nat)
    requires Bounded(c, s) && id in s.callers
    ensures Bounded(c, CallerPut(c, s, id))
  {
    assert Starts(s, id) == 0;
    var s1 := s.(callers := s.callers - {id});
    CallersBounds(c, s, s1);
    SameStarts(s, s1);
    if Full(c, s) {
      CallersBounds(c, s, CallerPut(c, s, id));
    } else {
      hide Bounded, Starts;
      PutBounds(c, s1, Task(id, 0));
    }
  }

  lemma WorkerPutBounds(c: Config, s: State, t: Task)
    requires Bounded(c, s) && s.hand != Empty && t.id == s.hand.task.id
    requires t.retries <= c.retryLimit && Starts(s, t.id) == t.retries
    ensures Bounded(c, WorkerPut(c, s, t))
  {
    hide Bounded, Starts;
    if Full(c, s) {
      HandBounds(c, s, WorkerPut(c, s, t));
    } else {
      PutBounds(c, s, t);
      HandBounds(c, Put(s, t), WorkerPut(c, s, t));
    }
  }

  lemma ResumeBounds(c: Config, s: State)
    requires Bounded(c, s) && Enabled(c, s, Resume)
    ensures Bounded(c, Step(c, s, Resume))
  {
    var s' := s.(line := s.line[1..], awake := s.awake - 1);
    SameStarts(s, s');
    assert Bounded(c, s') by {
      hide Starts;
    }
    match s.line[0] {
      case ByCaller(id) => CallerPutBounds(c, s', id);
      case ByWorker => WorkerPutBounds(c, s', s.hand.task);
    }
  }

  lemma TimeOutBounds(c: Config, s: State)
    requires Bounded(c, s) && s.hand.Processing?
    ensures Bounded(c, Step(c, s, TimeOut))
  {
    var t := s.hand.task;
    assert Starts(s, t.id) == t.retries + 1 && t.retries <= c.retryLimit;
    if t.retries < c.retryLimit {
      var t := t.(retries := t.retries + 1);
      if Full(c, s) {
        OverflowBounds(c, s);
        SameStarts(s, Overflow(s));
        hide Bounded, Starts;
        HandBounds(c, Overflow(s), Step(c, s, TimeOut));
      } else {
        WorkerPutBounds(c, s, t);
      }
    } else {
      HandBounds(c, s, Step(c, s, TimeOut));
    }
  }

  lemma OtherStepBounds(c: Config, s: State, e: Event)
    requires Bounded(c, s) && Enabled(c, s, e) && e != Take
    ensures Bounded(c, Step(c, s, e))
  {
    match e {
      case Arrive => EnqueueBounds(c, s);
      case CallerTold(id) => CallerPutBounds(c, s, id);
      case Resume => ResumeBounds(c, s);
      case TimeOut => TimeOutBounds(c, s);
      case WorkerTold => WorkerPutBounds(c, s, s.hand.task);
      case Finish(_) =>
        SameStarts(s, Step(c, s, e));
        hide Starts;
      case SkipTold =>
        SameStarts(s, Step(c, s, e));
        hide Starts;
      case Take =>
    }
  }

  lemma StepBounds(c: Config, s: State, e: Event)
    requires Placed(s) && Bounded(c, s) && Enabled(c, s, e)
    ensures Bounded(c, Step(c, s, e))
  {
    hide Placed, Bounded, Step;
    if e == Take {
      TakeBounds(c, s);
    } else {
      OtherStepBounds(c, s, e);
    }
  }

  // ---------------------------------------------------------------------
  // The line
  // ---------------------------------------------------------------------

  lemma WakeKeepsLine(c: Config, s: State, s': State)
    requires Lined(c, s) && s.queue != [] && s'.queue == s.queue[1..]
    requires s'.line == s.line && s'.awake == Wake(s).awake && s'.callers == s.callers
    requires s'.hand.Putting? == s.hand.Putting?
    ensures Lined(c, s')
  {
    assert forall w :: Waits(s', w) == Waits(s, w);
  }

  lemma SameLine(c: Config, s: State, s': State)
    requires Lined(c, s) && |s'.queue| >= |s.queue| && s'.line == s.line && s'.awake == s.awake
    requires forall w :: Waits(s', w) == Waits(s, w)
    ensures Lined(c, s')
  {
  }

  lemma JoinLine(c: Config, s: State, w: Waiter, s': State)
    requires Lined(c, s) && Full(c, s) && w !in s.line
    requires s'.line == s.line + [w] && s'.awake == s.awake && s'.queue == s.queue
    requires forall v :: Waits(s', v) == (Waits(s, v) || v == w)
    ensures Lined(c, s')
  {
  }

  /** The first in line steps out of it, and has room to put its task. */
  lemma LeaveLine(c: Config, s: State, s': State)
    requires Lined(c, s) && s.awake > 0 && s.line != []
    requires s'.line == s.line[1..] && s'.awake == s.awake - 1 && |s'.queue| == |s.queue| + 1
    requires forall v :: Waits(s', v) == (Waits(s, v) && v != s.line[0])
    ensures Lined(c, s')
  {
    forall v
      ensures v in s'.line <==> Waits(s', v)
    {
      if v in s.line && v != s.line[0] {
        var i :| 0 <= i < |s.line| && s.line[i] == v;
        assert s.line[1..][i - 1] == v;
      }
    }
  }

  /** The first in line steps out and goes to the end of it. */
  lemma GoToEnd(c: Config, s: State, s': State)
    requires Lined(c, s) && s.awake > 0 && s.line != [] && Full(c, s)
    requires s'.line == s.line[1..] + [s.line[0]] && s'.awake == s.awake - 1 && s'.queue == s.queue
    requires forall v :: Waits(s', v) == Waits(s, v)
    ensures Lined(c, s')
  {
    assert s.line == [s.line[0]] + s.line[1..];
    assert forall v :: v in s'.line <==> v in s.line;
  }

  lemma ResumeKeepsLine(c: Config, s: State)
    requires Lined(c, s) && Enabled(c, s, Resume)
    ensures Lined(c, Step(c, s, Resume))
  {
    var s' := Step(c, s, Resume);
    if Full(c, s) {
      GoToEnd(c, s, s');
    } else {
      LeaveLine(c, s, s');
    }
  }

  /** The worker asks to put its task back. */
  lemma WorkerPutKeepsLine(c: Config, s: State, t: Task)
    requires Lined(c, s) && !s.hand.Putting?
    ensures Lined(c, WorkerPut(c, s, t))
  {
    var s' := WorkerPut(c, s, t);
    if Full(c, s) {
      JoinLine(c, s, ByWorker, s');
    } else {
      SameLine(c, s, s');
    }
  }

  lemma CallerPutKeepsLine(c: Config, s: State, id: nat)
    requires Lined(c, s) && id in s.callers && s.callers[id] == Notifying
    ensures Lined(c, CallerPut(c, s, id))
  {
    var s' := CallerPut(c, s, id);
    if Full(c, s) {
      JoinLine(c, s, ByCaller(id), s');
    } else {
      SameLine(c, s, s');
    }
  }

  lemma OverflowKeepsLine(c: Config, s: State)
    requires Lined(c, s) && s.queue != []
    ensures Lined(c, Overflow(s))
  {
    WakeKeepsLine(c, s, Overflow(s));
  }

  lemma EnqueueKeepsLine(c: Config, s: State)
    requires Lined(c, s) && s.created !in s.callers
    ensures Lined(c, Enqueue(c, s))
  {
    var s' := Enqueue(c, s);
    if Full(c, s) {
      OverflowKeepsLine(c, s);
      SameLine(c, Overflow(s), s');
    } else {
      SameLine(c, s, s');
    }
  }

  lemma TimeOutKeepsLine(c: Config, s: State)
    requires Lined(c, s) && s.hand.Processing?
    ensures Lined(c, Step(c, s, TimeOut))
  {
    hide Lined;
    var t := s.hand.task;
    if t.retries < c.retryLimit {
      var t := t.(retries := t.retries + 1);
      if Full(c, s) {
        OverflowKeepsLine(c, s);
        SameLine(c, Overflow(s), Step(c, s, TimeOut));
      } else {
        WorkerPutKeepsLine(c, s, t);
      }
    } else {
      SameLine(c, s, Step(c, s, TimeOut));
    }
  }

  lemma StepKeepsLine(c: Config, s: State, e: Event)
    requires Placed(s) && Lined(c, s) && Enabled(c, s, e)
    ensures Lined(c, Step(c, s, e))
  {
    match e {
      case Arrive =>
        assert Places(s, s.created) == 0;
        hide Placed;
        EnqueueKeepsLine(c, s);
      case CallerTold(id) => CallerPutKeepsLine(c, s, id);
      case Resume => ResumeKeepsLine(c, s);
      case Take => WakeKeepsLine(c, s, Step(c, s, e));
      case Finish(_) => SameLine(c, s, Step(c, s, e));
      case TimeOut => TimeOutKeepsLine(c, s);
      case WorkerTold => WorkerPutKeepsLine(c, s, s.hand.task);
      case SkipTold => SameLine(c, s, Step(c, s, e));
    }
  }

  lemma StepKeepsInvariant(c: Config, s: State, e: Event)
    requires Invariant(c, s) && Enabled(c, s, e)
    ensures Invariant(c, Step(c, s, e))
  {
    hide Counted, Placed, Bounded, Lined;
    StepCounts(c, s, e);
    StepPlaces(c, s, e);
    StepBounds(c, s, e);
    StepKeepsLine(c, s, e);
  }

  /** Main result: the accounting holds throughout every run. */
  lemma {:induction false} RunKeepsInvariant(c: Config, s: State, es: seq<Event>)
    requires Invariant(c, s) && Runs(c, s, es)
    ensures Invariant(c, After(c, s, es))
    decreases |es|
  {
    hide Invariant, Step, Enabled;
    if es != [] {
      StepKeepsInvariant(c, s, es[0]);
      RunKeepsInvariant(c, Step(c, s, es[0]), es[1..]);
    }
  }
}

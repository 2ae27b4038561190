/** Wood collection: chat commands, one trip at a time, and a record on disk that outlives
    crashes. At every wait the player may give commands, the world may move on, and the
    process may die; a star stands for a choice that is not the service's. */
module WoodService {
  import opened Cargo
  import opened Geometry
  import opened Options
  import opened WoodLog

  datatype Phase = Idle | Searching | Harvesting | Returning | Depositing | Blocked

  datatype Reason =
    | OperationFailed | Unregistered | Occupied | GuardUnavailable | ChestUnavailable | StorageIncomplete
    | RouteUnavailable | Stopped | Disconnected | StateUnavailable | Unhealthy | InventoryChanged
    | InventoryUnsupported | Changed
    | Unexpected // an error without a message of its own

  /** How a piece of work ended; Crashed means the process died at one of its waits. */
  datatype Outcome = Fine | Thrown(reason: Reason) | Crashed {
    predicate IsFailure() {
      !Fine?
    }
    function PropagateFailure(): Outcome
      requires IsFailure()
    {
      this
    }
  }

  datatype Command =
    | Stop
    | Status
    | Reset(confirmed: bool)
    | Base(x: int, y: int, z: int, wellFormed: bool)
    | Collect(amount: int, wellFormed: bool)
    | Return
    | Help

  /** Work for which busy is taken before the first wait. */
  datatype Job = ResetJob | BaseJob(chest: Point) | Trip(collect: bool, amount: nat)

  /** The guard's answer, after validation. */
  datatype Verdict = Verdict(allowed: bool, logs: seq<Site>)

  predicate Sane(v: Verdict) {
    |v.logs| <= 6 && (v.allowed ==> v.logs != [])
  }

  const FAR: int := 30000000

  /** The failures after which a collecting trip still heads home. */
  const RETURNING: set<Reason> := {Changed, GuardUnavailable, RouteUnavailable, StorageIncomplete, OperationFailed}

  /** A record that holds a trip with this baseline open. */
  ghost predicate Owes(s: Option<WoodState>, baseline: map<Kind, nat>) {
    s.Some? && s.value.pending && s.value.baseline == baseline
  }

  /** The stored record is of the same trip: opened at the same place with the same baseline. */
  ghost predicate Follows(stored: Option<WoodState>, s: WoodState) {
    && Owes(stored, s.baseline)
    && stored.value.trail != [] && s.trail != [] && stored.value.trail[0] == s.trail[0]
  }

  /** An open record's baseline is what the inventory held when its books began. */
  ghost predicate Anchored(s: Option<WoodState>, since: Books) {
    s.Some? && s.value.pending ==> forall k: Kind | k != Other :: At(s.value.baseline, k) == since.Net(k)
  }

  ghost predicate Tied(items: seq<Item>, books: Books) {
    forall k | k != Other :: Total(items, k) == books.Net(k)
  }

  /** No kind of cargo got less. */
  predicate Grown(before: seq<Item>, after: seq<Item>) {
    forall k | k != Other :: Total(after, k) >= Total(before, k)
  }

  class Service {
    const owner: string
    // Memory
    var busy: bool
    var phase: Phase
    var stopped: bool
    var interrupted: bool
    var state: Option<WoodState>
    var stateError: bool
    var holding: bool // the movement lock
    // The world
    var connected: bool
    var dimension: string
    var health: nat
    var food: nat
    var items: seq<Item>
    var disk: Option<WoodState>
    // Books kept beside the record in memory and the one on disk
    ghost var books: Books
    ghost var since: Books
    ghost var diskSince: Books
    ghost var log: Log

    ghost predicate Valid()
      reads this
    {
      && (owner == "" || IsName(owner))
      && Stocked(items) && Tied(items, books)
      && (state.Some? ==> WellFormed(state.value)) && Anchored(state, since)
      && (disk.Some? ==> WellFormed(disk.value)) && Anchored(disk, diskSince)
      && (Owing(log).Some? ==> Owes(disk, Owing(log).value) && (stateError || Owes(state, Owing(log).value)))
      && Lawful(log) && (Running(log) ==> busy && (Halted(log) ==> stopped || interrupted))
    }

    /** A trip is under way. */
    ghost predicate OnTrip()
      reads this
    {
      Valid() && busy && Running(log) && state.Some? && !stateError
    }

    /** A trip that may dig: it is open on disk as in memory, and what it dug stays within what
        it committed to. */
    ghost predicate Collecting(committed: nat)
      reads this
    {
      && OnTrip() && state.value.pending && Follows(disk, state.value)
      && 1 <= |state.value.trail| <= TRAIL
      && Digs(log) <= committed <= Limit(log)
    }

    ghost predicate Covers(baseline: map<Kind, nat>)
      reads this
    {
      forall k: Kind | k != Other :: Total(items, k) >= At(baseline, k)
    }

    /** What a wait leaves as it was. */
    twostate predicate Waited()
      reads this
    {
      Carried() && books.banked == old(books.banked)
    }

    twostate predicate Carried()
      reads this
    {
      Went() && Work(log) == old(Work(log)) && Answers(log) == old(Answers(log))
    }

    twostate predicate Went()
      reads this
    {
      && state == old(state) && since == old(since) && stateError == old(stateError)
      && old(log) <= log && Owing(log) == old(Owing(log))
      && busy == old(busy) && phase == old(phase) && holding == old(holding)
      && Running(log) == old(Running(log)) && Limit(log) == old(Limit(log)) && Digs(log) == old(Digs(log))
      && (old(stopped) ==> stopped) && (old(interrupted) ==> interrupted)
    }

    /** The trip is the one it was: opened at the same place with the same baseline. */
    twostate predicate SameTrip()
      reads this
    {
      && old(log) <= log && Limit(log) == old(Limit(log))
      && state.Some? && old(state).Some? && state.value.baseline == old(state.value.baseline)
      && state.value.trail != [] && old(state.value.trail) != [] && state.value.trail[0] == old(state.value.trail)[0]
    }

    /** The disk has what it had, or the record as it is in memory. */
    twostate predicate Recorded()
      reads this
    {
      KeptDisk() || (disk == state && diskSince == since)
    }

    twostate predicate KeptDisk()
      reads this
    {
      disk == old(disk) && diskSince == old(diskSince)
    }

    constructor (owner: string)
      requires owner == "" || IsName(owner)
      ensures Valid() && !busy
    {
      this.owner := owner;
      busy, phase, stopped, interrupted, state, stateError, holding := false, Idle, false, false, None, false, false;
      connected, dimension, health, food, items, disk := false, "", 0, 0, [], None;
      var empty := Books(k => 0, k => 0);
      books, since, diskSince, log := empty, empty, empty, [];
    }

    ghost method Note(a: Act)
      requires Lawful(log) && Permitted(log, a)
      modifies this`log
      ensures log == old(log) + [a] && Before(log) == old(log) && Last(log) == a && Lawful(log)
    {
      Extend(log, a);
      log := log + [a];
    }

    // -------------------------------------------------------------------
    // Waiting
    // -------------------------------------------------------------------

    /** The world moves on. While sure, cargo is lost only by dying, which interrupts. */
    method Drift(sure: bool)
      requires Valid()
      modifies this`connected, this`dimension, this`health, this`food, this`items, this`books
      ensures Valid() && books.banked == old(books.banked)
      ensures sure && !interrupted ==> Grown(old(items), items)
    {
      hide Lawful, Running, Halted, WellFormed, Anchored, Owes, IsName, Total;
      connected, dimension, health, food := *, *, *, *;
      var next: seq<Item> := *;
      if Stocked(next) && (sure && !interrupted ==> Grown(items, next)) {
        ghost var was, before := books, items;
        books := Books(k => was.gained(k) + Total(next, k) - Total(before, k), was.banked);
        items := next;
      }
    }

    /** The bot may die or disconnect. */
    method MeetFate()
      requires Valid() && busy
      modifies this`interrupted, this`log
      ensures Valid() && Waited()
    {
      if * {
        interrupted := true;
        Goes(log, Interrupted);
        Note(Interrupted);
      }
    }

    /** One wait: a command is answered, the bot may meet its fate, the world drifts. */
    method Await(sure: bool) returns (r: Outcome)
      requires Valid() && busy
      modifies this
      ensures Valid() && Waited() && KeptDisk() && !r.Thrown?
      ensures sure && !interrupted ==> Grown(old(items), items)
    {
      hide Lawful, Running, Halted, Limit, Digs, WellFormed, Anchored, Owes, IsName, Total, Tied, Stocked;
      var username: string, command: Command := *, *;
      var job := Dispatch(username, command);
      assert job.None?;
      MeetFate();
      Drift(sure);
      if * {
        return Crashed;
      }
      r := Fine;
    }

    /** A wait for something that may fail. */
    method Operation(sure: bool, failure: Reason) returns (r: Outcome)
      requires Valid() && busy
      modifies this
      ensures Valid() && Waited() && KeptDisk()
      ensures sure && !interrupted ==> Grown(old(items), items)
      ensures r.Thrown? ==> r.reason in {failure, StorageIncomplete, Unexpected}
    {
      r := Await(sure);
      if r.IsFailure() {
        return;
      }
      if * {
        return Thrown(failure);
      }
      if * {
        return Thrown(StorageIncomplete);
      }
      if * {
        return Thrown(Unexpected);
      }
      r := Fine;
    }

    /** Writes the record. However this ends, the disk has the old record or the new one. */
    method Save(sure: bool) returns (r: Outcome)
      requires Valid() && busy && state.Some? && !stateError
      modifies this
      ensures Valid() && Waited()
      ensures Recorded()
      ensures r.Fine? ==> disk == state
      ensures r.Thrown? ==> r.reason == StateUnavailable
      ensures sure && !interrupted ==> Grown(old(items), items)
    {
      var written: bool := *;
      if written {
        disk, diskSince := state, since;
      }
      :- Await(sure);
      var reported: bool := *;
      if !written || !reported {
        return Thrown(StateUnavailable);
      }
      r := Fine;
    }

    // -------------------------------------------------------------------
    // Commands
    // -------------------------------------------------------------------

    /** The record, if any, is the owner's. */
    predicate IsOwned()
      reads this
    {
      state.Some? ==> state.value.owner == owner
    }

    /** The part of a chat command before its first wait. Work that needs the bot to itself
        is handed out only when none is under way, and takes busy at once. */
    method Dispatch(username: string, command: Command) returns (job: Option<Job>)
      requires Valid()
      modifies this`busy, this`stopped, this`interrupted, this`log
      ensures old(log) <= log
      ensures Valid() && (old(busy) ==> job.None?) && (busy <==> old(busy) || job.Some?)
      ensures job.None? ==> Waited()
      ensures job.Some? ==> username == owner && Ready(job.value) && Begun(job.value)
      ensures command.Stop? && username == owner && IsName(owner) && !stateError && IsOwned() ==>
        stopped && log == old(log) + [StopAccepted]
      ensures job.None? && !(command.Stop? && username == owner && !stateError && IsOwned()) ==>
        log == old(log) && stopped == old(stopped) && interrupted == old(interrupted)
    {
      hide Valid, Lawful, Running, Halted, Limit, Digs;
      job := None;
      if owner == "" || username != owner {
        return;
      }
      if stateError || (state.Some? && state.value.owner != username) {
        return;
      }
      if command.Stop? {
        AcceptStop();
        return;
      }
      if command.Status? || busy {
        return;
      }
      job := Choose(command);
      if job.Some? {
        Begin(job.value);
      }
    }

    method AcceptStop()
      requires Valid()
      modifies this`stopped, this`log
      ensures Valid() && Waited() && stopped && log == old(log) + [StopAccepted]
    {
      stopped := true;
      Goes(log, StopAccepted);
      Note(StopAccepted);
    }

    /** What a job needs of the record. */
    ghost predicate Ready(job: Job)
      reads this
    {
      && !stateError && IsName(owner)
      && match job
         case ResetJob => true
         case BaseJob(_) => state.None? || !state.value.pending
         case Trip(collect, amount) =>
           && state.Some? && state.value.pending == !collect
           && (if collect then Owing(log).None? && 1 <= amount <= 64 else amount == 0)
    }

    /** A trip's start is in the log. */
    ghost predicate Begun(job: Job)
      reads this
    {
      if !job.Trip? then !Running(log)
      else
        && !stopped && !interrupted && Running(log) && !Halted(log)
        && Limit(log) == job.amount && Digs(log) == 0 && Work(log) == [] && Answers(log) == []
    }

    method Choose(command: Command) returns (job: Option<Job>)
      requires Valid() && !busy && !stateError && owner != ""
      ensures job.Some? ==> Ready(job.value)
    {
      hide Lawful, Running, Halted;
      match command {
        case Reset(confirmed) =>
          return if confirmed then Some(ResetJob) else None;
        case Base(x, y, z, wellFormed) =>
          var near: bool := *;
          if state.Some? && state.value.pending {
            return None;
          }
          if !wellFormed || -FAR > x || x > FAR || -FAR > y || y > FAR || -FAR > z || z > FAR || !near {
            return None;
          }
          return Some(BaseJob(Point(x as real, y as real, z as real)));
        case Collect(amount, wellFormed) =>
          var free: bool := *;
          if state.None? || state.value.pending || !free || !wellFormed || amount < 1 || amount > 64 {
            return None;
          }
          return Some(Trip(true, amount));
        case Return =>
          var free: bool := *;
          if state.None? || !state.value.pending || !free {
            return None;
          }
          return Some(Trip(false, 0));
        case _ =>
          return None;
      }
    }

    method Begin(job: Job)
      requires Valid() && !busy && Ready(job)
      modifies this`busy, this`stopped, this`interrupted, this`log
      ensures old(log) <= log
      ensures Valid() && busy && Ready(job) && Begun(job)
    {
      hide Lawful, Running, Halted, Limit, Digs, Owing, Permitted, Tied, Stocked, WellFormed, Anchored, Owes, IsName;
      busy := true;
      if job.Trip? {
        stopped, interrupted := false, false;
        Starts(log, job.amount);
        Note(Started(job.amount));
      }
    }

    // -------------------------------------------------------------------
    // The trip
    // -------------------------------------------------------------------

    predicate Present()
      reads this
    {
      !interrupted && connected && state.Some? && dimension == state.value.dimension
    }

    method Check() returns (r: Outcome)
      requires Valid()
      ensures !r.Crashed?
      ensures r.Fine? <==> Present() && !stopped && health >= 6 && food >= 6
      ensures r.Fine? && Running(log) ==> !Halted(log)
    {
      if !Present() {
        return Thrown(Disconnected);
      }
      if stopped {
        return Thrown(Stopped);
      }
      if health < 6 || food < 6 {
        return Thrown(Unhealthy);
      }
      r := Fine;
    }

    method Report(next: Phase)
      requires Valid()
      modifies this`phase
      ensures Valid() && phase == next
    {
      phase := next;
    }

    method Go() returns (r: Outcome)
      requires OnTrip() && !holding
      modifies this
      ensures OnTrip() && Waited() && KeptDisk()
      ensures r.Fine? ==> !stopped && !interrupted && !Halted(log)
    {
      r := Check();
      if r.IsFailure() {
        return;
      }
      :- Operation(false, RouteUnavailable);
      :- Check();
      r := Fine;
    }

    /** Asks the guard about a log, with grant for leave to dig it, which is the next log to fell. The log
        of the trip gets the grant exactly when an allowed answer arrives, and without grant any answer. */
    method AskGuard(site: Site, grant: bool) returns (r: Outcome, verdict: Verdict)
      requires OnTrip() && (grant ==> Due(log, site))
      modifies this
      ensures OnTrip() && Went() && KeptDisk() && books.banked == old(books.banked)
      ensures r.Fine? ==> Sane(verdict)
      ensures r.Fine? && !grant ==>
        Answers(log) == old(Answers(log)) + [Answered(site, verdict.allowed, verdict.logs)]
      ensures !(r.Fine? && !grant) ==> Answers(log) == old(Answers(log))
      ensures r.Fine? && grant && verdict.allowed ==>
        Work(log) == old(Work(log)) + [Granted(site)] && log != [] && Last(log) == Granted(site)
      ensures !(r.Fine? && grant && verdict.allowed) ==> Work(log) == old(Work(log))
    {
      verdict := *;
      r := Operation(false, GuardUnavailable);
      if r.Fine? && !Sane(verdict) {
        r := Thrown(GuardUnavailable);
      }
      if r.Fine? && !grant {
        Goes(log, Answered(site, verdict.allowed, verdict.logs));
        Note(Answered(site, verdict.allowed, verdict.logs));
      }
      if r.Fine? && grant && verdict.allowed {
        Goes(log, Granted(site));
        Note(Granted(site));
      }
    }

    /** Opens the chest before leaving, without moving anything. */
    method Preview() returns (r: Outcome)
      requires OnTrip() && !holding && !Halted(log)
      modifies this
      ensures OnTrip() && KeptDisk() && (r.Crashed? || !holding)
      ensures state == old(state) && since == old(since) && old(log) <= log && Owing(log) == old(Owing(log))
      ensures Limit(log) == old(Limit(log)) && Digs(log) == old(Digs(log))
      ensures Work(log) == old(Work(log)) && Answers(log) == old(Answers(log))
      ensures r.Fine? ==> exists i :: |old(log)| <= i < |log| && log[i].Opened?
    {
      if !OrdinaryCargo(items) {
        return Thrown(InventoryUnsupported);
      }
      var near: bool, chest: bool, free: bool, room: bool := *, *, *, *;
      if !near {
        return Thrown(RouteUnavailable);
      }
      if !chest {
        return Thrown(ChestUnavailable);
      }
      if !free {
        return Thrown(Occupied);
      }
      holding := true;
      Goes(log, Opened);
      Note(Opened);
      ghost var at := |log| - 1;
      r := Operation(false, Unexpected);
      assert log[at].Opened?;
      if r.Fine? && !room {
        r := Thrown(ChestUnavailable);
      }
      if !r.Crashed? {
        holding := false;
      }
    }

    /** Adds the place just reached, which navigation has seen to be finite. */
    method PushTrail()
      requires OnTrip() && 1 <= |state.value.trail| < TRAIL
      modifies this`state
      ensures OnTrip() && SameTrip() && state == Some(old(state.value).(trail := state.value.trail))
      ensures |state.value.trail| == old(|state.value.trail|) + 1
    {
      var position: Point := *;
      state := Some(state.value.(trail := state.value.trail + [Some(position)]));
    }

    /** Cuts logs down one after the other, each right after the guard granted it. However this
        ends, nothing else was granted or dug. */
    method Fell(logs: seq<Site>, committed: nat) returns (r: Outcome)
      requires Collecting(committed) && committed + |logs| <= Limit(log)
      requires Granteds(Work(log)) + logs <= Reaped(Answers(log), Limit(log))
      modifies this
      ensures Collecting(committed + |logs|) && SameTrip() && Answers(log) == old(Answers(log))
      ensures holding == old(holding) && state == old(state)
      ensures old(Work(log)) <= Work(log) <= old(Work(log)) + Felling(logs, old(state.value.baseline))
      ensures r.Fine? ==> Work(log) == old(Work(log)) + Felling(logs, old(state.value.baseline))
    {
      hide Lawful, Running, Halted, Limit, Digs, Owing, Work, Total, Tied, Stocked, WellFormed, Anchored, IsName;
      ghost var work, floor := Work(log), state.value.baseline;
      for i := 0 to |logs|
        invariant Collecting(committed + i) && SameTrip() && holding == old(holding) && state == old(state)
        invariant Answers(log) == old(Answers(log))
        invariant Work(log) == work + Felling(logs[..i], floor)
      {
        FellingStep(logs, i, floor);
        NextIsDue(log, work, logs, i, floor);
        r := FellOne(logs[i], committed + i);
        if r.IsFailure() {
          return;
        }
      }
      assert logs[..|logs|] == logs;
      r := Fine;
    }

    method FellOne(site: Site, committed: nat) returns (r: Outcome)
      requires Collecting(committed) && committed < Limit(log) && Due(log, site)
      modifies this
      ensures Collecting(committed + 1) && SameTrip() && Answers(log) == old(Answers(log))
      ensures holding == old(holding) && state == old(state)
      ensures old(Work(log)) <= Work(log) <= old(Work(log)) + [Granted(site), Dug(site, state.value.baseline)]
      ensures r.Fine? ==> Work(log) == old(Work(log)) + [Granted(site), Dug(site, state.value.baseline)]
    {
      hide Lawful, Running, Halted, Limit, Digs, Owing, Work, Total, Tied, Stocked, WellFormed, Anchored, IsName;
      r := Check();
      if r.IsFailure() {
        return;
      }
      var visible: bool, felled: bool := *, *;
      if !visible {
        return Thrown(Changed);
      }
      var verdict;
      r, verdict := AskGuard(site, true);
      if r.IsFailure() {
        return;
      }
      :- Check();
      if !verdict.allowed {
        return Thrown(Changed);
      }
      StartDig(site, committed);
      :- Operation(false, Unexpected);
      :- Check();
      r := if felled then Fine else Thrown(Changed);
    }

    /** Starts on the log that the guard granted last, with nothing in between. */
    method StartDig(site: Site, committed: nat)
      requires Collecting(committed) && committed < Limit(log) && !Halted(log)
      requires log != [] && Last(log) == Granted(site)
      modifies this`log
      ensures Collecting(committed + 1) && SameTrip()
      ensures log == old(log) + [Dug(site, state.value.baseline)]
      ensures Work(log) == old(Work(log)) + [Dug(site, state.value.baseline)] && Answers(log) == old(Answers(log))
    {
      ghost var dug := Dug(site, state.value.baseline);
      Goes(log, dug);
      Note(dug);
    }

    /** Walks to the first place beside the tree that can be reached. */
    method Approach() returns (r: Outcome)
      requires OnTrip() && !holding
      modifies this
      ensures OnTrip() && Waited() && KeptDisk()
    {
      var adjacent: seq<Point> := *;
      for i := 0 to |adjacent|
        invariant OnTrip() && Waited() && KeptDisk()
      {
        var o := Go();
        if o.Crashed? || o.Fine? {
          return o;
        }
        :- Check();
      }
      r := Thrown(RouteUnavailable);
    }

    /** Walks to the tree and fells it. */
    method Harvest(logs: seq<Site>, committed: nat) returns (r: Outcome)
      requires Collecting(committed) && committed + |logs| <= Limit(log) && |state.value.trail| < TRAIL && !holding
      requires Granteds(Work(log)) + logs <= Reaped(Answers(log), Limit(log))
      modifies this
      ensures Collecting(committed + |logs|) && SameTrip() && (r.Crashed? || !holding)
      ensures Answers(log) == old(Answers(log))
      ensures old(Work(log)) <= Work(log) <= old(Work(log)) + Felling(logs, old(state.value.baseline))
      ensures r.Fine? ==> Work(log) == old(Work(log)) + Felling(logs, old(state.value.baseline))
    {
      hide Answers, Reaped, Granteds, Felling;
      hide Lawful, Running, Halted, Limit, Digs, Owing, Work, Total, Tied, Stocked, WellFormed, Anchored, IsName;
      :- Approach();
      PushTrail();
      :- Save(false);
      Report(Harvesting);
      var free: bool := *;
      if !free {
        return Thrown(Occupied);
      }
      holding := true;
      r := Fell(logs, committed);
      if !r.Crashed? {
        holding := false;
      }
    }

    /** Waits for the drops and walks to those in sight, at most eight. */
    method Pickup() returns (r: Outcome)
      requires OnTrip() && !holding
      modifies this
      ensures OnTrip() && Waited() && KeptDisk()
    {
      r := Operation(false, Unexpected);
      if r.IsFailure() {
        return;
      }
      :- Check();
      :- Go();
      var drops: seq<Point> := *;
      for i := 0 to if |drops| < 8 then |drops| else 8
        invariant OnTrip() && Waited() && KeptDisk()
      {
        var o := Go();
        if o.Crashed? {
          return o;
        }
        if o.Thrown? {
          r := Check();
          if r.IsFailure() {
            return;
          }
        }
      }
      r := Operation(false, Unexpected);
    }

    /** Whether to look no further: out of time, room or strength, or done. */
    ghost predicate IsEnough(late: bool, committed: nat, amount: nat)
      requires state.Some?
      reads this
    {
      late || health < 12 || food < 12 || |items| > 33 || committed >= amount || |state.value.trail| >= 60
    }

    method Enough(late: bool, committed: nat, amount: nat) returns (enough: bool)
      requires OnTrip()
      ensures enough <==> IsEnough(late, committed, amount)
    {
      enough := late || health < 12 || food < 12 || |items| > SLOTS - 3
        || committed >= amount || |state.value.trail| >= TRAIL;
    }

    /** Everything that the answers so far allow and the amount leaves room for is felled. */
    ghost predicate AllReaped(committed: nat, amount: nat)
      requires state.Some?
      reads this
    {
      && Work(log) == Felling(Reaped(Answers(log), amount), state.value.baseline)
      && committed == |Reaped(Answers(log), amount)|
    }

    /** The felling has come some way through it. */
    ghost predicate PartReaped(committed: nat, amount: nat)
      requires state.Some?
      reads this
    {
      && Work(log) <= Felling(Reaped(Answers(log), amount), state.value.baseline)
      && committed == |Reaped(Answers(log), amount)|
    }

    ghost method PassOver(site: Site, late: bool)
      requires OnTrip() && (late || |items| > 33 || |state.value.trail| >= 60)
      modifies this`log
      ensures OnTrip() && Waited() && KeptDisk()
      ensures log == old(log) + [PassedOver(site, late, |items|, |state.value.trail|)]
    {
      Goes(log, PassedOver(site, late, |items|, |state.value.trail|));
      Note(PassedOver(site, late, |items|, |state.value.trail|));
    }

    /** Asks about one log and fells what the answer allows, if the amount leaves room for it. */
    method TryTree(site: Site, seen: set<Site>, committed: nat, amount: nat)
      returns (r: Outcome, seen': set<Site>, committed': nat, ghost answer: Act)
      requires Collecting(committed) && committed <= amount == Limit(log) && !holding && AllReaped(committed, amount)
      requires |state.value.trail| < TRAIL
      modifies this
      ensures old(log) <= log && old(Answers(log)) <= Answers(log)
      ensures Collecting(committed') && committed <= committed' <= amount && SameTrip() && (r.Crashed? || !holding)
      ensures PartReaped(committed', amount) && (r.Fine? ==> AllReaped(committed', amount))
      ensures r.Fine? ==> answer.Answered? && answer.site == site && Answers(log) == old(Answers(log)) + [answer]
      ensures r.Fine? ==> seen' == seen + {site} + if answer.allowed then set p | p in answer.logs else {}
    {
      hide Lawful, Running, Halted, Limit, Digs, Owing, Total, Tied, Stocked, WellFormed, Anchored, IsName;
      hide Work, Answers, Reaped, Felling, Granteds;
      seen', committed', answer := seen + {site}, committed, Answered(site, false, []);
      :- Check();
      var verdict;
      r, verdict := AskGuard(site, false);
      if r.IsFailure() {
        return;
      }
      answer := Answered(site, verdict.allowed, verdict.logs);
      AnswerAdds(old(Answers(log)), answer, amount, state.value.baseline);
      if !verdict.allowed {
        return;
      }
      seen' := seen' + set p | p in verdict.logs;
      if |verdict.logs| > amount - committed' {
        return;
      }
      committed' := committed' + |verdict.logs|;
      :- Harvest(verdict.logs, committed);
      :- Pickup();
      r := Save(false);
    }

    /** Works through the candidates in sight of one place. Each is asked about unless it was seen
        before or is passed over, and what an answer allows is felled if the amount leaves room for it. */
    method GatherAround(candidates: seq<Site>, seen: set<Site>, committed: nat, amount: nat)
      returns (r: Outcome, seen': set<Site>, committed': nat)
      requires Collecting(committed) && amount == Limit(log) && !holding && AllReaped(committed, amount)
      modifies this
      ensures old(log) <= log
      ensures Collecting(committed') && committed <= committed' && SameTrip() && (r.Crashed? || !holding)
      ensures PartReaped(committed', amount) && (r.Fine? ==> AllReaped(committed', amount))
      ensures old(Answers(log)) <= Answers(log)
      ensures r.Fine? ==> seen' == seen + Considered(Answers(log)[|old(Answers(log))|..])
      ensures r.Fine? && committed' < amount ==> Handled(candidates, seen', log, |old(log)|)
    {
      hide Lawful, Running, Halted, Limit, Digs, Owing, Total, Tied, Stocked, WellFormed, Anchored, IsName;
      hide Work, Answers, Reaped, Felling, Considered;
      seen', committed' := seen, committed;
      NothingConsidered(Answers(log));
      for j := 0 to |candidates|
        invariant old(log) <= log && old(Answers(log)) <= Answers(log)
        invariant Collecting(committed') && committed <= committed' <= amount && SameTrip() && !holding
        invariant AllReaped(committed', amount)
        invariant seen' == seen + Considered(Answers(log)[|old(Answers(log))|..])
        invariant Handled(candidates[..j], seen', log, |old(log)|)
      {
        var late: bool := *;
        if candidates[j] in seen' || late || |items| > SLOTS - 3 || |state.value.trail| >= TRAIL {
          if candidates[j] !in seen' {
            ghost var before := log;
            PassOver(candidates[j], late);
            assert log[|before|].PassedOver? && log[|before|].site == candidates[j];
            assert WasPassedOver(log, |old(log)|, candidates[j]);
            StillHandled(candidates[..j], seen', seen', before, log, |old(log)|);
          }
          continue;
        }
        ghost var answer, before, known := Answered(candidates[j], false, []), log, seen';
        r, seen', committed', answer := TryTree(candidates[j], seen', committed', amount);
        if r.IsFailure() {
          return;
        }
        ConsideredOneMore(old(Answers(log)), Answers(before), answer);
        StillHandled(candidates[..j], known, seen', before, log, |old(log)|);
        if committed' >= amount {
          break;
        }
      }
      r := Fine;
    }

    /** Works through home and the points around it. However this ends, the trail has at most 60
        places, and what was dug is within the logs committed to, and those within the amount. It
        ends without a failure only after all these places, or when it is enough. */
    method Gather(amount: nat, late: nat -> bool) returns (r: Outcome, committed: nat, tried: nat)
      requires Collecting(0) && amount == Limit(log) && !holding && AllReaped(0, amount)
      modifies this
      ensures old(log) <= log
      ensures Collecting(committed) && committed <= amount && SameTrip() && (r.Crashed? || !holding)
      ensures PartReaped(committed, amount) && (r.Fine? ==> AllReaped(committed, amount))
      ensures tried <= 13 && (r.Fine? ==> tried == 13 || IsEnough(late(tried), committed, amount))
    {
      hide Lawful, Running, Halted, Limit, Digs, Owing, Total, Tied, Stocked, WellFormed, Anchored, IsName;
      hide Work, Answers, Reaped, Felling, Considered, WasPassedOver;
      committed, tried := 0, 0;
      var seen: set<Site> := {};
      var targets := [state.value.home] + ExplorationPoints(state.value.home);
      while tried < |targets|
        invariant old(log) <= log && tried <= |targets|
        invariant Collecting(committed) && committed <= amount && SameTrip() && !holding
        invariant AllReaped(committed, amount)
      {
        :- Check();
        var enough := Enough(late(tried), committed, amount);
        if enough {
          break;
        }
        tried := tried + 1;
        Report(Searching);
        var o := Go();
        if o.Crashed? {
          return o, committed, tried;
        }
        if o.Thrown? {
          :- Check();
          continue;
        }
        PushTrail();
        :- Save(false);
        var candidates: seq<Site> := *;
        r, seen, committed := GatherAround(candidates, seen, committed, amount);
        if r.IsFailure() {
          return;
        }
      }
      r := Fine;
    }

    /** Opens a trip in the record, with what the bot already carries as its baseline and the
        position as it was read: without a finite one the record will not load again. */
    method OpenRecord(position: Option<Point>)
      requires OnTrip() && Owing(log).None?
      modifies this`state, this`since
      ensures OnTrip() && since == books
      ensures forall k: Kind | k != Other :: At(state.value.baseline, k) == Total(items, k)
      ensures state == Some(old(state.value).(pending := true, baseline := state.value.baseline, trail := [position]))
      ensures Loadable(state.value) <==> position.Some?
    {
      var counts := CargoCounts(items);
      state, since := Some(state.value.(pending := true, baseline := counts, trail := [position])), books;
      ReloadsIff(state.value);
    }

    /** Main result: sets out once the opened record is on disk. On every exit, if anything was dug then it is
        there, and a new process could load it exactly if the position at the opening was finite. Success
        means that all was felled that the guard's answers allow within the amount, and nothing else. */
    method SetOut(amount: nat, position: Option<Point>) returns (r: Outcome)
      requires OnTrip() && !holding && !Halted(log) && Owing(log).None? && Limit(log) == amount && Digs(log) == 0
      requires Work(log) == [] && Answers(log) == []
      modifies this
      ensures old(log) <= log
      ensures OnTrip() && (r.Crashed? || !holding)
      ensures r.Fine? || Digs(log) > 0 ==>
        Collecting(amount) && state.value.trail[0] == position && (Loadable(disk.value) <==> position.Some?)
      ensures Work(log) <= Felling(Reaped(Answers(log), amount), state.value.baseline)
      ensures r.Fine? ==> Work(log) == Felling(Reaped(Answers(log), amount), state.value.baseline)
    {
      r := Preview();
      if r.IsFailure() {
        return;
      }
      :- Check();
      OpenRecord(position);
      :- Save(false);
      NothingReaped(log, amount, state.value.baseline);
      var late: nat -> bool := *;
      var committed, tried;
      r, committed, tried := Gather(amount, late);
      ReloadsIff(disk.value);
    }

    // -------------------------------------------------------------------
    // The return
    // -------------------------------------------------------------------

    /** Some of the items of a kind go into the open chest. */
    method MoveSome(kind: Kind, count: nat)
      requires Valid() && kind != Other
      modifies this`items, this`books
      ensures Valid()
      ensures forall k :: old(books.banked(k)) <= books.banked(k)
      ensures forall k :: books.banked(k) <= old(books.banked(k)) + if k == kind then count else 0
      ensures forall k: Kind | k != Other :: Total(items, k) >= old(Total(items, k)) - if k == kind then count else 0
    {
      hide Lawful, Running, Halted, Owing, WellFormed, Anchored, Owes, IsName, Total;
      var moved: nat, next: seq<Item> := *, *;
      if moved <= count && Stocked(next)
        && forall k :: Total(next, k) == Total(items, k) - if k == kind then moved else 0
      {
        ghost var was := books;
        books := Books(was.gained, k => was.banked(k) + if k == kind then moved else 0);
        items := next;
      }
    }

    /** Moves up to count items of a kind into the open chest, and may fail half way. */
    method Deposit(kind: Kind, count: nat) returns (r: Outcome)
      requires OnTrip() && kind != Other
      modifies this
      ensures OnTrip() && Carried() && KeptDisk()
      ensures forall k :: old(books.banked(k)) <= books.banked(k)
      ensures forall k :: books.banked(k) <= old(books.banked(k)) + if k == kind then count else 0
      ensures !interrupted ==>
        forall k: Kind | k != Other :: Total(items, k) >= old(Total(items, k)) - if k == kind then count else 0
    {
      hide Valid, Lawful, Running, Halted, Limit, Digs, Owing, Work, Total;
      MoveSome(kind, count);
      r := Operation(true, Unexpected);
    }

    /** Of each kind there is the baseline and what is still to be stored. */
    ghost predicate Leaves(delta: Counts, rest: set<Kind>)
      requires rest <= delta.Keys && state.Some?
      reads this
    {
      forall k: Kind | k != Other :: Total(items, k) >= At(state.value.baseline, k) + if k in rest then delta[k] else 0
    }

    /** Opens the chest at home. */
    method OpenChest() returns (r: Outcome)
      requires OnTrip() && !Halted(log)
      modifies this
      ensures OnTrip() && Carried() && KeptDisk() && books.banked == old(books.banked)
      ensures !interrupted ==> Grown(old(items), items)
    {
      Goes(log, Opened);
      Note(Opened);
      r := Operation(true, Unexpected);
    }

    method StartDeposit(count: nat, held: nat, floor: nat)
      requires OnTrip() && !Halted(log) && held - count >= floor
      modifies this`log
      ensures OnTrip() && Waited() && KeptDisk() && log == old(log) + [Deposited(count, held, floor)]
    {
      Goes(log, Deposited(count, held, floor));
      Note(Deposited(count, held, floor));
    }

    method StoreOne(name: Kind, delta: Counts, rest: set<Kind>) returns (r: Outcome)
      requires OnTrip() && name in delta && name !in rest && rest <= delta.Keys
      requires interrupted || Leaves(delta, rest + {name})
      modifies this
      ensures OnTrip() && Carried() && Recorded()
      ensures interrupted || Leaves(delta, rest)
    {
      hide Valid, Lawful, Running, Halted, Limit, Digs, Total;
      :- Check();
      var chest: bool := *;
      if !chest {
        return Thrown(ChestUnavailable);
      }
      if !exists i :: 0 <= i < |items| && items[i].kind == name {
        return Thrown(StorageIncomplete);
      }
      :- Move(name, delta[name]);
      r := SaveOpen();
    }

    /** Deposits and checks that exactly that much is gone. */
    method Move(name: Kind, count: nat) returns (r: Outcome)
      requires OnTrip() && !Halted(log) && name != Other
      requires Total(items, name) - count >= At(state.value.baseline, name)
      modifies this
      ensures OnTrip() && Carried() && KeptDisk()
      ensures !interrupted ==>
        forall k: Kind | k != Other :: Total(items, k) >= old(Total(items, k)) - if k == name then count else 0
    {
      hide Valid, Lawful, Running, Halted, Limit, Digs, Total;
      var before := Count();
      StartDeposit(count, At(before, name), At(state.value.baseline, name));
      :- Deposit(name, count);
      var after := Count();
      r := if At(before, name) - At(after, name) != count then Thrown(StorageIncomplete) else Fine;
    }

    method Count() returns (counts: Counts)
      requires Valid()
      ensures forall k :: k != Other ==> At(counts, k) == Total(items, k)
    {
      counts := CargoCounts(items);
    }

    method SaveOpen() returns (r: Outcome)
      requires OnTrip()
      modifies this
      ensures OnTrip() && Waited() && Recorded()
      ensures !interrupted ==> Grown(old(items), items)
    {
      r := Save(true);
    }

    /** Nothing is above the baseline, and nothing below it unless the bot died on the way. */
    ghost predicate Unloaded()
      requires state.Some?
      reads this
    {
      forall k: Kind | k != Other ::
        && Total(items, k) <= At(state.value.baseline, k)
        && (!interrupted ==> Total(items, k) == At(state.value.baseline, k))
    }

    /** What is to be stored. */
    method Excess() returns (delta: Counts)
      requires OnTrip()
      ensures delta == map[] <==> forall k: Kind | k != Other :: Total(items, k) <= At(state.value.baseline, k)
      ensures Covers(state.value.baseline) ==> Leaves(delta, delta.Keys)
    {
      var counts := CargoCounts(items);
      DeltaIsExcess(counts, state.value.baseline);
      delta := CargoDelta(counts, state.value.baseline);
    }

    /** Puts what exceeds the baseline into the chest, kind by kind. */
    method Store() returns (r: Outcome)
      requires OnTrip() && !interrupted && !Halted(log) && Covers(state.value.baseline)
      modifies this
      ensures OnTrip() && Carried() && Recorded()
      ensures r.Fine? ==> Unloaded()
    {
      hide Valid, Lawful, Running, Halted, Limit, Digs, Total;
      :- OpenChest();
      var delta := Excess();
      var rest := delta.Keys;
      while rest != {}
        invariant rest <= delta.Keys && OnTrip() && Carried() && Recorded()
        invariant interrupted || Leaves(delta, rest)
        decreases |rest|
      {
        var name :| name in rest;
        assert rest - {name} + {name} == rest;
        rest := rest - {name};
        :- StoreOne(name, delta, rest);
      }
      assert interrupted || Covers(state.value.baseline);
      delta := Excess();
      r := if delta != map[] then Thrown(StorageIncomplete) else Fine;
    }

    /** Closes the books of a trip: nothing is owed any more. */
    method Settle()
      requires OnTrip() && state.value.pending
      requires Unloaded()
      modifies this`state, this`log
      ensures OnTrip() && Owing(log).None? && Limit(log) == old(Limit(log))
      ensures state == Some(old(state.value).(pending := false, trail := []))
      ensures Work(log) == old(Work(log)) && Answers(log) == old(Answers(log))
      ensures |log| == |old(log)| + 1 && Last(log).Settled? && Before(log) == old(log)
      ensures Last(log).baseline == old(state.value.baseline) && Last(log).now == books && Last(log).since == since
      ensures forall k: Kind | k != Other :: At(Last(log).left, k) == Total(items, k)
    {
      var left := CargoCounts(items);
      ghost var settled := Settled(state.value.baseline, left, since, books, !interrupted);
      Goes(log, settled);
      Note(settled);
      state := Some(state.value.(pending := false, trail := []));
    }

    /** Walks the trail back, home last. A place that is missing cannot be reached. */
    method WalkHome() returns (r: Outcome)
      requires OnTrip() && !holding
      modifies this
      ensures OnTrip() && Waited() && KeptDisk()
      ensures r.Fine? ==> !stopped && !interrupted && !Halted(log)
      ensures r.Fine? ==> forall i | 0 <= i < |state.value.trail| :: state.value.trail[i].Some?
    {
      for i := |state.value.trail| downto 0
        invariant OnTrip() && Waited() && KeptDisk()
        invariant forall j | i <= j < |state.value.trail| :: state.value.trail[j].Some?
      {
        var late: bool := *;
        if late {
          return Thrown(RouteUnavailable);
        }
        :- Go();
        if state.value.trail[i].None? {
          return Thrown(RouteUnavailable);
        }
      }
      var late: bool := *;
      if late {
        return Thrown(RouteUnavailable);
      }
      r := Go();
    }

    /** Nothing of what the bot set out with may be missing. */
    method Audit() returns (r: Outcome)
      requires OnTrip()
      ensures !r.Crashed? && (r.Fine? ==> Covers(state.value.baseline))
      ensures r == Thrown(InventoryChanged) ==> !Covers(state.value.baseline)
    {
      var inventory := CargoCounts(items);
      if !OrdinaryCargo(items) {
        return Thrown(InventoryUnsupported);
      }
      if exists k <- state.value.baseline :: At(inventory, k) < state.value.baseline[k] {
        return Thrown(InventoryChanged);
      }
      r := Fine;
    }

    /** Stores the cargo, holding the movement lock. */
    method Unload() returns (r: Outcome)
      requires OnTrip() && !holding && !interrupted && !Halted(log) && Covers(state.value.baseline)
      modifies this
      ensures old(log) <= log
      ensures OnTrip() && (r.Crashed? || !holding) && state == old(state) && since == old(since) && Recorded()
      ensures Work(log) == old(Work(log)) && Answers(log) == old(Answers(log))
      ensures r.Fine? ==> Unloaded()
    {
      hide Lawful, Running, Halted, Limit, Digs, Total, Tied, Stocked, WellFormed, Anchored, IsName;
      var chest: bool, free: bool := *, *;
      if !chest {
        return Thrown(ChestUnavailable);
      }
      if !free {
        return Thrown(Occupied);
      }
      holding := true;
      r := Store();
      if !r.Crashed? {
        holding := false;
      }
    }

    method Depart()
      requires OnTrip()
      modifies this`log, this`phase
      ensures OnTrip() && log == old(log) + [HeadedHome]
      ensures Work(log) == old(Work(log)) && Answers(log) == old(Answers(log))
    {
      Report(Returning);
      Goes(log, HeadedHome);
      Note(HeadedHome);
    }

    ghost predicate IsClosed(before: WoodState, after: Option<WoodState>) {
      after == Some(before.(pending := false, trail := []))
    }

    /** Takes the cargo home and stores what exceeds the baseline. The record is closed only when
        nothing does; a failure leaves it open as it was, save one of the last write, after which
        it is closed in memory while the disk may have it open or closed. */
    method ReturnAndStore() returns (r: Outcome)
      requires OnTrip() && state.value.pending && !holding
      modifies this
      ensures old(log) <= log
      ensures OnTrip() && (r.Crashed? || !holding) && old(log) + [HeadedHome] <= log
      ensures Work(log) == old(Work(log)) && Answers(log) == old(Answers(log))
      ensures r.Fine? ==> IsClosed(old(state.value), state) && disk == state && phase == Idle
      ensures r.Fine? ==> forall i | 0 <= i < |old(state.value.trail)| :: old(state.value.trail)[i].Some?
      ensures state == old(state) || IsClosed(old(state.value), state)
      ensures r.Thrown? && state != old(state) ==> r.reason == StateUnavailable
      ensures disk == old(disk) || disk == old(state) || disk == state
    {
      hide Valid, Halted, Limit, Digs, Total, IsName, Work, Answers;
      Depart();
      :- WalkHome();
      :- Audit();
      Report(Depositing);
      :- Unload();
      Settle();
      :- Save(false);
      Report(Idle);
      r := Fine;
    }

    // -------------------------------------------------------------------
    // Whole jobs
    // -------------------------------------------------------------------

    method Attempt(collect: bool, amount: nat) returns (r: Outcome)
      requires OnTrip() && Ready(Trip(collect, amount)) && Begun(Trip(collect, amount)) && !holding
      modifies this
      ensures old(log) <= log
      ensures OnTrip() && (r.Crashed? || !holding)
      ensures r.Fine? ==> !state.value.pending && disk == state && phase == Idle
      ensures Work(log) <= Felling(Reaped(Answers(log), amount), state.value.baseline)
      ensures r.Fine? ==> Work(log) == Felling(Reaped(Answers(log), amount), state.value.baseline)
    {
      hide Work, Answers, Felling, Reaped;
      NothingReaped(log, amount, state.value.baseline);
      r := Check();
      if r.IsFailure() {
        return;
      }
      if collect {
        var position: Option<Point> := *;
        r := SetOut(amount, position);
        if r.IsFailure() {
          return;
        }
      }
      r := ReturnAndStore();
    }

    /** A collecting trip that failed on its way out still heads home, unless it was stopped or is gone. */
    ghost predicate StillHeadsHome(collect: bool, failure: Reason)
      requires state.Some?
      reads this
    {
      && collect && (phase == Searching || phase == Harvesting) && !stopped
      && !interrupted && connected && dimension == state.value.dimension && state.value.pending
      && failure !in {Unregistered, Occupied, ChestUnavailable, Stopped, Disconnected, StateUnavailable, Unhealthy,
                      InventoryChanged, InventoryUnsupported}
    }

    /** After a failure. */
    method Recover(collect: bool, failure: Reason) returns (r: Outcome)
      requires OnTrip() && !holding
      modifies this
      ensures old(log) <= log && OnTrip() && (r.Crashed? || !holding) && !r.Thrown?
      ensures Work(log) == old(Work(log)) && Answers(log) == old(Answers(log))
      ensures state == old(state) || (old(state.value.pending) && IsClosed(old(state.value), state))
      ensures if old(StillHeadsHome(collect, failure)) then old(log) + [HeadedHome] <= log else log == old(log)
      ensures r.Fine? ==> phase == Blocked || (phase == Idle && state != old(state) && disk == state)
    {
      hide Valid, Work, Answers, Halted, Limit, Digs;
      var collecting := phase in {Searching, Harvesting};
      var reason := if stopped then Stopped else if failure != Unexpected then failure
        else if phase == Depositing then StorageIncomplete else OperationFailed;
      Report(Blocked);
      r := Fine;
      if collect && collecting && !stopped && Present() && state.value.pending && reason in RETURNING {
        r := ReturnAndStore();
        if r.Thrown? {
          Report(Blocked);
          r := Fine;
        }
      }
    }

    /** One trip, with its way home after a failure and its end. What it felled is what the guard's answers
        allow within the amount, or the first part of it. */
    method Travel(collect: bool, amount: nat) returns (r: Outcome)
      requires OnTrip() && Ready(Trip(collect, amount)) && Begun(Trip(collect, amount)) && !holding
      modifies this
      ensures old(log) <= log
      ensures Valid() && !r.Thrown? && (r.Crashed? || (!busy && !holding && !stateError))
      ensures state.Some? && Work(log) <= Felling(Reaped(Answers(log), amount), state.value.baseline)
      ensures r.Fine? ==> phase == Idle || phase == Blocked
    {
      hide Valid, Work, Answers, Felling, Reaped, Halted, Limit, Digs;
      r := Attempt(collect, amount);
      if r.Crashed? {
        return;
      }
      if r.Thrown? {
        r := Recover(collect, r.reason);
        if r.Crashed? {
          return;
        }
      }
      :- Await(false);
      End();
      r := Fine;
    }

    method End()
      requires OnTrip()
      modifies this`log, this`busy
      ensures Valid() && !busy && log == old(log) + [Ended]
      ensures Work(log) == old(Work(log)) && Answers(log) == old(Answers(log))
    {
      Stops(log, Ended);
      Note(Ended);
      busy := false;
    }

    /** A record with nothing open. */
    ghost predicate IsNewBase(s: Option<WoodState>, chest: Point) {
      && s.Some? && s.value.owner == owner && s.value.chest == chest
      && !s.value.pending && s.value.baseline == map[] && s.value.trail == []
    }

    /** Registers home and the chest beside it, or leaves the record as it was. */
    method Register(chest: Point) returns (r: Outcome)
      requires Valid() && busy && !holding && !Running(log) && Ready(BaseJob(chest))
      modifies this
      ensures old(log) <= log
      ensures Valid() && !r.Thrown?
      ensures r.Fine? ==> !busy && !holding
      ensures r.Fine? ==> state == old(state) || (disk == state && IsNewBase(state, chest))
    {
      var previous, wasSince := state, since;
      var home: Point, fits: bool := *, *;
      r := Fine;
      if fits {
        state := Some(WoodState(owner, dimension, home, chest, false, map[], []));
        r := Save(false);
        if r.Crashed? {
          return;
        }
        if r.Thrown? {
          state, since := previous, wasSince;
        }
      }
      busy := false;
      r := Fine;
    }

    ghost predicate IsForgotten(before: Option<WoodState>, after: Option<WoodState>) {
      after == if before.Some? then Some(before.value.(pending := false, baseline := map[], trail := [])) else None
    }

    method Drop()
      requires Valid() && state.Some?
      modifies this`state, this`log
      ensures Valid() && log == old(log) + [Forgotten] && IsForgotten(old(state), state)
      ensures Running(log) == old(Running(log)) && Owing(log).None?
    {
      hide Total, Tied, Stocked, IsName;
      state := Some(state.value.(pending := false, baseline := map[], trail := []));
      Goes(log, Forgotten);
      Note(Forgotten);
    }

    /** Forgets an open trip without storing anything. */
    method Forget() returns (r: Outcome)
      requires Valid() && busy && !holding && !Running(log) && Ready(ResetJob)
      modifies this
      ensures old(log) <= log
      ensures Valid() && !r.Thrown?
      ensures r.Fine? ==> !busy && !holding
      ensures r.Fine? ==> IsForgotten(old(state), state) && (stateError || disk == state || state.None?)
    {
      hide Lawful, Running, Halted, Total, Tied, Stocked, Anchored, WellFormed;
      r := Fine;
      if state.Some? {
        Drop();
        r := Save(false);
        if r.Crashed? {
          return;
        }
      }
      if r.Fine? {
        Report(Idle);
      } else {
        stateError := true;
      }
      busy := false;
      r := Fine;
    }

    /** A chat command and the work it starts. */
    method HandleChat(username: string, command: Command) returns (r: Outcome)
      requires Valid() && !busy && !holding
      modifies this
      ensures old(log) <= log
      ensures Valid() && !r.Thrown? && (r.Crashed? || (!busy && !holding))
    {
      var job := Dispatch(username, command);
      if job.None? {
        return Fine;
      }
      match job.value {
        case ResetJob => r := Forget();
        case BaseJob(chest) => r := Register(chest);
        case Trip(collect, amount) => r := Travel(collect, amount);
      }
    }

    /** Main result: a new process has lost its memory, and the record comes from disk, which loads exactly if the
        file can be read and the trip on it, if any, was opened at a finite position. */
    method Restart(readable: bool)
      requires Valid()
      modifies this
      ensures Valid() && !busy && !holding && disk == old(disk) && log == old(log) + [Restarted]
      ensures stateError <==> !readable || (disk.Some? && disk.value.trail != [] && disk.value.trail[0].None?)
      ensures state == (if stateError then None else disk) && since == diskSince
      ensures phase == if state.Some? && state.value.pending then Blocked else Idle
    {
      Die();
      Load(readable);
    }

    method Die()
      requires Valid()
      modifies this`busy, this`stopped, this`interrupted, this`holding, this`phase, this`log
      ensures Valid() && !busy && !holding && phase == Idle && log == old(log) + [Restarted] && !Running(log)
    {
      hide WellFormed, Anchored, Owes, IsName, Tied, Stocked, Halted;
      Stops(log, Restarted);
      Note(Restarted);
      busy, stopped, interrupted, holding, phase := false, false, false, false, Idle;
    }

    method Load(readable: bool)
      requires Valid() && !Running(log) && phase == Idle
      modifies this`stateError, this`state, this`since, this`phase
      ensures Valid()
      ensures stateError <==> !readable || (disk.Some? && disk.value.trail != [] && disk.value.trail[0].None?)
      ensures state == (if stateError then None else disk) && since == diskSince
      ensures phase == if state.Some? && state.value.pending then Blocked else Idle
    {
      if disk.Some? {
        ReloadsIff(disk.value);
      }
      hide Loadable, WellFormed, Tied, Stocked, Lawful, Running, Owing;
      stateError := !readable || (disk.Some? && !Loadable(disk.value));
      state, since := if stateError then None else disk, diskSince;
      if state.Some? && state.value.pending {
        phase := Blocked;
      }
    }

    /** Main result: whatever commands come, whatever the world does and wherever the process
        dies, the record on disk holds every trip that is owed, and the log is lawful. */
    method Live(turns: nat)
      requires Valid() && !busy && !holding
      modifies this
      ensures old(log) <= log
      ensures Valid()
    {
      for i := 0 to turns
        invariant old(log) <= log
        invariant Valid() && !busy && !holding
      {
        var username: string, command: Command, restart: bool, readable: bool := *, *, *, *;
        Drift(false);
        var r := HandleChat(username, command);
        if r.Crashed? || restart {
          Restart(readable);
        }
      }
    }
  }
}

/**
 Concurrent block fetches sharing the set of URLs in flight.

 A task's code between two awaits is one step, and steps of any number of tasks interleave freely.
 The channel to the core is bounded: a send waits for room, a failing task's send while the lock is
 held. The HTTP client is reduced to what it answers.
 */
module BlockFetch {
  import opened Options

  type Url = string
  type Hash = seq<bv8>
  type Bytes = seq<bv8>

  datatype Request = Request(url: Url, hash: Hash, id: nat, peer: nat)

  datatype Stage =
    | Spawned
    | Fetching             // URL inserted, answer awaited
    | Failing              // URL removed, failure not yet reported; the lock is still held
    | Delivered            // block sent to the core, URL not yet removed
    | Finished
    | Rejected

  datatype Task = Task(request: Request, stage: Stage)

  /** An event sent to the core by a task. */
  datatype Event = Fetched(task: nat, request: Request, buffer: Bytes) | Failed(task: nat, request: Request)

  /** The log is every event sent; of those the core has received the first ones. */
  datatype State = State(
    tasks: seq<Task>, inFlight: set<Url>, lock: Option<nat>, log: seq<Event>, received: nat, capacity: nat)

  datatype Step =
    | Spawn(request: Request)
    | Enter(task: nat)                   // lock, look the URL up, insert it, unlock
    | Fail(task: nat)                    // lock and remove the URL after any of the three failures
    | Report(task: nat)                  // send the failure, then unlock
    | Deliver(task: nat, buffer: Bytes)  // send the block
    | Leave(task: nat)                   // lock, remove the URL, unlock
    | Receive                            // the core takes an event out of the channel

  function Initial(capacity: nat): State {
    State([], {}, None, [], 0, capacity)
  }

  predicate Room(s: State) {
    |s.log| < s.received + s.capacity
  }

  predicate At(s: State, t: nat, stage: Stage) {
    t < |s.tasks| && s.tasks[t].stage == stage
  }

  predicate Enabled(s: State, step: Step) {
    match step
    case Spawn(_) => true
    case Enter(t) => At(s, t, Spawned) && s.lock == None
    case Fail(t) => At(s, t, Fetching) && s.lock == None
    case Report(t) => At(s, t, Failing) && Room(s)
    case Deliver(t, _) => At(s, t, Fetching) && Room(s)
    case Leave(t) => At(s, t, Delivered) && s.lock == None
    case Receive => s.received < |s.log|
  }

  function Move(s: State, t: nat, stage: Stage): State
    requires t < |s.tasks|
  {
    s.(tasks := s.tasks[t := s.tasks[t].(stage := stage)])
  }

  function Apply(s: State, step: Step): State
    requires Enabled(s, step)
  {
    match step
    case Spawn(r) =>
      s.(tasks := s.tasks + [Task(r, Spawned)])
    case Enter(t) =>
      var url := s.tasks[t].request.url;
      if url in s.inFlight then Move(s, t, Rejected)
      else Move(s, t, Fetching).(inFlight := s.inFlight + {url})
    case Fail(t) =>
      Move(s, t, Failing).(inFlight := s.inFlight - {s.tasks[t].request.url}, lock := Some(t))
    case Report(t) =>
      Move(s, t, Finished).(log := s.log + [Failed(t, s.tasks[t].request)], lock := None)
    case Deliver(t, buffer) =>
      Move(s, t, Delivered).(log := s.log + [Fetched(t, s.tasks[t].request, buffer)])
    case Leave(t) =>
      Move(s, t, Finished).(inFlight := s.inFlight - {s.tasks[t].request.url})
    case Receive =>
      s.(received := s.received + 1)
  }

  ghost predicate Runs(s: State, steps: seq<Step>)
    decreases |steps|
  {
    steps == [] || (Enabled(s, steps[0]) && Runs(Apply(s, steps[0]), steps[1..]))
  }

  function Run(s: State, steps: seq<Step>): (s': State)
    requires Runs(s, steps)
    ensures s'.capacity == s.capacity
    decreases |steps|
  {
    if steps == [] then s else Run(Apply(s, steps[0]), steps[1..])
  }

  // ----- what holds at every step -----

  /** Between inserting its URL and removing it. */
  predicate Holds(task: Task) {
    task.stage == Fetching || task.stage == Delivered
  }

  /** Its insert succeeded at some point. */
  predicate Admitted(task: Task) {
    task.stage != Spawned && task.stage != Rejected
  }

  predicate Reported(task: Task) {
    task.stage == Delivered || task.stage == Finished
  }

  function EventsOf(log: seq<Event>, t: nat): seq<Event> {
    if log == [] then []
    else EventsOf(log[..|log| - 1], t) + if log[|log| - 1].task == t then [log[|log| - 1]] else []
  }

  /** The set in flight is the URLs of the tasks that hold one, and no two hold the same. */
  ghost predicate Exclusive(s: State) {
    && (forall t :: 0 <= t < |s.tasks| && Holds(s.tasks[t]) ==> s.tasks[t].request.url in s.inFlight)
    && (forall url :: url in s.inFlight ==>
          exists t :: 0 <= t < |s.tasks| && Holds(s.tasks[t]) && s.tasks[t].request.url == url)
    && (forall t, u :: 0 <= t < u < |s.tasks| && Holds(s.tasks[t]) && Holds(s.tasks[u]) ==>
          s.tasks[t].request.url != s.tasks[u].request.url)
  }

  /** The lock is held exactly by a task that is about to report a failure. */
  ghost predicate Locked(s: State) {
    && (forall t :: 0 <= t < |s.tasks| && s.tasks[t].stage == Failing ==> s.lock == Some(t))
    && (s.lock.Some? ==> At(s, s.lock.value, Failing))
  }

  /** Every task has sent one event, carrying its own request, if it has reported, and none otherwise. */
  ghost predicate Accounted(s: State) {
    && (forall t :: 0 <= t < |s.tasks| ==> |EventsOf(s.log, t)| == if Reported(s.tasks[t]) then 1 else 0)
    && (forall k :: 0 <= k < |s.log| ==>
          s.log[k].task < |s.tasks| && s.log[k].request == s.tasks[s.log[k].task].request)
  }

  predicate Bounded(s: State) {
    s.received <= |s.log| <= s.received + s.capacity
  }

  ghost predicate Inv(s: State) {
    Exclusive(s) && Locked(s) && Accounted(s) && Bounded(s)
  }

  lemma EventsOfAppend(log: seq<Event>, e: Event, t: nat)
    ensures EventsOf(log + [e], t) == EventsOf(log, t) + if e.task == t then [e] else []
  {
    assert (log + [e])[..|log|] == log;
  }

  lemma {:induction false} NoEvents(log: seq<Event>, t: nat)
    requires forall k :: 0 <= k < |log| ==> log[k].task != t
    ensures EventsOf(log, t) == []
  {
    if log != [] {
      NoEvents(log[..|log| - 1], t);
    }
  }

  /** Inserting a URL nobody holds, for a task that held none. */
  lemma InsertExclusive(s: State, t: nat, stage: Stage)
    requires Exclusive(s) && t < |s.tasks| && !Holds(s.tasks[t]) && s.tasks[t].request.url !in s.inFlight
    requires Holds(Task(s.tasks[t].request, stage))
    ensures Exclusive(Move(s, t, stage).(inFlight := s.inFlight + {s.tasks[t].request.url}))
  {
    var s' := Move(s, t, stage).(inFlight := s.inFlight + {s.tasks[t].request.url});
    forall url | url in s'.inFlight
      ensures exists u :: 0 <= u < |s'.tasks| && Holds(s'.tasks[u]) && s'.tasks[u].request.url == url
    {
      if url in s.inFlight {
        var u :| 0 <= u < |s.tasks| && Holds(s.tasks[u]) && s.tasks[u].request.url == url;
        assert s'.tasks[u] == s.tasks[u];
      } else {
        assert Holds(s'.tasks[t]);
      }
    }
  }

  /** Removing the URL that a task holds. */
  lemma RemoveExclusive(s: State, t: nat, stage: Stage)
    requires Exclusive(s) && t < |s.tasks| && Holds(s.tasks[t]) && !Holds(Task(s.tasks[t].request, stage))
    ensures Exclusive(Move(s, t, stage).(inFlight := s.inFlight - {s.tasks[t].request.url}))
  {
    var s' := Move(s, t, stage).(inFlight := s.inFlight - {s.tasks[t].request.url});
    forall url | url in s'.inFlight
      ensures exists u :: 0 <= u < |s'.tasks| && Holds(s'.tasks[u]) && s'.tasks[u].request.url == url
    {
      var u :| 0 <= u < |s.tasks| && Holds(s.tasks[u]) && s.tasks[u].request.url == url;
      assert s'.tasks[u] == s.tasks[u];
    }
  }

  /** Steps that neither insert nor remove. */
  lemma StayExclusive(s: State, s': State)
    requires Exclusive(s) && s'.inFlight == s.inFlight && |s.tasks| <= |s'.tasks|
    requires forall t :: 0 <= t < |s.tasks| ==>
               s'.tasks[t].request == s.tasks[t].request && Holds(s'.tasks[t]) == Holds(s.tasks[t])
    requires forall t :: |s.tasks| <= t < |s'.tasks| ==> !Holds(s'.tasks[t])
    ensures Exclusive(s')
  {
    forall url | url in s'.inFlight
      ensures exists t :: 0 <= t < |s'.tasks| && Holds(s'.tasks[t]) && s'.tasks[t].request.url == url
    {
      var t :| 0 <= t < |s.tasks| && Holds(s.tasks[t]) && s.tasks[t].request.url == url;
      assert Holds(s'.tasks[t]);
    }
  }

  lemma StepExclusive(s: State, step: Step)
    requires Exclusive(s) && Enabled(s, step)
    ensures Exclusive(Apply(s, step))
  {
    if step.Enter? && s.tasks[step.task].request.url !in s.inFlight {
      InsertExclusive(s, step.task, Fetching);
    } else if step.Fail? {
      RemoveExclusive(s, step.task, Failing);
    } else if step.Leave? {
      RemoveExclusive(s, step.task, Finished);
    } else {
      StayExclusive(s, Apply(s, step));
    }
  }

  /** A task sends its event. */
  lemma SendAccounted(s: State, e: Event, stage: Stage)
    requires Accounted(s) && e.task < |s.tasks| && e.request == s.tasks[e.task].request
    requires !Reported(s.tasks[e.task]) && Reported(Task(e.request, stage))
    ensures Accounted(Move(s, e.task, stage).(log := s.log + [e]))
  {
    forall t | 0 <= t < |s.tasks|
      ensures EventsOf(s.log + [e], t) == EventsOf(s.log, t) + if e.task == t then [e] else []
    {
      EventsOfAppend(s.log, e, t);
    }
  }

  /** Steps that send nothing. */
  lemma StayAccounted(s: State, s': State)
    requires Accounted(s) && s'.log == s.log && |s.tasks| <= |s'.tasks|
    requires forall t :: 0 <= t < |s.tasks| ==>
               s'.tasks[t].request == s.tasks[t].request && Reported(s'.tasks[t]) == Reported(s.tasks[t])
    requires forall t :: |s.tasks| <= t < |s'.tasks| ==> !Reported(s'.tasks[t])
    ensures Accounted(s')
  {
    forall t | |s.tasks| <= t < |s'.tasks| ensures EventsOf(s.log, t) == [] {
      NoEvents(s.log, t);
    }
  }

  lemma StepAccounted(s: State, step: Step)
    requires Accounted(s) && Enabled(s, step)
    ensures Accounted(Apply(s, step))
  {
    match step {
      case Report(t) => SendAccounted(s.(lock := None), Failed(t, s.tasks[t].request), Finished);
      case Deliver(t, buffer) => SendAccounted(s, Fetched(t, s.tasks[t].request, buffer), Delivered);
      case _ => StayAccounted(s, Apply(s, step));
    }
  }

  lemma StepInv(s: State, step: Step)
    requires Inv(s) && Enabled(s, step)
    ensures Inv(Apply(s, step))
  {
    StepExclusive(s, step);
    assert Locked(Apply(s, step));
    StepAccounted(s, step);
  }

  /**
   Whatever the interleaving, every reachable state is exclusive, properly locked and accounted for, and
   nothing overfills.
   */
  lemma {:induction false} RunInv(s: State, steps: seq<Step>)
    requires Inv(s) && Runs(s, steps)
    ensures Inv(Run(s, steps))
    decreases |steps|
  {
    if steps != [] {
      StepInv(s, steps[0]);
      RunInv(Apply(s, steps[0]), steps[1..]);
    }
  }

  // ----- consequences -----

  ghost predicate Quiescent(s: State) {
    forall t :: 0 <= t < |s.tasks| ==> s.tasks[t].stage == Finished || s.tasks[t].stage == Rejected
  }

  /** Once every task is done nothing is in flight; admitted tasks have sent exactly one event, rejected ones none. */
  lemma AllDone(capacity: nat, steps: seq<Step>)
    requires Runs(Initial(capacity), steps) && Quiescent(Run(Initial(capacity), steps))
    ensures var s := Run(Initial(capacity), steps);
            && s.inFlight == {} && s.lock == None
            && (forall t :: 0 <= t < |s.tasks| ==> |EventsOf(s.log, t)| == if Admitted(s.tasks[t]) then 1 else 0)
  {
    RunInv(Initial(capacity), steps);
  }

  /**
   A URL is fetched again only after the event of every earlier fetch of it has been sent: the
   failing task reports before it gives the lock up, the successful one before it removes its URL.
   */
  lemma AdmittedAfterReports(capacity: nat, steps: seq<Step>, t: nat, u: nat)
    requires Runs(Initial(capacity), steps)
    requires var s := Run(Initial(capacity), steps);
             && Enabled(s, Enter(t)) && s.tasks[t].request.url !in s.inFlight
             && u < |s.tasks| && Admitted(s.tasks[u]) && s.tasks[u].request.url == s.tasks[t].request.url
    ensures var s := Run(Initial(capacity), steps);
            s.tasks[u].stage == Finished && |EventsOf(s.log, u)| == 1
  {
    RunInv(Initial(capacity), steps);
  }

  // ----- what is fetched, and what is reported -----

  /** Another task that has been admitted for the same URL. */
  predicate FetchedBy(s: State, t: nat, u: nat) {
    t < |s.tasks| && u < |s.tasks| && Admitted(s.tasks[u]) && s.tasks[u].request.url == s.tasks[t].request.url
  }

  /** No task is rejected but for another one of the same URL that was admitted. */
  ghost predicate Justified(s: State) {
    forall t :: 0 <= t < |s.tasks| && s.tasks[t].stage == Rejected ==> exists u: nat :: FetchedBy(s, t, u)
  }

  lemma StaysFetched(s: State, step: Step, t: nat, u: nat)
    requires Enabled(s, step) && FetchedBy(s, t, u)
    ensures FetchedBy(Apply(s, step), t, u)
  {
  }

  lemma StepJustified(s: State, step: Step)
    requires Exclusive(s) && Justified(s) && Enabled(s, step)
    ensures Justified(Apply(s, step))
  {
    var s' := Apply(s, step);
    forall t | 0 <= t < |s'.tasks| && s'.tasks[t].stage == Rejected ensures exists u: nat :: FetchedBy(s', t, u) {
      if t < |s.tasks| && s.tasks[t].stage == Rejected {
        var u: nat :| FetchedBy(s, t, u);
        StaysFetched(s, step, t, u);
      } else {
        var u: nat :| u < |s.tasks| && Holds(s.tasks[u]) && s.tasks[u].request.url == s.tasks[t].request.url;
        assert FetchedBy(s', t, u);
      }
    }
  }

  lemma {:induction false} RunJustified(s: State, steps: seq<Step>)
    requires Inv(s) && Justified(s) && Runs(s, steps)
    ensures Justified(Run(s, steps))
    decreases |steps|
  {
    if steps != [] {
      StepJustified(s, steps[0]);
      StepInv(s, steps[0]);
      RunJustified(Apply(s, steps[0]), steps[1..]);
    }
  }

  /** Once every task is done, every URL asked for has been fetched, and the core has been sent the event. */
  lemma EveryUrlFetched(capacity: nat, steps: seq<Step>, t: nat) returns (u: nat)
    requires Runs(Initial(capacity), steps) && Quiescent(Run(Initial(capacity), steps))
    requires t < |Run(Initial(capacity), steps).tasks|
    ensures var s := Run(Initial(capacity), steps);
            FetchedBy(s, t, u) && s.tasks[u].stage == Finished && |EventsOf(s.log, u)| == 1
  {
    var s := Run(Initial(capacity), steps);
    RunInv(Initial(capacity), steps);
    RunJustified(Initial(capacity), steps);
    if s.tasks[t].stage == Rejected {
      u :| FetchedBy(s, t, u);
    } else {
      u := t;
    }
  }

  /** A task goes on to fetch when it gets the lock and its URL is nobody's, and is rejected otherwise. */
  lemma FetchesUnlessHeld(s: State, t: nat)
    requires Exclusive(s) && Enabled(s, Enter(t))
    ensures var url, s' := s.tasks[t].request.url, Apply(s, Enter(t));
            if exists u :: 0 <= u < |s.tasks| && Holds(s.tasks[u]) && s.tasks[u].request.url == url
            then s'.tasks[t].stage == Rejected && s'.inFlight == s.inFlight
            else s'.tasks[t].stage == Fetching && s'.inFlight == s.inFlight + {url}
  {
  }

  /** What the tasks report in a run: a failure each time one fails, the buffer each time one gets its block. */
  function ReportsIn(s: State, steps: seq<Step>): seq<Event>
    requires Runs(s, steps)
    decreases |steps|
  {
    if steps == [] then []
    else
      (match steps[0]
       case Report(t) => [Failed(t, s.tasks[t].request)]
       case Deliver(t, buffer) => [Fetched(t, s.tasks[t].request, buffer)]
       case _ => [])
      + ReportsIn(Apply(s, steps[0]), steps[1..])
  }

  /** Over any run those are the events the core is sent, in order. */
  lemma {:induction false} LogIsReports(s: State, steps: seq<Step>)
    requires Runs(s, steps)
    ensures Run(s, steps).log == s.log + ReportsIn(s, steps)
    decreases |steps|
  {
    if steps == [] {
      assert s.log + [] == s.log;
    } else {
      var s' := Apply(s, steps[0]);
      LogIsReports(s', steps[1..]);
      assert s'.log[..|s.log|] == s.log && s'.log == s.log + s'.log[|s.log|..];
    }
  }

  // ----- progress -----

  /**
   No deadlock: while some task is not done, some task can move or the core can take an event, although
   a failing task keeps the lock while it waits for room.
   */
  lemma NoDeadlock(capacity: nat, steps: seq<Step>)
    requires 0 < capacity && Runs(Initial(capacity), steps) && !Quiescent(Run(Initial(capacity), steps))
    ensures exists step: Step :: !step.Spawn? && Enabled(Run(Initial(capacity), steps), step)
  {
    RunInv(Initial(capacity), steps);
    var s := Run(Initial(capacity), steps);
    var t :| 0 <= t < |s.tasks| && s.tasks[t].stage != Finished && s.tasks[t].stage != Rejected;
    SomeMove(s, t);
  }

  lemma SomeMove(s: State, t: nat)
    requires Locked(s) && Bounded(s) && 0 < s.capacity
    requires t < |s.tasks| && s.tasks[t].stage != Finished && s.tasks[t].stage != Rejected
    ensures exists step: Step :: !step.Spawn? && Enabled(s, step)
  {
    if !Room(s) {
      assert Enabled(s, Receive);
    } else if s.lock.Some? {
      assert Enabled(s, Report(s.lock.value));
    } else if s.tasks[t].stage == Spawned {
      assert Enabled(s, Enter(t));
    } else if s.tasks[t].stage == Fetching {
      assert Enabled(s, Fail(t));
    } else {
      assert Enabled(s, Leave(t));
    }
  }

  // ----- every fetch ends -----

  function StepsLeft(stage: Stage): nat {
    match stage
    case Spawned => 4
    case Fetching => 3
    case Failing => 2
    case Delivered => 1
    case Finished => 0
    case Rejected => 0
  }

  function Work(tasks: seq<Task>): nat {
    if tasks == [] then 0 else StepsLeft(tasks[0].stage) + Work(tasks[1..])
  }

  lemma {:induction false} WorkUpdate(tasks: seq<Task>, t: nat, task: Task)
    requires t < |tasks|
    ensures Work(tasks[t := task]) == Work(tasks) - StepsLeft(tasks[t].stage) + StepsLeft(task.stage)
  {
    if t == 0 {
      assert tasks[t := task][1..] == tasks[1..];
    } else {
      assert tasks[t := task][1..] == tasks[1..][t - 1 := task];
      WorkUpdate(tasks[1..], t - 1, task);
    }
  }

  /** The steps left to the tasks, and the events left for the core. */
  function Left(s: State): int {
    Work(s.tasks) + |s.log| - s.received
  }

  /**
   Without new fetches a run has at most four steps per task, the core's included, so with NoDeadlock
   every fetch ends.
   */
  lemma {:induction false} RunsEnd(s: State, steps: seq<Step>)
    requires Bounded(s) && Runs(s, steps) && forall k :: 0 <= k < |steps| ==> !steps[k].Spawn?
    ensures |steps| + Left(Run(s, steps)) <= Left(s) && Bounded(Run(s, steps))
    decreases |steps|
  {
    if steps != [] {
      var s' := Apply(s, steps[0]);
      if !steps[0].Receive? {
        WorkUpdate(s.tasks, steps[0].task, s'.tasks[steps[0].task]);
      }
      RunsEnd(s', steps[1..]);
    }
  }
}

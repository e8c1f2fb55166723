/**
 Fetching and verifying together: the core takes the events of the fetch tasks out of their channel, and
 hands the buffers fetched to the verification pipeline. Peers' transactions arrive in between.
 */
module FetchPipeline {
  import F = BlockFetch
  import P = Pipeline
  import PipelineInvariants
  import PipelineProofs

  datatype State = State(fetches: F.State, pipeline: P.State)

  /** Blocks get into the pipeline only through the core's taking them from the fetch tasks. */
  datatype Step = FetchStep(fetch: F.Step) | PipelineStep(step: P.Step)

  function Initial(capacity: nat, threads: nat): State {
    State(F.Initial(capacity), P.Initial(threads))
  }

  /** What the router makes of an event of a fetch task. */
  function Requested(e: F.Event): seq<P.Request> {
    if e.Fetched? then [P.VerifyBlock(e.buffer, e.request.peer, e.request.hash, e.request.id)] else []
  }

  /** The requests that the events make, in order. */
  function RequestedBy(log: seq<F.Event>): seq<P.Request> {
    if log == [] then [] else RequestedBy(log[..|log| - 1]) + Requested(log[|log| - 1])
  }

  ghost predicate Enabled(c: P.Config, s: State, step: Step)
    requires P.Shaped(s.pipeline)
  {
    match step
    case FetchStep(f) => F.Enabled(s.fetches, f)
    case PipelineStep(p) => P.Enabled(c, s.pipeline, p) && !(p.Arrive? && p.request.VerifyBlock?)
  }

  ghost function Apply(c: P.Config, s: State, step: Step): (s': State)
    requires P.Shaped(s.pipeline) && Enabled(c, s, step)
    ensures P.Shaped(s'.pipeline)
  {
    match step
    case FetchStep(f) =>
      State(F.Apply(s.fetches, f),
            if f.Receive? && s.fetches.log[s.fetches.received].Fetched?
            then P.Apply(c, s.pipeline, P.Arrive(Requested(s.fetches.log[s.fetches.received])[0]))
            else s.pipeline)
    case PipelineStep(p) => s.(pipeline := P.Apply(c, s.pipeline, p))
  }

  ghost predicate Runs(c: P.Config, s: State, steps: seq<Step>)
    requires P.Shaped(s.pipeline)
    decreases |steps|
  {
    steps == [] || (Enabled(c, s, steps[0]) && Runs(c, Apply(c, s, steps[0]), steps[1..]))
  }

  ghost function Run(c: P.Config, s: State, steps: seq<Step>): State
    requires P.Shaped(s.pipeline) && Runs(c, s, steps)
    decreases |steps|
  {
    if steps == [] then s else Run(c, Apply(c, s, steps[0]), steps[1..])
  }

  // ----- every buffer the core takes is in the pipeline once -----

  /** Each block request is in the pipeline, done or not, as often as the core has taken such a buffer. */
  ghost predicate Matched(s: State)
    requires F.Bounded(s.fetches)
  {
    forall r: P.Request :: r.VerifyBlock? ==>
      PipelineProofs.Total(s.pipeline, r)
      == PipelineProofs.Times(RequestedBy(s.fetches.log[..s.fetches.received]), r)
  }

  ghost predicate Inv(c: P.Config, s: State) {
    F.Inv(s.fetches) && P.Shaped(s.pipeline) && PipelineInvariants.Inv(c, s.pipeline) && Matched(s)
  }

  lemma {:induction false} TimesConcat(a: seq<P.Request>, b: seq<P.Request>, r: P.Request)
    requires |b| <= 1
    ensures PipelineProofs.Times(a + b, r) == PipelineProofs.Times(a, r) + PipelineProofs.Times(b, r)
  {
    if b == [] {
      assert a + b == a;
    } else {
      PipelineProofs.TimesAppend(a, b[0], r);
      assert b == [b[0]] && b[1..] == [];
    }
  }

  /** The core takes an event: what it makes is added to the pipeline. */
  lemma ReceiveMatched(c: P.Config, s: State)
    requires Inv(c, s) && Enabled(c, s, FetchStep(F.Receive))
    requires F.Bounded(Apply(c, s, FetchStep(F.Receive)).fetches)
    ensures Matched(Apply(c, s, FetchStep(F.Receive)))
  {
    var log, n := s.fetches.log, s.fetches.received;
    var s' := Apply(c, s, FetchStep(F.Receive));
    assert log[..n + 1][..n] == log[..n];
    forall r: P.Request | r.VerifyBlock?
      ensures PipelineProofs.Total(s'.pipeline, r) == PipelineProofs.Times(RequestedBy(log[..n + 1]), r)
    {
      TimesConcat(RequestedBy(log[..n]), Requested(log[n]), r);
      if log[n].Fetched? {
        PipelineProofs.StepTotal(c, s.pipeline, P.Arrive(Requested(log[n])[0]), r);
      }
    }
  }

  lemma FetchMatched(c: P.Config, s: State, f: F.Step)
    requires Inv(c, s) && Enabled(c, s, FetchStep(f)) && !f.Receive? && F.Bounded(F.Apply(s.fetches, f))
    ensures Matched(Apply(c, s, FetchStep(f)))
  {
    var n := s.fetches.received;
    assert F.Apply(s.fetches, f).log[..n] == s.fetches.log[..n];
  }

  lemma PipelineMatched(c: P.Config, s: State, step: P.Step)
    requires Inv(c, s) && Enabled(c, s, PipelineStep(step))
    ensures Matched(Apply(c, s, PipelineStep(step)))
  {
    forall r: P.Request | r.VerifyBlock?
      ensures PipelineProofs.Total(P.Apply(c, s.pipeline, step), r) == PipelineProofs.Total(s.pipeline, r)
    {
      PipelineProofs.StepTotal(c, s.pipeline, step, r);
    }
  }

  lemma StepInv(c: P.Config, s: State, step: Step)
    requires Inv(c, s) && Enabled(c, s, step)
    ensures Inv(c, Apply(c, s, step))
  {
    match step {
      case FetchStep(f) =>
        F.StepInv(s.fetches, f);
        if f.Receive? {
          ReceiveMatched(c, s);
        } else {
          FetchMatched(c, s, f);
        }
        if f.Receive? && s.fetches.log[s.fetches.received].Fetched? {
          PipelineInvariants.StepInv(c, s.pipeline, P.Arrive(Requested(s.fetches.log[s.fetches.received])[0]));
        }
      case PipelineStep(p) =>
        PipelineMatched(c, s, p);
        PipelineInvariants.StepInv(c, s.pipeline, p);
    }
  }

  lemma {:induction false} RunInv(c: P.Config, s: State, steps: seq<Step>)
    requires Inv(c, s) && Runs(c, s, steps)
    ensures Inv(c, Run(c, s, steps))
    decreases |steps|
  {
    if steps != [] {
      StepInv(c, s, steps[0]);
      RunInv(c, Apply(c, s, steps[0]), steps[1..]);
    }
  }

  lemma StartsInv(c: P.Config, capacity: nat, threads: nat)
    requires 0 < threads
    ensures Inv(c, Initial(capacity, threads))
  {
    var s := P.Initial(threads);
    forall r ensures PipelineProofs.Total(s, r) == 0 {
      PipelineProofs.NothingYet(threads, r);
    }
  }

  // ----- how each fetch ends -----

  function AdmittedIn(tasks: seq<F.Task>): nat {
    if tasks == [] then 0
    else AdmittedIn(tasks[..|tasks| - 1]) + if F.Admitted(tasks[|tasks| - 1]) then 1 else 0
  }

  function FailedIn(log: seq<F.Event>): nat {
    if log == [] then 0 else FailedIn(log[..|log| - 1]) + if log[|log| - 1].Failed? then 1 else 0
  }

  /** The block requests done with, with what became of each. */
  function BlockRecords(log: seq<P.Record>): seq<P.Record> {
    if log == [] then []
    else
      var last := log[|log| - 1];
      BlockRecords(log[..|log| - 1]) + if last.request.VerifyBlock? then [last] else []
  }

  lemma {:induction false} RecordsOfLog(log: seq<P.Record>)
    ensures forall r :: r in BlockRecords(log) ==> r in log
  {
    if log != [] {
      RecordsOfLog(log[..|log| - 1]);
    }
  }

  /** Events of the first n tasks. */
  function EventsUpTo(log: seq<F.Event>, n: nat): nat {
    if n == 0 then 0 else EventsUpTo(log, n - 1) + |F.EventsOf(log, n - 1)|
  }

  lemma {:induction false} EventsUpToNext(log: seq<F.Event>, e: F.Event, n: nat)
    ensures EventsUpTo(log + [e], n) == EventsUpTo(log, n) + if e.task < n then 1 else 0
  {
    if n > 0 {
      EventsUpToNext(log, e, n - 1);
      F.EventsOfAppend(log, e, n - 1);
    }
  }

  lemma {:induction false} EventsUpToNone(n: nat)
    ensures EventsUpTo([], n) == 0
  {
    if n > 0 {
      EventsUpToNone(n - 1);
    }
  }

  /** All events are of some task. */
  lemma {:induction false} AllEvents(log: seq<F.Event>, n: nat)
    requires forall k :: 0 <= k < |log| ==> log[k].task < n
    ensures EventsUpTo(log, n) == |log|
  {
    if log == [] {
      EventsUpToNone(n);
    } else {
      var before, last := log[..|log| - 1], log[|log| - 1];
      assert log == before + [last];
      AllEvents(before, n);
      EventsUpToNext(before, last, n);
    }
  }

  lemma {:induction false} OneEventEach(tasks: seq<F.Task>, log: seq<F.Event>)
    requires forall t :: 0 <= t < |tasks| ==> |F.EventsOf(log, t)| == if F.Admitted(tasks[t]) then 1 else 0
    ensures EventsUpTo(log, |tasks|) == AdmittedIn(tasks)
  {
    if tasks != [] {
      OneEventEach(tasks[..|tasks| - 1], log);
    }
  }

  lemma {:induction false} FailedOrRequested(log: seq<F.Event>)
    ensures |log| == FailedIn(log) + |RequestedBy(log)|
    ensures forall r :: r in RequestedBy(log) ==> r.VerifyBlock?
  {
    if log != [] {
      FailedOrRequested(log[..|log| - 1]);
    }
  }

  lemma RequestTimes(log: seq<P.Record>, record: P.Record, r: P.Request)
    ensures PipelineProofs.Times(P.Requests(log + [record]), r)
            == PipelineProofs.Times(P.Requests(log), r) + if record.request == r then 1 else 0
  {
    P.Appended(log, record);
    PipelineProofs.TimesAppend(P.Requests(log), record.request, r);
  }

  lemma NextRecordTimes(before: seq<P.Record>, last: P.Record, r: P.Request)
    ensures PipelineProofs.Times(P.Requests(BlockRecords(before + [last])), r)
            == PipelineProofs.Times(P.Requests(BlockRecords(before)), r)
               + if last.request.VerifyBlock? && last.request == r then 1 else 0
  {
    assert (before + [last])[..|before|] == before;
    if last.request.VerifyBlock? {
      RequestTimes(BlockRecords(before), last, r);
    } else {
      assert BlockRecords(before) + [] == BlockRecords(before);
    }
  }

  lemma {:induction false} RecordTimes(log: seq<P.Record>, r: P.Request)
    requires r.VerifyBlock?
    ensures PipelineProofs.Times(P.Requests(BlockRecords(log)), r) == PipelineProofs.Times(P.Requests(log), r)
  {
    if log != [] {
      var before, last := log[..|log| - 1], log[|log| - 1];
      assert before + [last] == log;
      RecordTimes(before, r);
      RequestTimes(before, last, r);
      NextRecordTimes(before, last, r);
    }
  }

  lemma {:induction false} OnlyBlockRecords(log: seq<P.Record>, r: P.Request)
    requires !r.VerifyBlock?
    ensures PipelineProofs.Times(P.Requests(BlockRecords(log)), r) == 0
  {
    if log != [] {
      var before, last := log[..|log| - 1], log[|log| - 1];
      assert before + [last] == log;
      OnlyBlockRecords(before, r);
      NextRecordTimes(before, last, r);
    }
  }

  lemma {:induction false} TimesOfNone(rs: seq<P.Request>, r: P.Request)
    requires r !in rs
    ensures PipelineProofs.Times(rs, r) == 0
  {
    if rs != [] {
      TimesOfNone(rs[1..], r);
    }
  }

  lemma RecordedTimes(s: State, r: P.Request)
    requires F.Bounded(s.fetches) && Matched(s) && P.Drained(s.pipeline)
    requires s.fetches.received == |s.fetches.log|
    ensures PipelineProofs.Times(P.Requests(BlockRecords(s.pipeline.log)), r)
            == PipelineProofs.Times(RequestedBy(s.fetches.log), r)
  {
    assert s.fetches.log[..s.fetches.received] == s.fetches.log;
    if r.VerifyBlock? {
      RecordTimes(s.pipeline.log, r);
      PipelineProofs.OnlyDone(s.pipeline, r);
    } else {
      OnlyBlockRecords(s.pipeline.log, r);
      FailedOrRequested(s.fetches.log);
      TimesOfNone(RequestedBy(s.fetches.log), r);
    }
  }

  /** With nothing under way, the blocks done with are those fetched. */
  lemma AllRecorded(s: State)
    requires F.Bounded(s.fetches) && Matched(s) && P.Drained(s.pipeline)
    requires s.fetches.received == |s.fetches.log|
    ensures multiset(P.Requests(BlockRecords(s.pipeline.log))) == multiset(RequestedBy(s.fetches.log))
  {
    var done, fetched := P.Requests(BlockRecords(s.pipeline.log)), RequestedBy(s.fetches.log);
    forall r ensures PipelineProofs.Times(done, r) == PipelineProofs.Times(fetched, r) {
      RecordedTimes(s, r);
    }
    PipelineProofs.SameMultiset(done, fetched);
  }

  /**
   Once nothing is under way any more, each admitted fetch has sent one event, and they are as many as the
   failures reported and the blocks done with together; the blocks done with are exactly the buffers
   fetched, each as often as it was; and each of them was handed to consensus exactly if it is the block
   its fetch asked for, and otherwise marked against the peer it came from.
   */
  lemma FetchesEndOnce(c: P.Config, capacity: nat, threads: nat, steps: seq<Step>)
    requires 0 < threads && Runs(c, Initial(capacity, threads), steps)
    requires var s := Run(c, Initial(capacity, threads), steps);
             F.Quiescent(s.fetches) && s.fetches.received == |s.fetches.log| && P.Drained(s.pipeline)
    ensures var s := Run(c, Initial(capacity, threads), steps);
            var ends := BlockRecords(s.pipeline.log);
            && (forall t :: 0 <= t < |s.fetches.tasks| ==>
                  |F.EventsOf(s.fetches.log, t)| == if F.Admitted(s.fetches.tasks[t]) then 1 else 0)
            && AdmittedIn(s.fetches.tasks) == FailedIn(s.fetches.log) + |ends|
            && multiset(P.Requests(ends)) == multiset(RequestedBy(s.fetches.log))
            && (forall r :: r in ends ==> PipelineInvariants.Sound(c.decode, r))
  {
    StartsInv(c, capacity, threads);
    RunInv(c, Initial(capacity, threads), steps);
    var s := Run(c, Initial(capacity, threads), steps);
    AllEvents(s.fetches.log, |s.fetches.tasks|);
    OneEventEach(s.fetches.tasks, s.fetches.log);
    FailedOrRequested(s.fetches.log);
    AllRecorded(s);
    RecordsOfLog(s.pipeline.log);
    assert |multiset(P.Requests(BlockRecords(s.pipeline.log)))| == |multiset(RequestedBy(s.fetches.log))|;
  }
}

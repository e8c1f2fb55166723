/**
 What the safety margin of the channel to consensus is for. A verification thread sends while it holds
 the blockchain and peers locks, which consensus needs; so a send must never wait. With at most 16
 verification threads, and the miner, none ever does. As long as none does under these locks, and
 consensus's own gate is open, all work can be finished.
 */
module PipelineProgress {
  import opened Pipeline
  import opened PipelineInvariants
  import Dispatch

  // ----- who may still send -----

  /** The threads past their gate. */
  function Committed(threads: seq<Stage>): (n: nat)
    ensures n <= |threads|
  {
    if threads == [] then 0 else (if threads[0].Idle? then 0 else 1) + Committed(threads[1..])
  }

  function Reserved(s: State): nat {
    Committed(s.threads) + if s.miner.ready || s.miner.active then 1 else 0
  }

  /** There is room in the channel for everyone who may still send. */
  predicate Slack(c: Config, s: State) {
    |s.channel| + Reserved(s) <= c.channelCapacity
  }

  lemma {:induction false} CommittedUpdate(threads: seq<Stage>, i: nat, stage: Stage)
    requires i < |threads|
    ensures Committed(threads[i := stage]) + (if threads[i].Idle? then 0 else 1)
         == Committed(threads) + (if stage.Idle? then 0 else 1)
  {
    if i == 0 {
      assert threads[i := stage][1..] == threads[1..];
    } else {
      assert threads[i := stage][1..] == threads[1..][i - 1 := stage];
      CommittedUpdate(threads[1..], i - 1, stage);
    }
  }

  /** A thread that reserves no more than it did, what it has sent counted. */
  lemma ThreadSlack(c: Config, s: State, s': State, i: nat)
    requires Slack(c, s) && i < |s.threads| && s'.miner == s.miner && |s'.threads| == |s.threads|
    requires s'.threads == s.threads[i := s'.threads[i]]
    requires |s'.channel| + (if s'.threads[i].Idle? then 0 else 1)
             <= |s.channel| + (if s.threads[i].Idle? then 0 else 1)
    ensures Slack(c, s')
  {
    CommittedUpdate(s.threads, i, s'.threads[i]);
  }

  /** Passing the gate leaves room for all, as there are no more than 17 senders in all. */
  lemma GateSlack(c: Config, s: State)
    requires GateOpen(c, s) && |s.threads| <= Dispatch.CHANNEL_SAFE_BUFFER
    ensures Slack(c, s)
  {
  }

  lemma StepSlack(c: Config, s: State, step: Step)
    requires Shaped(s) && AllStaged(c, s) && Slack(c, s) && Enabled(c, s, step)
    requires |s.threads| <= Dispatch.CHANNEL_SAFE_BUFFER
    ensures Slack(c, Apply(c, s, step))
  {
    var s' := Apply(c, s, step);
    match step {
      case Check(i) => GateSlack(c, s');
      case Tick(i) => ThreadSlack(c, s, s', i);
      case Take(i) => ThreadSlack(c, s, s', i);
      case Decode(i) => ThreadSlack(c, s, s', i);
      case LockChain(i) => ThreadSlack(c, s, s', i);
      case LockPeers(i) => ThreadSlack(c, s, s', i);
      case Decide(i, _) => ThreadSlack(c, s, s', i);
      case MarkPeer(i) =>
        assert Staged(c.decode, s.threads[i]);
        ThreadSlack(c, s, s', i);
      case Send(i) => ThreadSlack(c, s, s', i);
      case _ => assert s'.threads == s.threads;
    }
  }

  lemma {:induction false} NobodyCommitted(threads: seq<Stage>)
    requires forall i :: 0 <= i < |threads| ==> threads[i].Idle?
    ensures Committed(threads) == 0
  {
    if threads != [] {
      NobodyCommitted(threads[1..]);
    }
  }

  lemma StepBoth(c: Config, s: State, step: Step)
    requires Shaped(s) && Inv(c, s) && Slack(c, s) && Enabled(c, s, step)
    requires |s.threads| <= Dispatch.CHANNEL_SAFE_BUFFER
    ensures Inv(c, Apply(c, s, step)) && Slack(c, Apply(c, s, step))
  {
    StepInv(c, s, step);
    StepSlack(c, s, step);
  }

  lemma StartsWell(c: Config, threads: nat)
    requires 0 < threads
    ensures Shaped(Initial(threads)) && Inv(c, Initial(threads)) && Slack(c, Initial(threads))
  {
    NobodyCommitted(Initial(threads).threads);
  }

  lemma {:induction false} RunSlack(c: Config, s: State, steps: seq<Step>)
    requires Shaped(s) && Inv(c, s) && Slack(c, s) && Runs(c, s, steps)
    requires |s.threads| <= Dispatch.CHANNEL_SAFE_BUFFER
    ensures Slack(c, Run(c, s, steps)) && Inv(c, Run(c, s, steps))
    decreases |steps|
  {
    if steps != [] {
      StepBoth(c, s, steps[0]);
      RunSlack(c, Apply(c, s, steps[0]), steps[1..]);
    }
  }

  lemma {:induction false} CommittedThread(threads: seq<Stage>, i: nat)
    requires i < |threads| && !threads[i].Idle?
    ensures Committed(threads) >= 1
  {
    if i > 0 {
      CommittedThread(threads[1..], i - 1);
    }
  }

  /** With at most 16 verification threads no send ever waits: not a thread's, not the miner's. */
  lemma SendsNeverWait(c: Config, threads: nat, steps: seq<Step>)
    requires 0 < threads <= Dispatch.CHANNEL_SAFE_BUFFER && Runs(c, Initial(threads), steps)
    ensures var s := Run(c, Initial(threads), steps);
            && (forall i :: 0 <= i < |s.threads| && s.threads[i].Sending? ==> Room(c, s))
            && (s.miner.active ==> Room(c, s))
  {
    var s := Run(c, Initial(threads), steps);
    StartsWell(c, threads);
    RunSlack(c, Initial(threads), steps);
    forall i | 0 <= i < |s.threads| && s.threads[i].Sending? ensures Room(c, s) {
      CommittedThread(s.threads, i);
    }
  }

  // ----- all work can be finished -----

  function StageWork(stage: Stage): nat {
    match stage
    case Idle => 1
    case Ready => 0
    case Working(_) => 9
    case Reading(_) => 8
    case Locked(_) => 7
    case Sending(_, _) => 6
    case Marking(_) => 2
  }

  function ThreadWork(threads: seq<Stage>): nat {
    if threads == [] then 0 else StageWork(threads[0]) + ThreadWork(threads[1..])
  }

  function Queued(queues: seq<seq<Request>>): nat {
    if queues == [] then 0 else |queues[0]| + Queued(queues[1..])
  }

  function ConsensusWork(consensus: ConsensusStage): nat {
    match consensus
    case Resting => 1
    case Attentive => 0
    case Handling(_) => 3
    case Bundling => 3
    case Writing => 2
    case Telling(miner) => if miner then 4 else 3
  }

  /** How much is left to do. */
  function Work(s: State): nat {
    14 * |s.inbox| + (if s.routerReady then 0 else 1) + 12 * Queued(s.router.queues) + ThreadWork(s.threads)
    + 4 * |s.channel| + ConsensusWork(s.consensus)
  }

  lemma {:induction false} ThreadWorkUpdate(threads: seq<Stage>, i: nat, stage: Stage)
    requires i < |threads|
    ensures ThreadWork(threads[i := stage]) + StageWork(threads[i]) == ThreadWork(threads) + StageWork(stage)
  {
    if i == 0 {
      assert threads[i := stage][1..] == threads[1..];
    } else {
      assert threads[i := stage][1..] == threads[1..][i - 1 := stage];
      ThreadWorkUpdate(threads[1..], i - 1, stage);
    }
  }

  lemma {:induction false} QueuedUpdate(queues: seq<seq<Request>>, i: nat, queue: seq<Request>)
    requires i < |queues|
    ensures Queued(queues[i := queue]) + |queues[i]| == Queued(queues) + |queue|
  {
    if i == 0 {
      assert queues[i := queue][1..] == queues[1..];
    } else {
      assert queues[i := queue][1..] == queues[1..][i - 1 := queue];
      QueuedUpdate(queues[1..], i - 1, queue);
    }
  }

  /** What consensus still has to send to the miner. */
  function OwedToMiner(s: State): nat {
    if s.consensus == Telling(true) then 1 else 0
  }

  function OwedToRouter(s: State): nat {
    if s.consensus.Telling? then 1 else 0
  }

  /** Consensus's gate is open, and stays so when it has sent what it owes. */
  predicate Listens(c: Config, s: State) {
    && s.miner.inbox + OwedToMiner(s) + Dispatch.CHANNEL_SAFE_BUFFER < c.channelCapacity
    && s.updates + OwedToRouter(s) + Dispatch.CHANNEL_SAFE_BUFFER < c.channelCapacity
  }

  /** A thread that sends while it holds the blockchain and peers locks. */
  predicate SenderLocks(s: State) {
    exists i :: 0 <= i < |s.threads| && s.threads[i].Sending? && s.threads[i].request.VerifyTransaction?
  }

  /** Consensus waits for one of these locks. */
  predicate AwaitsLock(consensus: ConsensusStage) {
    || Waits(consensus)
    || (consensus.Handling? && consensus.event.NewTransaction? && consensus.event.transaction.routedFrom.Some?)
  }

  /** A full channel, and consensus waiting for a lock whose holder waits for room in it. */
  predicate Stuck(c: Config, s: State) {
    |s.channel| >= c.channelCapacity && AwaitsLock(s.consensus) && SenderLocks(s)
  }

  /** A reader that gets the blockchain lock ahead of consensus, which is waiting for it. */
  predicate Overtakes(s: State, step: Step) {
    step.LockChain? && Waits(s.consensus)
  }

  /** A step that brings the work forward, that a fair lock admits and that closes no gate of consensus. */
  ghost predicate Useful(c: Config, s: State, step: Step)
    requires Shaped(s)
  {
    && !step.Arrive? && Enabled(c, s, step) && !Overtakes(s, step)
    && Work(Apply(c, s, step)) < Work(s) && (Listens(c, s) ==> Listens(c, Apply(c, s, step)))
  }

  lemma ThreadWorkLess(s: State, s': State, i: nat)
    requires i < |s.threads| == |s'.threads| && s'.threads == s.threads[i := s'.threads[i]]
    requires s'.inbox == s.inbox && s'.routerReady == s.routerReady
    requires s'.router == s.router && s'.consensus == s.consensus
    requires 4 * |s'.channel| + StageWork(s'.threads[i]) < 4 * |s.channel| + StageWork(s.threads[i])
    ensures Work(s') < Work(s)
  {
    ThreadWorkUpdate(s.threads, i, s'.threads[i]);
  }

  lemma ThreadStepUseful(c: Config, s: State, step: Step)
    requires Shaped(s) && AllStaged(c, s) && Enabled(c, s, step) && !Overtakes(s, step)
    requires step.Check? || step.Decode? || step.LockChain? || step.LockPeers? || step.Decide?
             || step.MarkPeer? || step.Send?
    ensures Useful(c, s, step)
  {
    if step.MarkPeer? {
      assert Staged(c.decode, s.threads[step.thread]);
    }
    ThreadWorkLess(s, Apply(c, s, step), step.thread);
  }

  lemma TakeUseful(c: Config, s: State, i: nat)
    requires Shaped(s) && Enabled(c, s, Take(i))
    ensures Useful(c, s, Take(i))
  {
    var queue := s.router.queues[i];
    QueuedUpdate(s.router.queues, i, queue[1..]);
    ThreadWorkUpdate(s.threads, i, Working(queue[0]));
  }

  lemma RouteUseful(c: Config, s: State)
    requires Shaped(s) && Enabled(c, s, Route)
    ensures Useful(c, s, Route)
  {
    var queues := s.router.queues;
    var i := Apply(c, s, Route).router.last % |queues|;
    assert Apply(c, s, Route).router.queues == queues[i := queues[i] + [s.inbox[0]]];
    QueuedUpdate(queues, i, queues[i] + [s.inbox[0]]);
  }

  lemma ConsensusStepUseful(c: Config, s: State, step: Step)
    requires Shaped(s) && Enabled(c, s, step)
    requires step.ConsensusCheck? || step.Consume? || step.Settle? || step.Write? || step.Finish?
             || (step.RouterCheck? && !s.routerReady)
    ensures Useful(c, s, step)
  {
  }

  lemma TellUseful(c: Config, s: State, step: Step)
    requires Shaped(s) && Enabled(c, s, step) && (step.TellMiner? || step.TellRouter?)
    ensures Useful(c, s, step)
  {
  }

  lemma StepNoSender(c: Config, s: State, step: Step)
    requires Shaped(s) && !SenderLocks(s) && Enabled(c, s, step) && !(step.Decide? && step.accepted)
    ensures !SenderLocks(Apply(c, s, step))
  {
    var s' := Apply(c, s, step);
    forall i | 0 <= i < |s'.threads| && s'.threads[i].Sending? ensures s'.threads[i].request.VerifyBlock? {
      assert s'.threads[i] == s.threads[i] || step == Decode(i) || step == Decide(i, false);
    }
  }

  /** Once the sender with the locks has sent, there is none. */
  lemma SentNoSender(c: Config, s: State, i: nat)
    requires Shaped(s) && Inv(c, s) && Enabled(c, s, Send(i)) && HoldsPeers(s.threads[i])
    ensures !SenderLocks(Apply(c, s, Send(i)))
  {
    var s' := Apply(c, s, Send(i));
    forall j | 0 <= j < |s'.threads| && s'.threads[j].Sending? ensures s'.threads[j].request.VerifyBlock? {
      assert j != i && s'.threads[j] == s.threads[j];
    }
  }

  /** A full channel, and consensus with nothing that needs a lock: it goes on. */
  lemma ConsensusTakesOn(c: Config, s: State) returns (step: Step)
    requires Shaped(s) && Bounded(c, s) && !Room(c, s) && Listens(c, s) && Sized(c)
    requires !AwaitsLock(s.consensus) && !Writes(s.consensus)
    ensures Useful(c, s, step) && !Stuck(c, Apply(c, s, step))
  {
    step := if s.consensus.Resting? then ConsensusCheck else if s.consensus.Attentive? then Consume else Settle;
    ConsensusStepUseful(c, s, step);
  }

  /** Somebody sends under the locks: it does, or consensus makes room. */
  lemma SenderMoves(c: Config, s: State) returns (step: Step)
    requires Shaped(s) && Inv(c, s) && SenderLocks(s) && !Stuck(c, s) && Listens(c, s) && Sized(c)
    ensures Useful(c, s, step) && !Stuck(c, Apply(c, s, step))
  {
    var i: nat :| i < |s.threads| && s.threads[i].Sending? && s.threads[i].request.VerifyTransaction?;
    if Room(c, s) {
      step := Send(i);
      ThreadStepUseful(c, s, step);
      SentNoSender(c, s, i);
    } else {
      assert HoldsChain(s.threads[i]);
      step := ConsensusTakesOn(c, s);
    }
  }

  /** Nobody does, but somebody holds a lock: the one furthest on can move. */
  lemma HolderMoves(c: Config, s: State, i: nat) returns (step: Step)
    requires Shaped(s) && Inv(c, s) && !SenderLocks(s) && i < |s.threads| && HoldsChain(s.threads[i])
    ensures Useful(c, s, step) && !SenderLocks(Apply(c, s, step))
  {
    if j: nat :| j < |s.threads| && s.threads[j].Locked? {
      step := Decide(j, false);
    } else {
      step := LockPeers(i);
    }
    ThreadStepUseful(c, s, step);
    StepNoSender(c, s, step);
  }

  /** Nobody holds a lock, but consensus or a bad block waits for one. */
  lemma WaiterMoves(c: Config, s: State) returns (step: Step)
    requires Shaped(s) && Inv(c, s) && !AtRest(s.consensus) && Listens(c, s) && ChainUnread(s)
    ensures Useful(c, s, step) && !step.Decide?
  {
    if s.consensus.Telling? {
      step := if s.consensus.miner then TellMiner else TellRouter;
      TellUseful(c, s, step);
    } else {
      step := if s.consensus.Writing? then Finish else if Waits(s.consensus) then Write else Settle;
      ConsensusStepUseful(c, s, step);
    }
  }

  /** Nobody holds a lock, the channel is empty and consensus rests: what is left upstream can move. */
  lemma UpstreamMoves(c: Config, s: State) returns (step: Step)
    requires Shaped(s) && Inv(c, s) && !Drained(s) && AtRest(s.consensus) && s.channel == [] && Listens(c, s)
    requires Sized(c) && ChainUnread(s)
    ensures Useful(c, s, step) && !step.Decide?
  {
    if i: nat :| i < |s.threads| && Hand(s.threads[i]) != [] {
      step := if s.threads[i].Marking? then MarkPeer(i)
              else if s.threads[i].Sending? then Send(i)
              else if s.threads[i].request.VerifyBlock? then Decode(i) else LockChain(i);
      ThreadStepUseful(c, s, step);
    } else if i: nat :| i < |s.router.queues| && s.router.queues[i] != [] {
      if s.threads[i].Ready? {
        step := Take(i);
        TakeUseful(c, s, i);
      } else {
        step := Check(i);
        ThreadStepUseful(c, s, step);
      }
    } else if s.routerReady {
      step := Route;
      assert Dispatch.HasRoom(s.router.queues[0], c.queueCapacity);
      RouteUseful(c, s);
    } else {
      step := RouterCheck;
      ConsensusStepUseful(c, s, step);
    }
  }

  lemma UnlockedMoves(c: Config, s: State) returns (step: Step)
    requires Shaped(s) && Inv(c, s) && Listens(c, s) && !Drained(s) && Sized(c) && ChainUnread(s)
    ensures Useful(c, s, step) && !step.Decide?
  {
    if !AtRest(s.consensus) {
      step := WaiterMoves(c, s);
    } else if s.channel != [] {
      step := if s.consensus.Attentive? then Consume else ConsensusCheck;
      ConsensusStepUseful(c, s, step);
    } else {
      step := UpstreamMoves(c, s);
    }
  }

  /** Unless stuck, and as long as consensus's gate is open, until all is done a step is useful and keeps that so. */
  lemma NeverStuck(c: Config, s: State) returns (step: Step)
    requires Shaped(s) && Inv(c, s) && !Stuck(c, s) && Listens(c, s) && !Drained(s) && Sized(c)
    ensures Useful(c, s, step) && !Stuck(c, Apply(c, s, step))
  {
    if SenderLocks(s) {
      step := SenderMoves(c, s);
    } else if i: nat :| i < |s.threads| && HoldsChain(s.threads[i]) {
      step := HolderMoves(c, s, i);
    } else {
      step := UnlockedMoves(c, s);
      StepNoSender(c, s, step);
    }
  }

  lemma AfterUseful(c: Config, s: State, step: Step) returns (s': State)
    requires Shaped(s) && Inv(c, s) && Listens(c, s) && Useful(c, s, step)
    ensures !step.Arrive? && Enabled(c, s, step) && !Overtakes(s, step) && s' == Apply(c, s, step)
    ensures Shaped(s') && Inv(c, s') && Listens(c, s') && |s'.threads| == |s.threads| && Work(s') < Work(s)
  {
    s' := Apply(c, s, step);
    StepInv(c, s, step);
    assert Work(s') < Work(s);
  }

  /** A run in which no reader gets the blockchain lock ahead of a waiting writer. */
  ghost predicate Fair(c: Config, s: State, steps: seq<Step>)
    requires Shaped(s) && Runs(c, s, steps)
    decreases |steps|
  {
    steps == [] || (!Overtakes(s, steps[0]) && Fair(c, Apply(c, s, steps[0]), steps[1..]))
  }

  lemma RunFirst(c: Config, s: State, step: Step, rest: seq<Step>)
    requires Shaped(s) && Enabled(c, s, step) && Runs(c, Apply(c, s, step), rest)
    ensures Runs(c, s, [step] + rest) && Run(c, s, [step] + rest) == Run(c, Apply(c, s, step), rest)
    ensures !step.Arrive? ==> Arrivals([step] + rest) == Arrivals(rest)
    ensures !Overtakes(s, step) && Fair(c, Apply(c, s, step), rest) ==> Fair(c, s, [step] + rest)
  {
    assert ([step] + rest)[1..] == rest;
  }

  /** So from every such state, without any new arrival, all work can be finished. */
  lemma {:induction false} CanDrain(c: Config, s: State) returns (steps: seq<Step>)
    requires Shaped(s) && Inv(c, s) && !Stuck(c, s) && Listens(c, s) && Sized(c)
    ensures Runs(c, s, steps) && Fair(c, s, steps) && Drained(Run(c, s, steps)) && Arrivals(steps) == []
    decreases Work(s)
  {
    if Drained(s) {
      steps := [];
    } else {
      var step := NeverStuck(c, s);
      var s' := AfterUseful(c, s, step);
      var rest := CanDrain(c, s');
      steps := [step] + rest;
      RunFirst(c, s, step, rest);
    }
  }

  lemma SlackNotStuck(c: Config, s: State)
    requires Slack(c, s)
    ensures !Stuck(c, s)
  {
    if i: nat :| i < |s.threads| && s.threads[i].Sending? {
      CommittedThread(s.threads, i);
    }
  }

  /**
   With at most 16 verification threads, whatever has happened, all work can still be finished if
   consensus's gate is open.
   */
  lemma AlwaysCanDrain(c: Config, threads: nat, before: seq<Step>) returns (steps: seq<Step>)
    requires 0 < threads <= Dispatch.CHANNEL_SAFE_BUFFER && Runs(c, Initial(threads), before)
    requires Sized(c) && Listens(c, Run(c, Initial(threads), before))
    ensures var s := Run(c, Initial(threads), before);
            Runs(c, s, steps) && Fair(c, s, steps) && Drained(Run(c, s, steps)) && Arrivals(steps) == []
  {
    StartsWell(c, threads);
    RunSlack(c, Initial(threads), before);
    SlackNotStuck(c, Run(c, Initial(threads), before));
    steps := CanDrain(c, Run(c, Initial(threads), before));
  }
}

/**
 From which reachable states all work can still be finished: from all but those that are stuck, jammed or
 blocked, whatever the number of verification threads.
 */
module PipelineFinish {
  import opened Pipeline
  import opened PipelineInvariants
  import opened PipelineProgress
  import opened PipelineRuns
  import opened PipelineJam
  import opened PipelineBlock
  import PipelineStop
  import Dispatch

  /** Without new arrivals, and with no reader ahead of a waiting writer, some run finishes all work. */
  ghost predicate CanFinish(c: Config, s: State)
    requires Shaped(s)
  {
    exists steps :: Runs(c, s, steps) && Fair(c, s, steps) && Drained(Run(c, s, steps)) && Arrivals(steps) == []
  }

  /** What holds in every reachable state. */
  ghost predicate Sound(c: Config, s: State) {
    Shaped(s) && Inv(c, s) && Spare(c, s) && Sized(c)
  }

  // ----- one step at a time -----

  lemma StepBack(c: Config, s: State, step: Step)
    requires Shaped(s) && Enabled(c, s, step) && !step.Arrive? && !Overtakes(s, step)
    requires CanFinish(c, Apply(c, s, step))
    ensures CanFinish(c, s)
  {
    var s' := Apply(c, s, step);
    var rest :| Runs(c, s', rest) && Fair(c, s', rest) && Drained(Run(c, s', rest)) && Arrivals(rest) == [];
    RunFirst(c, s, step, rest);
    assert Runs(c, s, [step] + rest);
  }

  /** A step after which it is enough to finish. */
  lemma Advance(c: Config, s: State, step: Step) returns (s': State)
    requires Sound(c, s) && Enabled(c, s, step) && !step.Arrive? && !Overtakes(s, step)
    ensures s' == Apply(c, s, step) && Sound(c, s') && (CanFinish(c, s') ==> CanFinish(c, s))
  {
    s' := Apply(c, s, step);
    StepInv(c, s, step);
    StepSpare(c, s, step);
    if CanFinish(c, s') {
      StepBack(c, s, step);
    }
  }

  lemma Listening(c: Config, s: State)
    requires Sound(c, s) && Listens(c, s) && !Stuck(c, s)
    ensures CanFinish(c, s)
  {
    var steps := CanDrain(c, s);
  }

  // ----- the miner and the router catch up -----

  /** With its gate open the router does. */
  lemma {:induction false} RouterCatchesUp(c: Config, s: State)
    requires Sound(c, s) && RouterGate(c, s) && s.miner.inbox == 0
    ensures CanFinish(c, s)
    decreases s.updates
  {
    if s.updates == 0 {
      Listening(c, s);
    } else {
      var s' := Advance(c, s, RouterCheck);
      s' := Advance(c, s', TakeUpdate);
      RouterCatchesUp(c, s');
    }
  }

  /** The router is not behind, or can catch up as far as the verification queues go. */
  predicate RouterKeepsUp(c: Config, s: State, news: int) {
    !Closes(c, news) || Dispatch.Ready(s.router.queues, c.queueCapacity)
  }

  /** With its gate open the miner does. */
  lemma {:induction false} MinerCatchesUp(c: Config, s: State)
    requires Sound(c, s) && GateOpen(c, s) && RouterKeepsUp(c, s, s.updates + OwedToRouter(s))
    ensures CanFinish(c, s)
    decreases s.miner.inbox
  {
    if s.miner.inbox == 0 && Closes(c, s.updates + OwedToRouter(s)) {
      RouterCatchesUp(c, s);
    } else if s.miner.inbox == 0 {
      Listening(c, s);
    } else {
      var s' := Advance(c, s, MinerCheck);
      s' := Advance(c, s', MinerTake);
      MinerCatchesUp(c, s');
    }
  }

  lemma MinerHasRoom(c: Config, s: State)
    requires Sound(c, s) && !Stuck(c, s)
    requires !Closes(c, NewsForMiner(s)) && !Closes(c, s.updates + OwedToRouter(s))
    ensures CanFinish(c, s)
  {
    var s' := s;
    if s.miner.ready && s.miner.inbox > 0 {
      s' := Advance(c, s, MinerTake);
    }
    Listening(c, s');
  }

  /** Consensus takes the event it is waiting for if that is what it takes to open the gate. */
  lemma GateOpens(c: Config, s: State) returns (s': State)
    requires Sound(c, s) && !Closes(c, LeftInChannel(s))
    ensures Sound(c, s') && (CanFinish(c, s') ==> CanFinish(c, s)) && GateOpen(c, s')
    ensures !Closes(c, LeftInChannel(s'))
    ensures s'.router == s.router && s'.threads == s.threads
    ensures s'.updates + OwedToRouter(s') == s.updates + OwedToRouter(s)
  {
    s' := s;
    if !GateOpen(c, s) {
      s' := Advance(c, s, Consume);
    }
  }

  lemma ChannelHasRoom(c: Config, s: State)
    requires Sound(c, s) && !Closes(c, LeftInChannel(s)) && RouterKeepsUp(c, s, s.updates + OwedToRouter(s))
    ensures CanFinish(c, s)
  {
    var s' := GateOpens(c, s);
    MinerCatchesUp(c, s');
  }

  lemma RouterHasRoom(c: Config, s: State)
    requires Sound(c, s) && !Closes(c, NewsForRouter(s)) && !Jammed(c, s) && !Stuck(c, s)
    ensures CanFinish(c, s)
  {
    var s' := s;
    if s.routerReady && s.updates > 0 {
      s' := Advance(c, s, TakeUpdate);
    }
    if Closes(c, NewsForMiner(s')) {
      ChannelHasRoom(c, s');
    } else {
      MinerHasRoom(c, s');
    }
  }

  // ----- the thread of the full queue gets to its next request -----

  /** It takes it, and with that the router's gate is no longer closed by a queue. */
  lemma ReadyThread(c: Config, s: State, i: nat)
    requires Sound(c, s) && i < |s.threads| && Full(c, s.router.queues[i]) && !Closes(c, LeftInChannel(s))
    requires s.threads[i].Ready?
    ensures CanFinish(c, s)
  {
    var s' := Advance(c, s, Take(i));
    assert forall j :: 0 <= j < |s.threads| && j != i ==> s'.router.queues[j] == s.router.queues[j];
    assert Dispatch.Ready(s'.router.queues, c.queueCapacity);
    ChannelHasRoom(c, s');
  }

  lemma IdleThread(c: Config, s: State, i: nat)
    requires Sound(c, s) && i < |s.threads| && Full(c, s.router.queues[i]) && !Closes(c, LeftInChannel(s))
    requires s.threads[i].Idle?
    ensures CanFinish(c, s)
  {
    var s' := GateOpens(c, s);
    s' := Advance(c, s', Check(i));
    ReadyThread(c, s', i);
  }

  lemma SendingThread(c: Config, s: State, i: nat)
    requires Sound(c, s) && i < |s.threads| && Full(c, s.router.queues[i]) && !Closes(c, LeftInChannel(s) + 1)
    requires s.threads[i].Sending?
    ensures CanFinish(c, s)
  {
    var s' := Advance(c, s, Send(i));
    IdleThread(c, s', i);
  }

  lemma LockedThread(c: Config, s: State, i: nat)
    requires Sound(c, s) && i < |s.threads| && Full(c, s.router.queues[i]) && !Closes(c, LeftInChannel(s))
    requires s.threads[i].Locked?
    ensures CanFinish(c, s)
  {
    assert Staged(c.decode, s.threads[i]);
    var s' := Advance(c, s, Decide(i, false));
    IdleThread(c, s', i);
  }

  /** There is room for what has to be sent before the peers lock is free. */
  predicate RoomForHolder(c: Config, s: State) {
    !Closes(c, LeftInChannel(s)) && (SenderLocks(s) ==> !Closes(c, LeftInChannel(s) + 1))
  }

  /** Of the threads none but the holders of locks changes, of the rest only what is sent; that leaves room. */
  ghost predicate Freed(c: Config, s: State, s': State)
    requires Shaped(s)
  {
    && Sound(c, s') && (CanFinish(c, s') ==> CanFinish(c, s)) && PeersFree(s') && !Closes(c, LeftInChannel(s'))
    && s'.router == s.router && s'.updates == s.updates && s'.miner == s.miner && s'.consensus == s.consensus
    && |s'.threads| == |s.threads|
    && forall i :: 0 <= i < |s.threads| && !HoldsChain(s.threads[i]) ==> s'.threads[i] == s.threads[i]
  }

  lemma HolderDone(c: Config, s: State, j: nat) returns (s': State)
    requires Sound(c, s) && RoomForHolder(c, s) && j < |s.threads| && HoldsPeers(s.threads[j])
    ensures Freed(c, s, s')
    ensures forall i :: 0 <= i < |s.threads| && s.threads[i].Reading? ==> s'.threads[i] == s.threads[i]
  {
    forall i | 0 <= i < |s.threads| && i != j ensures !HoldsPeers(s.threads[i]) {
    }
    assert Staged(c.decode, s.threads[j]);
    if s.threads[j].Locked? {
      s' := Advance(c, s, Decide(j, false));
    } else {
      s' := Advance(c, s, Send(j));
    }
    assert s'.threads == s.threads[j := Idle];
  }

  /** Whoever has the peers lock gives it up. */
  lemma FreePeers(c: Config, s: State) returns (s': State)
    requires Sound(c, s) && RoomForHolder(c, s)
    ensures Freed(c, s, s')
    ensures forall i :: 0 <= i < |s.threads| && s.threads[i].Reading? ==> s'.threads[i] == s.threads[i]
  {
    if j: nat :| j < |s.threads| && HoldsPeers(s.threads[j]) {
      s' := HolderDone(c, s, j);
    } else {
      s' := s;
    }
  }

  /** A reader of the chain gives its lock up. */
  lemma ReaderDone(c: Config, s: State, k: nat) returns (s': State)
    requires Sound(c, s) && PeersFree(s) && !Closes(c, LeftInChannel(s)) && k < |s.threads| && s.threads[k].Reading?
    ensures Freed(c, s, s') && s'.threads == s.threads[k := Idle]
  {
    assert Staged(c.decode, s.threads[k]);
    s' := Advance(c, s, LockPeers(k));
    s' := Advance(c, s', Decide(k, false));
    assert s'.threads == s.threads[k := Idle];
  }

  /** All do. */
  lemma {:induction false} FreeChain(c: Config, s: State) returns (s': State)
    requires Sound(c, s) && PeersFree(s) && !Closes(c, LeftInChannel(s))
    ensures Freed(c, s, s') && ChainUnread(s')
    decreases ThreadWork(s.threads)
  {
    if k: nat :| k < |s.threads| && HoldsChain(s.threads[k]) {
      var s1 := ReaderDone(c, s, k);
      ThreadWorkUpdate(s.threads, k, Idle);
      s' := FreeChain(c, s1);
    } else {
      s' := s;
    }
  }

  lemma ReadingThread(c: Config, s: State, i: nat)
    requires Sound(c, s) && i < |s.threads| && Full(c, s.router.queues[i]) && RoomForHolder(c, s)
    requires s.threads[i].Reading?
    ensures CanFinish(c, s)
  {
    var s' := FreePeers(c, s);
    s' := Advance(c, s', LockPeers(i));
    LockedThread(c, s', i);
  }

  lemma MarkingThread(c: Config, s: State, i: nat)
    requires Sound(c, s) && i < |s.threads| && Full(c, s.router.queues[i]) && RoomForHolder(c, s)
    requires s.threads[i].Marking?
    ensures CanFinish(c, s)
  {
    assert Staged(c.decode, s.threads[i]);
    var s' := FreePeers(c, s);
    s' := Advance(c, s', MarkPeer(i));
    IdleThread(c, s', i);
  }

  lemma BlockThread(c: Config, s: State, i: nat)
    requires Sound(c, s) && i < |s.threads| && Full(c, s.router.queues[i]) && RoomForHolder(c, s)
    requires s.threads[i].Working? && s.threads[i].request.VerifyBlock?
    requires Good(c, s.threads[i].request) ==> !Closes(c, LeftInChannel(s) + 1)
    ensures CanFinish(c, s)
  {
    var s' := Advance(c, s, Decode(i));
    if Good(c, s.threads[i].request) {
      SendingThread(c, s', i);
    } else {
      StepNoSenderBack(c, s, i);
      MarkingThread(c, s', i);
    }
  }

  /** A bad block is no sender. */
  lemma StepNoSenderBack(c: Config, s: State, i: nat)
    requires Shaped(s) && Enabled(c, s, Decode(i))
    ensures SenderLocks(Apply(c, s, Decode(i))) ==> SenderLocks(s)
  {
    if !SenderLocks(s) {
      StepNoSender(c, s, Decode(i));
    }
  }

  // ----- consensus gives the blockchain lock up -----

  /** What is left of the state when consensus has the lock no more. */
  ghost predicate Unwritten(c: Config, s: State, s': State)
    requires Shaped(s)
  {
    && Sound(c, s') && (CanFinish(c, s') ==> CanFinish(c, s)) && PeersFree(s') && !Closes(c, LeftInChannel(s'))
    && s'.router == s.router && |s'.threads| == |s.threads|
    && (forall i :: 0 <= i < |s.threads| && s.threads[i].Working? ==> s'.threads[i] == s.threads[i])
    && !Writes(s'.consensus) && !Waits(s'.consensus)
  }

  lemma FinishWriting(c: Config, s: State) returns (s': State)
    requires Sound(c, s) && PeersFree(s) && !Closes(c, LeftInChannel(s)) && s.consensus.Writing?
    ensures Unwritten(c, s, s')
  {
    s' := Advance(c, s, Finish);
  }

  lemma FinishTelling(c: Config, s: State) returns (s': State)
    requires Sound(c, s) && PeersFree(s) && !Closes(c, LeftInChannel(s))
    requires s.consensus == Telling(false) && s.updates < c.channelCapacity
    ensures Unwritten(c, s, s')
  {
    var s1 := Advance(c, s, TellRouter);
    s' := FinishWriting(c, s1);
  }

  lemma TellMinerFirst(c: Config, s: State) returns (s': State)
    requires Sound(c, s) && PeersFree(s) && !Closes(c, LeftInChannel(s))
    requires s.consensus == Telling(true) && s.updates < c.channelCapacity
    ensures Unwritten(c, s, s')
  {
    var s1 := s;
    if s.miner.inbox == c.channelCapacity {
      s1 := Advance(c, s, MinerCheck);
      s1 := Advance(c, s1, MinerTake);
    }
    s1 := Advance(c, s1, TellMiner);
    s' := FinishTelling(c, s1);
  }

  lemma LetWrite(c: Config, s: State) returns (s': State)
    requires Sound(c, s) && PeersFree(s) && !Closes(c, LeftInChannel(s)) && Waits(s.consensus)
    ensures Unwritten(c, s, s')
  {
    var s1 := FreeChain(c, s);
    s1 := Advance(c, s1, Write);
    s' := FinishWriting(c, s1);
  }

  /** Consensus, if it has the blockchain lock or waits for it, is done with it. */
  lemma FreeWriter(c: Config, s: State) returns (s': State)
    requires Sound(c, s) && PeersFree(s) && !Closes(c, LeftInChannel(s))
    requires s.consensus.Telling? ==> s.updates < c.channelCapacity
    ensures Unwritten(c, s, s')
  {
    if s.consensus.Telling? {
      if s.consensus.miner {
        s' := TellMinerFirst(c, s);
      } else {
        s' := FinishTelling(c, s);
      }
    } else if s.consensus.Writing? {
      s' := FinishWriting(c, s);
    } else if Waits(s.consensus) {
      s' := LetWrite(c, s);
    } else {
      s' := s;
    }
  }

  lemma TransactionThread(c: Config, s: State, i: nat)
    requires Sound(c, s) && i < |s.threads| && Full(c, s.router.queues[i]) && RoomForHolder(c, s)
    requires s.threads[i].Working? && s.threads[i].request.VerifyTransaction? && !LockedOut(c, s, i)
    ensures CanFinish(c, s)
  {
    var s1 := FreePeers(c, s);
    var s2 := FreeWriter(c, s1);
    var s3 := Advance(c, s2, LockChain(i));
    NoHolderNoSender(c, s3);
    ReadingThread(c, s3, i);
  }

  lemma NoHolderNoSender(c: Config, s: State)
    requires PeersFree(s)
    ensures !SenderLocks(s)
  {
    forall i | 0 <= i < |s.threads| && s.threads[i].Sending? ensures s.threads[i].request.VerifyBlock? {
      assert !HoldsPeers(s.threads[i]);
    }
  }

  lemma WorkingThread(c: Config, s: State, i: nat)
    requires Sound(c, s) && i < |s.threads| && Full(c, s.router.queues[i]) && RoomForHolder(c, s)
    requires s.threads[i].Working? && !LockedOut(c, s, i)
    requires Good(c, s.threads[i].request) ==> !Closes(c, LeftInChannel(s) + 1)
    ensures CanFinish(c, s)
  {
    if s.threads[i].request.VerifyBlock? {
      BlockThread(c, s, i);
    } else {
      TransactionThread(c, s, i);
    }
  }

  /** Whatever the thread of the full queue is doing. */
  lemma Unblock(c: Config, s: State, i: nat)
    requires Sound(c, s) && i < |s.threads| && Full(c, s.router.queues[i]) && !Closes(c, LeftInChannel(s))
    requires !LockedOut(c, s, i) && (MustSend(c, s, i) ==> !Closes(c, LeftInChannel(s) + 1))
    ensures CanFinish(c, s)
  {
    match s.threads[i] {
      case Idle => IdleThread(c, s, i);
      case Ready => ReadyThread(c, s, i);
      case Working(_) => WorkingThread(c, s, i);
      case Reading(_) => ReadingThread(c, s, i);
      case Locked(_) => LockedThread(c, s, i);
      case Sending(_, _) => SendingThread(c, s, i);
      case Marking(_) => MarkingThread(c, s, i);
    }
  }

  // ----- the exact condition -----

  /** The three ways in which the pipeline has come to a stop for good. */
  predicate Stopped(c: Config, s: State) {
    Stuck(c, s) || Jammed(c, s) || Blocked(c, s)
  }

  lemma NotStopped(c: Config, s: State)
    requires Sound(c, s) && !Stopped(c, s)
    ensures CanFinish(c, s)
  {
    if !Closes(c, NewsForRouter(s)) {
      RouterHasRoom(c, s);
    } else if i: nat :| i < |s.router.queues| && Full(c, s.router.queues[i]) {
      assert !s.routerReady;
      assert !BlockedAt(c, s, i);
      Unblock(c, s, i);
    } else {
      ChannelHasRoom(c, s);
    }
  }

  lemma StoppedNeverDrains(c: Config, s: State)
    requires Sound(c, s) && Stopped(c, s)
    ensures NeverDrains(c, s)
  {
    if Stuck(c, s) {
      PipelineStop.StuckNeverDrains(c, s);
    } else if Jammed(c, s) {
      JammedNeverDrains(c, s);
    } else {
      BlockedNeverDrains(c, s);
    }
  }

  lemma ReachedSound(c: Config, threads: nat, before: seq<Step>)
    requires 0 < threads && Sized(c) && Runs(c, Initial(threads), before)
    ensures Sound(c, Run(c, Initial(threads), before))
  {
    StartsWell(c, threads);
    RunInv(c, Initial(threads), before);
    RunSpare(c, Initial(threads), before);
  }

  /**
   With any number of verification threads, all work can be finished from a reachable state exactly if it
   is not stopped; and otherwise it never is, whatever else arrives.
   */
  lemma FinishesExactly(c: Config, threads: nat, before: seq<Step>)
    requires 0 < threads && Sized(c) && Runs(c, Initial(threads), before)
    ensures var s := Run(c, Initial(threads), before);
            (CanFinish(c, s) <==> !Stopped(c, s)) && (NeverDrains(c, s) <==> Stopped(c, s))
  {
    var s := Run(c, Initial(threads), before);
    ReachedSound(c, threads, before);
    if Stopped(c, s) {
      StoppedNeverDrains(c, s);
    } else {
      NotStopped(c, s);
    }
  }

  /** Up to 16 threads none of them is ever stuck, so then two ways remain. */
  lemma FinishesWithinMargin(c: Config, threads: nat, before: seq<Step>)
    requires 0 < threads <= Dispatch.CHANNEL_SAFE_BUFFER && Sized(c) && Runs(c, Initial(threads), before)
    ensures var s := Run(c, Initial(threads), before);
            CanFinish(c, s) <==> !Jammed(c, s) && !Blocked(c, s)
  {
    StartsWell(c, threads);
    RunSlack(c, Initial(threads), before);
    SlackNotStuck(c, Run(c, Initial(threads), before));
    FinishesExactly(c, threads, before);
  }
}

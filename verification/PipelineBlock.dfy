/**
 A verification queue that closes the router's gate. While the router is behind with the news from
 consensus, and the thread of that queue cannot get to its next request before consensus has told the
 router more, or before so much is sent that the gates close each other, the work is never all done.
 */
module PipelineBlock {
  import opened Options
  import opened Pipeline
  import opened PipelineInvariants
  import opened PipelineProgress
  import opened PipelineRuns
  import opened PipelineJam
  import Dispatch

  // ----- what the router's gate keeps of the queues -----

  predicate Full(c: Config, queue: seq<Request>) {
    |queue| + Dispatch.CHANNEL_SAFE_BUFFER >= c.queueCapacity
  }

  /** No queue gets past the margin, at most one comes up to it, and none has while the router is past its gate. */
  ghost predicate Spare(c: Config, s: State) {
    && (forall i :: 0 <= i < |s.router.queues| ==>
          |s.router.queues[i]| + Dispatch.CHANNEL_SAFE_BUFFER <= c.queueCapacity)
    && (forall i, j :: 0 <= i < j < |s.router.queues| ==>
          !(Full(c, s.router.queues[i]) && Full(c, s.router.queues[j])))
    && (s.routerReady ==> forall i :: 0 <= i < |s.router.queues| ==> !Full(c, s.router.queues[i]))
  }

  lemma RouteSpare(c: Config, s: State)
    requires Shaped(s) && Spare(c, s) && Enabled(c, s, Route)
    ensures Spare(c, Apply(c, s, Route))
  {
    Dispatch.SentToFirstWithRoom(s.router, c.queueCapacity, s.inbox[0]);
    var queues, queues' := s.router.queues, Apply(c, s, Route).router.queues;
    var k := Apply(c, s, Route).router.last % |queues|;
    assert forall j :: 0 <= j < |queues| && j != k ==> queues'[j] == queues[j];
    assert |queues'[k]| == |queues[k]| + 1;
  }

  lemma StepSpare(c: Config, s: State, step: Step)
    requires Shaped(s) && Spare(c, s) && Enabled(c, s, step)
    ensures Spare(c, Apply(c, s, step))
  {
    var s' := Apply(c, s, step);
    match step {
      case Route => RouteSpare(c, s);
      case Take(i) =>
        assert forall j :: 0 <= j < |s.router.queues| ==> |s'.router.queues[j]| <= |s.router.queues[j]|;
      case RouterCheck => {}
      case _ => assert s'.router == s.router;
    }
  }

  lemma {:induction false} RunSpare(c: Config, s: State, steps: seq<Step>)
    requires Shaped(s) && Spare(c, s) && Runs(c, s, steps)
    ensures Spare(c, Run(c, s, steps))
    decreases |steps|
  {
    if steps != [] {
      StepSpare(c, s, steps[0]);
      RunSpare(c, Apply(c, s, steps[0]), steps[1..]);
    }
  }

  // ----- the block lasts, or becomes a jam -----

  /** It waits for the blockchain lock, and consensus, which has it, for room to the router. */
  predicate LockedOut(c: Config, s: State, i: nat) {
    && i < |s.threads| && s.threads[i].Working? && s.threads[i].request.VerifyTransaction?
    && s.consensus.Telling? && s.updates >= c.channelCapacity
  }

  /** An event has to be sent before it is done with its request: its own, or that of the holder of the peers lock. */
  predicate MustSend(c: Config, s: State, i: nat) {
    && i < |s.threads|
    && (|| s.threads[i].Sending?
        || (s.threads[i].Working? && Good(c, s.threads[i].request))
        || ((s.threads[i].Working? || s.threads[i].Reading? || s.threads[i].Marking?) && SenderLocks(s)))
  }

  predicate BlockedAt(c: Config, s: State, i: nat) {
    && i < |s.router.queues| && Full(c, s.router.queues[i]) && Closes(c, s.updates + OwedToRouter(s))
    && (LockedOut(c, s, i) || (Closes(c, LeftInChannel(s) + 1) && MustSend(c, s, i)))
  }

  predicate Blocked(c: Config, s: State) {
    exists i :: 0 <= i < |s.router.queues| && BlockedAt(c, s, i)
  }

  /** The queue stays full, as its thread does not take from it and the router's gate is closed. */
  lemma StaysFull(c: Config, s: State, i: nat, step: Step)
    requires Shaped(s) && Spare(c, s) && BlockedAt(c, s, i) && Enabled(c, s, step)
    ensures var s' := Apply(c, s, step);
            && s'.router.queues[i] == s.router.queues[i] && !s'.routerReady
            && Closes(c, s'.updates + OwedToRouter(s'))
  {
    assert !s.routerReady;
  }

  lemma StaysLockedOut(c: Config, s: State, i: nat, step: Step)
    requires Shaped(s) && LockedOut(c, s, i) && !s.routerReady && Enabled(c, s, step)
    ensures LockedOut(c, Apply(c, s, step), i)
  {
  }

  /** One more event in the channel than it can hold without closing the gates. */
  lemma SentJams(c: Config, s: State, s': State)
    requires Closes(c, LeftInChannel(s) + 1) && |s'.channel| == |s.channel| + 1 && s'.consensus == s.consensus
    requires !s'.routerReady && Closes(c, s'.updates + OwedToRouter(s'))
    ensures Jammed(c, s')
  {
  }

  lemma SenderStays(c: Config, s: State, step: Step)
    requires Shaped(s) && Exclusive(s) && SenderLocks(s) && Enabled(c, s, step) && !step.Send?
    ensures SenderLocks(Apply(c, s, step)) && !PeersFree(s)
  {
    var j: nat :| j < |s.threads| && s.threads[j].Sending? && s.threads[j].request.VerifyTransaction?;
    assert HoldsPeers(s.threads[j]);
    assert Apply(c, s, step).threads[j] == s.threads[j];
  }

  lemma StillMustSend(c: Config, s: State, i: nat, step: Step)
    requires Shaped(s) && Exclusive(s) && MustSend(c, s, i) && Enabled(c, s, step) && !step.Send?
    ensures MustSend(c, Apply(c, s, step), i)
  {
    if SenderLocks(s) {
      SenderStays(c, s, step);
    }
  }

  /** Without a step that sends, no more room is left in the channel than there was. */
  lemma StaysClose(c: Config, s: State, step: Step)
    requires Shaped(s) && Enabled(c, s, step)
    ensures LeftInChannel(Apply(c, s, step)) >= LeftInChannel(s) || step.ConsensusCheck?
  {
  }

  lemma StepBlocked(c: Config, s: State, i: nat, step: Step)
    requires Shaped(s) && Inv(c, s) && Spare(c, s) && BlockedAt(c, s, i) && Enabled(c, s, step)
    ensures Jammed(c, Apply(c, s, step)) || BlockedAt(c, Apply(c, s, step), i)
  {
    var s' := Apply(c, s, step);
    StaysFull(c, s, i, step);
    if LockedOut(c, s, i) {
      assert !s.routerReady;
      StaysLockedOut(c, s, i, step);
    } else if step.Send? {
      SentJams(c, s, s');
    } else {
      StillMustSend(c, s, i, step);
      StaysClose(c, s, step);
    }
  }

  lemma AfterBlocked(c: Config, s: State, i: nat, step: Step) returns (s': State)
    requires Shaped(s) && Inv(c, s) && Spare(c, s) && BlockedAt(c, s, i) && Enabled(c, s, step)
    ensures s' == Apply(c, s, step) && Shaped(s') && Inv(c, s') && Spare(c, s')
    ensures Jammed(c, s') || BlockedAt(c, s', i)
  {
    s' := Apply(c, s, step);
    StepInv(c, s, step);
    StepSpare(c, s, step);
    StepBlocked(c, s, i, step);
  }

  lemma {:induction false} BlockedForever(c: Config, s: State, i: nat, steps: seq<Step>)
    requires Shaped(s) && Inv(c, s) && Spare(c, s) && Sized(c) && BlockedAt(c, s, i) && Runs(c, s, steps)
    ensures !Drained(Run(c, s, steps))
    decreases |steps|
  {
    if steps != [] {
      var s' := AfterBlocked(c, s, i, steps[0]);
      if Jammed(c, s') {
        JammedForever(c, s', steps[1..]);
      } else {
        BlockedForever(c, s', i, steps[1..]);
      }
    }
  }

  /** Whatever happens, the work is never all done. */
  lemma BlockedNeverDrains(c: Config, s: State)
    requires Shaped(s) && Inv(c, s) && Spare(c, s) && Sized(c) && Blocked(c, s)
    ensures NeverDrains(c, s)
  {
    var i: nat :| i < |s.router.queues| && BlockedAt(c, s, i);
    forall more | Runs(c, s, more) ensures !Drained(Run(c, s, more)) {
      BlockedForever(c, s, i, more);
    }
  }

  // ----- a run into the block: blocks whose parents are missing, and a queue that fills behind a transaction -----

  /** All is idle and taken care of; the first n buffers fetched have been delivered. */
  ghost predicate Settled(c: Config, fetched: nat -> Request, s: State, n: nat)
    requires AllGood(c, fetched)
  {
    && Sized(c) && Shaped(s) && s.inbox == [] && !s.routerReady && s.consensus == Resting && s.updates == 0
    && (forall i :: 0 <= i < |s.threads| ==> s.router.queues[i] == [] && s.threads[i] == Idle)
    && s.miner == Miner(0, false, false) && s.channel == [] && s.log == Delivered(c, fetched, n)
  }

  lemma StartsSettled(c: Config, fetched: nat -> Request, threads: nat)
    requires 0 < threads && Sized(c) && AllGood(c, fetched)
    ensures Settled(c, fetched, Initial(threads), 0)
  {
  }

  /** Another block gets through to consensus. */
  lemma BlockTaken(c: Config, fetched: nat -> Request, s0: State, s: State, n: nat) returns (s': State)
    requires Shaped(s0) && AllGood(c, fetched) && Settled(c, fetched, s, n) && Reaches(c, s0, s)
    ensures Shaped(s') && Reaches(c, s0, s') && s'.consensus.Handling? && s'.consensus.event.BlockFetched?
    ensures Settled(c, fetched, s'.(consensus := Resting), n + 1) && |s'.threads| == |s.threads|
  {
    s' := PassBlock(c, s0, s, fetched(n));
    s' := Go(c, s0, s', ConsensusCheck);
    s' := Go(c, s0, s', Consume);
  }

  /** Consensus finds k blocks whose parents are missing, and asks the router to have those fetched. */
  lemma {:induction false} AskRouter(c: Config, s0: State, s: State, k: nat) returns (s': State)
    requires Shaped(s0) && Shaped(s) && Reaches(c, s0, s) && s.consensus == Writing && PeersFree(s)
    requires s.updates + k <= c.channelCapacity
    ensures Shaped(s') && Reaches(c, s0, s') && s' == s.(updates := s.updates + k)
    decreases k
  {
    s' := s;
    if k > 0 {
      s' := Go(c, s0, s, Add(false));
      s' := Go(c, s0, s', TellRouter);
      s' := AskRouter(c, s0, s', k - 1);
    }
  }

  /** The router takes all it has been told. */
  lemma {:induction false} TakeUpdates(c: Config, s0: State, s: State) returns (s': State)
    requires Shaped(s0) && Shaped(s) && Reaches(c, s0, s) && RouterGate(c, s) && !s.routerReady
    ensures Shaped(s') && Reaches(c, s0, s') && s' == s.(updates := 0)
    decreases s.updates
  {
    s' := s;
    if s.updates > 0 {
      s' := Go(c, s0, s, RouterCheck);
      s' := Go(c, s0, s', TakeUpdate);
      s' := TakeUpdates(c, s0, s');
    }
  }

  /** The n blocks so far wait in the pool for their parents, and one more comes in: all of them are tried again. */
  lemma Retry(c: Config, fetched: nat -> Request, s0: State, s: State, n: nat) returns (s': State)
    requires Shaped(s0) && AllGood(c, fetched) && Settled(c, fetched, s, n) && Reaches(c, s0, s)
    requires n < c.channelCapacity
    ensures Settled(c, fetched, s', n + 1) && |s'.threads| == |s.threads| && Reaches(c, s0, s')
  {
    s' := BlockTaken(c, fetched, s0, s, n);
    s' := Go(c, s0, s', Write);
    s' := AskRouter(c, s0, s', n + 1);
    s' := Go(c, s0, s', Finish);
    s' := TakeUpdates(c, s0, s');
  }

  lemma {:induction false} Retries(c: Config, fetched: nat -> Request, s0: State, s: State, n: nat)
    returns (s': State)
    requires Shaped(s0) && AllGood(c, fetched) && Settled(c, fetched, s, n) && Reaches(c, s0, s)
    requires n <= c.channelCapacity
    ensures Settled(c, fetched, s', c.channelCapacity) && |s'.threads| == |s.threads| && Reaches(c, s0, s')
    decreases c.channelCapacity - n
  {
    if n == c.channelCapacity {
      s' := s;
    } else {
      s' := Retry(c, fetched, s0, s, n);
      s' := Retries(c, fetched, s0, s', n + 1);
    }
  }

  // Queues filling with transactions, and threads taking one each.

  function Plain(): Request {
    VerifyTransaction(Transaction([], None))
  }

  /** The gates towards consensus and the miner are open; threads are idle or have taken a transaction. */
  ghost predicate Filling(c: Config, s: State) {
    && Sized(c) && Shaped(s) && Spare(c, s) && s.inbox == [] && !s.routerReady && s.channel == []
    && s.miner == Miner(0, false, false)
    && (forall i :: 0 <= i < |s.threads| ==> s.threads[i] == Idle || s.threads[i] == Working(Plain()))
    && (forall i :: 0 <= i < |s.threads| ==> forall r :: r in s.router.queues[i] ==> r == Plain())
  }

  /** Threads and queues apart, nothing is changed. */
  ghost predicate Alike(s: State, s': State) {
    && s'.consensus == s.consensus && s'.updates == s.updates && s'.log == s.log && |s'.threads| == |s.threads|
  }

  function TotalRoom(queues: seq<seq<Request>>, capacity: nat): nat {
    if queues == [] then 0
    else (if |queues[0]| < capacity then capacity - |queues[0]| else 0) + TotalRoom(queues[1..], capacity)
  }

  lemma {:induction false} LessRoom(queues: seq<seq<Request>>, i: nat, r: Request, capacity: nat)
    requires i < |queues| && |queues[i]| < capacity
    ensures TotalRoom(queues[i := queues[i] + [r]], capacity) < TotalRoom(queues, capacity)
  {
    var queues' := queues[i := queues[i] + [r]];
    if i == 0 {
      assert queues'[1..] == queues[1..];
    } else {
      assert queues'[1..] == queues[1..][i - 1 := queues[1..][i - 1] + [r]];
      LessRoom(queues[1..], i - 1, r, capacity);
    }
  }

  lemma Offered(c: Config, s0: State, s: State) returns (s': State)
    requires Shaped(s0) && Reaches(c, s0, s) && Filling(c, s)
    requires forall i :: 0 <= i < |s.router.queues| ==> !Full(c, s.router.queues[i])
    ensures Shaped(s') && Reaches(c, s0, s') && s' == s.(inbox := [Plain()], routerReady := true)
    ensures Spare(c, s') && Enabled(c, s', Route)
  {
    s' := Go(c, s0, s, Arrive(Plain()));
    s' := Go(c, s0, s', RouterCheck);
    assert Dispatch.HasRoom(s'.router.queues[0], c.queueCapacity);
  }

  /** With the router's gate open a transaction joins a queue. */
  lemma RouteOne(c: Config, s0: State, s: State) returns (s': State)
    requires Shaped(s0) && Reaches(c, s0, s) && Filling(c, s)
    requires forall i :: 0 <= i < |s.router.queues| ==> !Full(c, s.router.queues[i])
    ensures Filling(c, s') && Alike(s, s') && Reaches(c, s0, s') && s'.threads == s.threads
    ensures TotalRoom(s'.router.queues, c.queueCapacity) < TotalRoom(s.router.queues, c.queueCapacity)
  {
    var s1 := Offered(c, s0, s);
    RouteNext(c, s1);
    RouteSpare(c, s1);
    s' := Go(c, s0, s1, Route);
    var i := Dispatch.Slot(s.router.last, 1, |s.threads|);
    LessRoom(s.router.queues, i, Plain(), c.queueCapacity);
  }

  /** A thread whose queue is full takes a transaction. */
  lemma TakeOne(c: Config, s0: State, s: State, i: nat) returns (s': State)
    requires Shaped(s0) && Reaches(c, s0, s) && Filling(c, s) && i < |s.threads| && s.threads[i] == Idle
    requires Full(c, s.router.queues[i])
    ensures Filling(c, s') && Alike(s, s') && Reaches(c, s0, s') && s'.threads == s.threads[i := Working(Plain())]
  {
    var queue := s.router.queues[i];
    assert queue[0] in queue && forall r :: r in queue[1..] ==> r in queue;
    var s1 := Go(c, s0, s, Check(i));
    s' := Go(c, s0, s1, Take(i));
    StepSpare(c, s1, Take(i));
    assert s'.threads == s.threads[i := Working(Plain())];
  }

  /** In the end a queue is full whose thread has a transaction in hand. */
  lemma {:induction false} Fill(c: Config, s0: State, s: State) returns (s': State, i: nat)
    requires Shaped(s0) && Reaches(c, s0, s) && Filling(c, s)
    ensures Filling(c, s') && Alike(s, s') && Reaches(c, s0, s')
    ensures i < |s'.threads| && s'.threads[i] == Working(Plain()) && Full(c, s'.router.queues[i])
    decreases |s.threads| - Committed(s.threads), TotalRoom(s.router.queues, c.queueCapacity)
  {
    if j: nat :| j < |s.router.queues| && Full(c, s.router.queues[j]) {
      if s.threads[j] == Idle {
        CommittedUpdate(s.threads, j, Working(Plain()));
        var s1 := TakeOne(c, s0, s, j);
        s', i := Fill(c, s0, s1);
      } else {
        s', i := s, j;
      }
    } else {
      var s1 := RouteOne(c, s0, s);
      s', i := Fill(c, s0, s1);
    }
  }

  /** All the blocks are tried once more, but the router cannot take so much news. */
  lemma LastRetry(c: Config, s0: State, s: State, i: nat) returns (s': State)
    requires Shaped(s0) && Reaches(c, s0, s) && Filling(c, s) && Waits(s.consensus) && s.updates == 0
    requires i < |s.threads| && s.threads[i] == Working(Plain()) && Full(c, s.router.queues[i])
    ensures Shaped(s') && Reaches(c, s0, s') && s'.log == s.log && s'.channel == [] && BlockedAt(c, s', i)
  {
    s' := Go(c, s0, s, Write);
    s' := AskRouter(c, s0, s', c.channelCapacity);
    s' := Go(c, s0, s', Add(false));
  }

  lemma SettledFilling(c: Config, fetched: nat -> Request, s: State, n: nat)
    requires AllGood(c, fetched) && Shaped(s) && Settled(c, fetched, s.(consensus := Resting), n)
    ensures Filling(c, s) && s.updates == 0 && s.log == Delivered(c, fetched, n)
  {
  }

  lemma IntoBlock(c: Config, threads: nat, fetched: nat -> Request) returns (s: State)
    requires 0 < threads && Sized(c) && AllGood(c, fetched)
    ensures Shaped(Initial(threads)) && Shaped(s) && Reaches(c, Initial(threads), s)
    ensures Blocked(c, s) && s.channel == [] && s.log == Delivered(c, fetched, c.channelCapacity + 1)
  {
    var s0 := Initial(threads);
    StartsSettled(c, fetched, threads);
    Stay(c, s0);
    var s1 := Retries(c, fetched, s0, s0, 0);
    var s2 := BlockTaken(c, fetched, s0, s1, c.channelCapacity);
    SettledFilling(c, fetched, s2, c.channelCapacity + 1);
    var s3, i := Fill(c, s0, s2);
    s := LastRetry(c, s0, s3, i);
  }

  /**
   With any number of verification threads there is a run into the block, with the channel to consensus
   empty: one block more than the router's channel has places is fetched, whatever they are, and their
   parents are missing, so that each time one comes in all so far are tried again.
   */
  lemma BlockRun(c: Config, threads: nat, fetched: nat -> Request) returns (steps: seq<Step>)
    requires 0 < threads && Sized(c) && AllGood(c, fetched)
    ensures Shaped(Initial(threads)) && Runs(c, Initial(threads), steps)
    ensures var s := Run(c, Initial(threads), steps);
            && Blocked(c, s) && !Jammed(c, s) && NeverDrains(c, s)
            && s.channel == [] && s.log == Delivered(c, fetched, c.channelCapacity + 1)
  {
    var s := IntoBlock(c, threads, fetched);
    steps := StepsTo(c, Initial(threads), s);
    StartsWell(c, threads);
    RunInv(c, Initial(threads), steps);
    RunSpare(c, Initial(threads), steps);
    BlockedNeverDrains(c, s);
  }
}

/**
 What every step of the pipeline keeps: what is handed over is what was asked for, nothing overfills,
 and locks exclude.
 */
module PipelineInvariants {
  import opened Options
  import opened Pipeline
  import Dispatch

  // ----- what every step keeps -----

  /**
   A transaction is handed over, or marked against the peer it came from, or dropped if it came from none.
   A block is handed over exactly if it is what its fetch asked for, and as that; else its peer is marked.
   */
  ghost predicate Sound(decode: Decoder, r: Record) {
    match r.request
    case VerifyTransaction(tx) =>
      && (r.outcome.Handed? ==> r.outcome.event == NewTransaction(tx))
      && (r.outcome.Marked? ==>
            r.outcome.mark.offence == InvalidTransactions && tx.routedFrom == Some(r.outcome.mark.peer))
      && (r.outcome.Dropped? ==> tx.routedFrom == None)
    case VerifyBlock(buffer, peer, hash, id) =>
      && (r.outcome.Handed? ==>
            && r.outcome.event.BlockFetched? && r.outcome.event.peer == peer
            && r.outcome.event.block.id == id && r.outcome.event.block.hash == hash
            && r.outcome.event.block.routedFrom == Some(peer)
            && decode(buffer).Some? && decode(buffer).value.content == r.outcome.event.block.content)
      && (r.outcome.Handed? || r.outcome == Marked(Mark(peer, InvalidBlocks)))
      && (r.outcome.Handed? <==> IsAsked(decode, buffer, hash, id))
  }

  lemma VerdictSound(decode: Decoder, request: Request, accepted: bool)
    ensures Sound(decode, Record(request, Verdict(decode, request, accepted)))
  {
  }

  /** What a thread is about to send or mark is the verdict on its request. */
  ghost predicate Staged(decode: Decoder, stage: Stage) {
    match stage
    case Idle => true
    case Ready => true
    case Working(_) => true
    case Reading(request) => request.VerifyTransaction?
    case Locked(request) => request.VerifyTransaction?
    case Sending(request, event) =>
      Verdict(decode, request, true) == Handed(event)
    case Marking(request) => request.VerifyBlock? && !Verdict(decode, request, true).Handed?
  }

  /** The events that verification threads have sent. */
  function FromThreads(events: seq<ConsensusEvent>): seq<ConsensusEvent> {
    if events == [] then []
    else
      var last := events[|events| - 1];
      FromThreads(events[..|events| - 1]) + if last.NewGoldenTicket? then [] else [last]
  }

  lemma FromThreadsNext(events: seq<ConsensusEvent>, e: ConsensusEvent)
    ensures FromThreads(events + [e]) == FromThreads(events) + if e.NewGoldenTicket? then [] else [e]
  {
    assert (events + [e])[..|events|] == events;
  }

  ghost predicate AllStaged(c: Config, s: State) {
    forall i :: 0 <= i < |s.threads| ==> Staged(c.decode, s.threads[i])
  }

  /** Every record is sound, and consensus has received or will receive exactly what was handed over, in order. */
  ghost predicate Faithful(c: Config, s: State) {
    && (forall k :: 0 <= k < |s.log| ==> Sound(c.decode, s.log[k]))
    && FromThreads(s.taken + s.channel) == HandedOver(s.log)
  }

  ghost predicate Bounded(c: Config, s: State) {
    && |s.channel| <= c.channelCapacity && s.miner.inbox <= c.channelCapacity && s.updates <= c.channelCapacity
    && QueuesFit(c, s)
  }

  /** Blockchain and peers lock are never held by two who exclude each other. */
  ghost predicate Exclusive(s: State) {
    && (Writes(s.consensus) ==> ChainUnread(s))
    && (forall i, j :: 0 <= i < j < |s.threads| ==> !(HoldsPeers(s.threads[i]) && HoldsPeers(s.threads[j])))
  }

  ghost predicate Inv(c: Config, s: State) {
    AllStaged(c, s) && Faithful(c, s) && Bounded(c, s) && Exclusive(s)
  }

  lemma StepStaged(c: Config, s: State, step: Step)
    requires Shaped(s) && AllStaged(c, s) && Enabled(c, s, step)
    ensures AllStaged(c, Apply(c, s, step))
  {
  }

  /** A thread finishing with a verdict on its request. */
  lemma DoneFaithful(c: Config, s: State, i: nat, outcome: Outcome)
    requires Faithful(c, s) && Busy(s, i) && Sound(c.decode, Record(s.threads[i].request, outcome))
    requires outcome.Handed? ==> !outcome.event.NewGoldenTicket?
    ensures Faithful(c, Done(s, i, outcome))
  {
    Appended(s.log, Record(s.threads[i].request, outcome));
    if outcome.Handed? {
      assert s.taken + (s.channel + [outcome.event]) == (s.taken + s.channel) + [outcome.event];
      FromThreadsNext(s.taken + s.channel, outcome.event);
    } else {
      assert s.channel + [] == s.channel;
    }
  }

  lemma StepFaithful(c: Config, s: State, step: Step)
    requires Shaped(s) && AllStaged(c, s) && Faithful(c, s) && Enabled(c, s, step)
    ensures Faithful(c, Apply(c, s, step))
  {
    match step {
      case Decide(i, accepted) =>
        VerdictSound(c.decode, s.threads[i].request, accepted);
        if !Verdict(c.decode, s.threads[i].request, accepted).Handed? {
          DoneFaithful(c, s, i, Verdict(c.decode, s.threads[i].request, accepted));
        }
      case MarkPeer(i) =>
        VerdictSound(c.decode, s.threads[i].request, true);
        assert Staged(c.decode, s.threads[i]);
        DoneFaithful(c, s, i, Verdict(c.decode, s.threads[i].request, true));
      case Send(i) =>
        VerdictSound(c.decode, s.threads[i].request, true);
        assert Staged(c.decode, s.threads[i]);
        DoneFaithful(c, s, i, Handed(s.threads[i].event));
      case Consume =>
        assert (s.taken + [s.channel[0]]) + s.channel[1..] == s.taken + s.channel;
      case Mine =>
        assert s.taken + (s.channel + [NewGoldenTicket]) == (s.taken + s.channel) + [NewGoldenTicket];
        FromThreadsNext(s.taken + s.channel, NewGoldenTicket);
      case _ => {}
    }
  }

  lemma StepChannel(c: Config, s: State, step: Step)
    requires Shaped(s) && AllStaged(c, s) && Enabled(c, s, step) && Bounded(c, s)
    ensures var s' := Apply(c, s, step);
            && |s'.channel| <= c.channelCapacity && s'.miner.inbox <= c.channelCapacity
            && s'.updates <= c.channelCapacity
  {
    if step.MarkPeer? {
      assert Staged(c.decode, s.threads[step.thread]);
    }
  }

  ghost predicate QueuesFit(c: Config, s: State) {
    && (forall i :: 0 <= i < |s.router.queues| ==> |s.router.queues[i]| <= c.queueCapacity)
    && (s.routerReady ==>
          forall i :: 0 <= i < |s.router.queues| ==> Dispatch.HasRoom(s.router.queues[i], c.queueCapacity))
  }

  lemma StepQueues(c: Config, s: State, step: Step)
    requires Shaped(s) && QueuesFit(c, s) && Enabled(c, s, step)
    ensures QueuesFit(c, Apply(c, s, step))
  {
    match step {
      case Route => Dispatch.SentToFirstWithRoom(s.router, c.queueCapacity, s.inbox[0]);
      case Take(i) =>
        var s' := Apply(c, s, step);
        assert forall j :: 0 <= j < |s.router.queues| ==> |s'.router.queues[j]| <= |s.router.queues[j]|;
      case RouterCheck => {}
      case _ => assert Apply(c, s, step).router == s.router;
    }
  }

  /** A thread that gains no lock. */
  lemma MoveExclusive(s: State, s': State, i: nat, stage: Stage)
    requires Exclusive(s) && i < |s.threads|
    requires s'.threads == s.threads[i := stage] && s'.consensus == s.consensus
    requires HoldsPeers(stage) ==> HoldsPeers(s.threads[i])
    requires HoldsChain(stage) ==> HoldsChain(s.threads[i])
    ensures Exclusive(s')
  {
  }

  /** A thread that gains a lock nobody excludes it from. */
  lemma GainExclusive(s: State, i: nat, stage: Stage)
    requires Exclusive(s) && i < |s.threads| && !Writes(s.consensus)
    requires HoldsPeers(stage) ==> PeersFree(s)
    ensures Exclusive(Move(s, i, stage))
  {
  }

  lemma StepExclusive(c: Config, s: State, step: Step)
    requires Shaped(s) && Exclusive(s) && AllStaged(c, s) && Enabled(c, s, step)
    ensures Exclusive(Apply(c, s, step))
  {
    var s' := Apply(c, s, step);
    match step {
      case Check(i) => MoveExclusive(s, s', i, Ready);
      case Tick(i) => MoveExclusive(s, s', i, Idle);
      case Take(i) => MoveExclusive(s, s', i, s'.threads[i]);
      case Decode(i) => MoveExclusive(s, s', i, s'.threads[i]);
      case LockChain(i) => GainExclusive(s, i, Reading(s.threads[i].request));
      case LockPeers(i) =>
        assert HoldsChain(s.threads[i]);
        GainExclusive(s, i, Locked(s.threads[i].request));
      case Decide(i, accepted) =>
        assert Staged(c.decode, s.threads[i]);
        MoveExclusive(s, s', i, s'.threads[i]);
      case MarkPeer(i) => MoveExclusive(s, s', i, Idle);
      case Send(i) => MoveExclusive(s, s', i, Idle);
      case _ => assert s'.threads == s.threads;
    }
  }

  lemma StepInv(c: Config, s: State, step: Step)
    requires Shaped(s) && Inv(c, s) && Enabled(c, s, step)
    ensures Inv(c, Apply(c, s, step))
  {
    StepStaged(c, s, step);
    StepFaithful(c, s, step);
    StepChannel(c, s, step);
    StepQueues(c, s, step);
    StepExclusive(c, s, step);
  }

  /**
   In every reachable state the verification events consensus has taken, followed by those in its
   channel, are exactly the ones handed over, in order, each carrying what its request named; nothing
   overfills; and the locks exclude as they should.
   */
  lemma {:induction false} RunInv(c: Config, s: State, steps: seq<Step>)
    requires Shaped(s) && Inv(c, s) && Runs(c, s, steps)
    ensures Inv(c, Run(c, s, steps))
    decreases |steps|
  {
    if steps != [] {
      StepInv(c, s, steps[0]);
      RunInv(c, Apply(c, s, steps[0]), steps[1..]);
    }
  }
}

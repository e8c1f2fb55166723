/**
 What the gates hold back: while a channel or queue behind it is within the margin of being full, whoever
 has not passed the gate before takes nothing.
 */
module PipelineGates {
  import opened Pipeline
  import Dispatch

  const MARGIN: int := 16

  /** Nothing is taken from what makes the gate close. */
  predicate Without(steps: seq<Step>, step: Step) {
    forall k :: 0 <= k < |steps| ==> steps[k] != step
  }

  /** The router routes nothing and takes no news while the channel to consensus is nearly full. */
  lemma {:induction false} RouterWaitsForConsensus(c: Config, s: State, steps: seq<Step>)
    requires Shaped(s) && Runs(c, s, steps) && Without(steps, Consume)
    requires !s.routerReady && |s.channel| + MARGIN >= c.channelCapacity
    ensures var s' := Run(c, s, steps);
            s'.router.last == s.router.last && s.inbox <= s'.inbox && s.updates <= s'.updates
    decreases |steps|
  {
    if steps != [] {
      RouterWaitsForConsensus(c, Apply(c, s, steps[0]), steps[1..]);
    }
  }

  /** Nor while the channel to the miner is. */
  lemma {:induction false} RouterWaitsForMiner(c: Config, s: State, steps: seq<Step>)
    requires Shaped(s) && Runs(c, s, steps) && Without(steps, MinerTake)
    requires !s.routerReady && s.miner.inbox + MARGIN >= c.channelCapacity
    ensures var s' := Run(c, s, steps);
            s'.router.last == s.router.last && s.inbox <= s'.inbox && s.updates <= s'.updates
    decreases |steps|
  {
    if steps != [] {
      RouterWaitsForMiner(c, Apply(c, s, steps[0]), steps[1..]);
    }
  }

  /** Nor while a verification queue is. */
  lemma {:induction false} RouterWaitsForQueue(c: Config, s: State, steps: seq<Step>, i: nat)
    requires Shaped(s) && Runs(c, s, steps) && Without(steps, Take(i)) && i < |s.router.queues|
    requires !s.routerReady && |s.router.queues[i]| + MARGIN >= c.queueCapacity
    ensures var s' := Run(c, s, steps);
            s'.router.last == s.router.last && s.inbox <= s'.inbox && s.updates <= s'.updates
    decreases |steps|
  {
    if steps != [] {
      RouterWaitsForQueue(c, Apply(c, s, steps[0]), steps[1..], i);
    }
  }

  /** Consensus takes no event while the channel to the miner is nearly full. */
  lemma {:induction false} ConsensusWaitsForMiner(c: Config, s: State, steps: seq<Step>)
    requires Shaped(s) && Runs(c, s, steps) && Without(steps, MinerTake)
    requires !s.consensus.Attentive? && s.miner.inbox + MARGIN >= c.channelCapacity
    ensures Run(c, s, steps).taken == s.taken
    decreases |steps|
  {
    if steps != [] {
      ConsensusWaitsForMiner(c, Apply(c, s, steps[0]), steps[1..]);
    }
  }

  /** Nor while the channel to the router is. */
  lemma {:induction false} ConsensusWaitsForRouter(c: Config, s: State, steps: seq<Step>)
    requires Shaped(s) && Runs(c, s, steps) && Without(steps, TakeUpdate)
    requires !s.consensus.Attentive? && s.updates + MARGIN >= c.channelCapacity
    ensures Run(c, s, steps).taken == s.taken
    decreases |steps|
  {
    if steps != [] {
      ConsensusWaitsForRouter(c, Apply(c, s, steps[0]), steps[1..]);
    }
  }

  /** The miner takes no news, and no verification thread a request, while the channel to consensus is nearly full. */
  lemma {:induction false} SendersWaitForConsensus(c: Config, s: State, steps: seq<Step>, i: nat)
    requires Shaped(s) && Runs(c, s, steps) && Without(steps, Consume) && i < |s.threads|
    requires |s.channel| + MARGIN >= c.channelCapacity
    ensures !s.miner.ready ==> Run(c, s, steps).miner.inbox >= s.miner.inbox
    ensures s.threads[i].Idle? ==> Run(c, s, steps).threads[i].Idle?
    decreases |steps|
  {
    if steps != [] {
      SendersWaitForConsensus(c, Apply(c, s, steps[0]), steps[1..], i);
    }
  }
}

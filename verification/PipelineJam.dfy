/**
 Gates that close each other. Consensus takes no event while the miner's channel or the router's is nearly
 full, and those two take nothing while the channel to consensus is nearly full; so with all of that
 nothing is ever taken again. A run ends there with any number of threads.
 */
module PipelineJam {
  import opened Pipeline
  import opened PipelineInvariants
  import opened PipelineProgress
  import opened PipelineRuns
  import Dispatch

  // ----- the jam lasts -----

  /** What is left in the channel once consensus has taken the event it is waiting for, if it is. */
  function LeftInChannel(s: State): int {
    |s.channel| - if s.consensus.Attentive? then 1 else 0
  }

  /** The news the miner will have, once what is owed is sent and what it is waiting for taken. */
  function NewsForMiner(s: State): int {
    s.miner.inbox + OwedToMiner(s) - if s.miner.ready then 1 else 0
  }

  function NewsForRouter(s: State): int {
    s.updates + OwedToRouter(s) - if s.routerReady then 1 else 0
  }

  /** No room to spare in a channel that holds so many. */
  predicate Closes(c: Config, n: int) {
    n + Dispatch.CHANNEL_SAFE_BUFFER >= c.channelCapacity
  }

  predicate Jammed(c: Config, s: State) {
    Closes(c, LeftInChannel(s)) && (Closes(c, NewsForMiner(s)) || Closes(c, NewsForRouter(s)))
  }

  function TakenAtMost(s: State): nat {
    |s.taken| + if s.consensus.Attentive? then 1 else 0
  }

  /** A step of a thread, the miner's ticket, or an arrival: the channel only gets fuller. */
  lemma FullerJammed(c: Config, s: State, s': State)
    requires Jammed(c, s) && s'.consensus == s.consensus && s'.taken == s.taken && |s'.channel| >= |s.channel|
    requires s'.miner.inbox == s.miner.inbox && (s'.miner.ready ==> s.miner.ready)
    requires s'.updates == s.updates && (s'.routerReady ==> s.routerReady)
    ensures Jammed(c, s') && TakenAtMost(s') == TakenAtMost(s)
  {
  }

  /** The steps of consensus, and the router and the miner checking and taking. */
  predicate Gated(step: Step) {
    || step.ConsensusCheck? || step.ConsensusTick? || step.Consume? || step.Settle? || step.Bundle?
    || step.Write? || step.Add? || step.TellMiner? || step.TellRouter? || step.Finish?
    || step.RouterCheck? || step.TakeUpdate? || step.MinerCheck? || step.MinerTake?
  }

  lemma GatedStepJammed(c: Config, s: State, step: Step)
    requires Shaped(s) && Jammed(c, s) && Enabled(c, s, step)
    requires Gated(step)
    ensures Jammed(c, Apply(c, s, step)) && TakenAtMost(Apply(c, s, step)) <= TakenAtMost(s)
  {
  }

  lemma StepJammed(c: Config, s: State, step: Step)
    requires Shaped(s) && Jammed(c, s) && Enabled(c, s, step)
    ensures Jammed(c, Apply(c, s, step)) && TakenAtMost(Apply(c, s, step)) <= TakenAtMost(s)
  {
    if Gated(step) {
      GatedStepJammed(c, s, step);
    } else {
      FullerJammed(c, s, Apply(c, s, step));
    }
  }

  /** Then consensus takes no event any more but the one it may be waiting for, and the channel is never empty. */
  lemma {:induction false} JammedForever(c: Config, s: State, steps: seq<Step>)
    requires Shaped(s) && Jammed(c, s) && Runs(c, s, steps) && Sized(c)
    ensures var s' := Run(c, s, steps);
            Jammed(c, s') && s'.channel != [] && |s'.taken| <= TakenAtMost(s)
    decreases |steps|
  {
    if steps != [] {
      StepJammed(c, s, steps[0]);
      JammedForever(c, Apply(c, s, steps[0]), steps[1..]);
    }
  }

  lemma JammedNeverDrains(c: Config, s: State)
    requires Shaped(s) && Jammed(c, s) && Sized(c)
    ensures NeverDrains(c, s)
  {
    forall more | Runs(c, s, more) ensures !Drained(Run(c, s, more)) {
      JammedForever(c, s, more);
    }
  }

  // ----- a run into the jam: blocks arrive faster than the miner is given a turn -----

  /** A buffer that is the block its fetch asked for. */
  predicate Good(c: Config, request: Request) {
    request.VerifyBlock? && Verdict(c.decode, request, true).Handed?
  }

  function EventOf(c: Config, request: Request): ConsensusEvent
    requires Good(c, request)
  {
    Verdict(c.decode, request, true).event
  }

  ghost predicate AllGood(c: Config, fetched: nat -> Request) {
    forall k: nat :: Good(c, fetched(k))
  }

  /** The first n of them, each handed over. */
  ghost function Delivered(c: Config, fetched: nat -> Request, n: nat): seq<Record>
    requires AllGood(c, fetched)
  {
    if n == 0 then [] else Delivered(c, fetched, n - 1) + [Record(fetched(n - 1), Handed(EventOf(c, fetched(n - 1))))]
  }

  /** A block goes through the pipeline into the channel. */
  lemma PassBlock(c: Config, s0: State, s: State, request: Request) returns (s': State)
    requires Shaped(s0) && Shaped(s) && Reaches(c, s0, s) && Good(c, request)
    requires Sized(c) && s.inbox == [] && !s.routerReady && GateOpen(c, s) && MinerGate(c, s)
    requires forall j :: 0 <= j < |s.threads| ==> s.router.queues[j] == [] && s.threads[j] == Idle
    ensures Shaped(s') && Reaches(c, s0, s')
    ensures s' == s.(router := Dispatch.Router(s.router.last + 1, s.router.queues),
                     log := s.log + [Record(request, Handed(EventOf(c, request)))],
                     channel := s.channel + [EventOf(c, request)])
  {
    var i := Dispatch.Slot(s.router.last, 1, |s.threads|);
    s' := Load(c, s0, s, i, request);
    s' := Go(c, s0, s', Decode(i));
    s' := Go(c, s0, s', Send(i));
    assert s'.threads == s.threads;
  }

  /** All is idle, k blocks have been added without the miner, n have been delivered, the rest is in the channel. */
  ghost predicate Heaped(c: Config, fetched: nat -> Request, s: State, k: nat, n: nat)
    requires AllGood(c, fetched)
  {
    && Sized(c) && Shaped(s) && s.inbox == [] && !s.routerReady && s.consensus == Resting && s.updates <= 1
    && (forall i :: 0 <= i < |s.threads| ==> s.router.queues[i] == [] && s.threads[i] == Idle)
    && s.miner == Miner(k, false, false) && |s.channel| + k == n && s.log == Delivered(c, fetched, n)
    && forall e :: e in s.channel ==> e.BlockFetched?
  }

  lemma StartsHeaped(c: Config, fetched: nat -> Request, threads: nat)
    requires 0 < threads && Sized(c) && AllGood(c, fetched)
    ensures Heaped(c, fetched, Initial(threads), 0, 0)
  {
  }

  /** Blocks heap up in the channel until its gate closes. */
  lemma {:induction false} HeapUp(c: Config, fetched: nat -> Request, s0: State, s: State, n: nat) returns (s': State)
    requires Shaped(s0) && AllGood(c, fetched) && Heaped(c, fetched, s, 0, n) && Reaches(c, s0, s)
    requires n + Dispatch.CHANNEL_SAFE_BUFFER <= c.channelCapacity
    ensures Heaped(c, fetched, s', 0, c.channelCapacity - Dispatch.CHANNEL_SAFE_BUFFER) && Reaches(c, s0, s')
    decreases c.channelCapacity - n
  {
    if n + Dispatch.CHANNEL_SAFE_BUFFER == c.channelCapacity {
      s' := s;
    } else {
      s' := PassBlock(c, s0, s, fetched(n));
      s' := HeapUp(c, fetched, s0, s', n + 1);
    }
  }

  /** Consensus takes a block, and the router what consensus has told it. */
  lemma TakeBlock(c: Config, s0: State, s: State) returns (s': State)
    requires Shaped(s0) && Shaped(s) && Reaches(c, s0, s) && Sized(c) && s.channel != []
    requires s.consensus == Resting && !s.routerReady && s.updates <= 1 && MinerGate(c, s)
    requires |s.channel| + Dispatch.CHANNEL_SAFE_BUFFER == c.channelCapacity
    requires forall i :: 0 <= i < |s.threads| ==> s.router.queues[i] == []
    ensures Shaped(s') && Reaches(c, s0, s')
    ensures s' == s.(channel := s.channel[1..], taken := s.taken + [s.channel[0]],
                     consensus := Handling(s.channel[0]), updates := 0)
  {
    s' := Go(c, s0, s, ConsensusCheck);
    s' := Go(c, s0, s', Consume);
    if s.updates > 0 {
      s' := Go(c, s0, s', RouterCheck);
      s' := Go(c, s0, s', TakeUpdate);
    }
  }

  /** One block out of the channel, another in, and one more piece of news for the miner. */
  lemma Turn(c: Config, fetched: nat -> Request, s0: State, s: State, k: nat, n: nat) returns (s': State)
    requires Shaped(s0) && AllGood(c, fetched) && Heaped(c, fetched, s, k, n) && Reaches(c, s0, s)
    requires k + Dispatch.CHANNEL_SAFE_BUFFER < c.channelCapacity
    requires |s.channel| + Dispatch.CHANNEL_SAFE_BUFFER == c.channelCapacity
    ensures Heaped(c, fetched, s', k + 1, n + 1) && Reaches(c, s0, s') && |s'.channel| == |s.channel|
  {
    s' := TakeBlock(c, s0, s);
    s' := PassBlock(c, s0, s', fetched(n));
    s' := AddBlock(c, s0, s');
  }

  lemma {:induction false} Turns(c: Config, fetched: nat -> Request, s0: State, s: State, k: nat, n: nat)
    returns (s': State)
    requires Shaped(s0) && AllGood(c, fetched) && Heaped(c, fetched, s, k, n) && Reaches(c, s0, s)
    requires k + Dispatch.CHANNEL_SAFE_BUFFER <= c.channelCapacity
    requires |s.channel| + Dispatch.CHANNEL_SAFE_BUFFER == c.channelCapacity
    ensures Reaches(c, s0, s') && |s'.channel| == |s.channel|
    ensures var room := c.channelCapacity - Dispatch.CHANNEL_SAFE_BUFFER; Heaped(c, fetched, s', room, room + room)
    decreases c.channelCapacity - k
  {
    if k + Dispatch.CHANNEL_SAFE_BUFFER == c.channelCapacity {
      s' := s;
    } else {
      s' := Turn(c, fetched, s0, s, k, n);
      s' := Turns(c, fetched, s0, s', k + 1, n + 1);
    }
  }

  lemma HeapedJammed(c: Config, fetched: nat -> Request, s: State, k: nat, n: nat)
    requires AllGood(c, fetched) && Heaped(c, fetched, s, k, n) && Closes(c, k) && Closes(c, |s.channel|)
    ensures Shaped(s) && Jammed(c, s) && s.log == Delivered(c, fetched, n)
  {
  }

  lemma Heap(c: Config, threads: nat, fetched: nat -> Request) returns (s: State)
    requires 0 < threads && Sized(c) && AllGood(c, fetched)
    ensures Shaped(Initial(threads)) && Shaped(s) && Reaches(c, Initial(threads), s)
    ensures Jammed(c, s) && s.log == Delivered(c, fetched, 2 * (c.channelCapacity - Dispatch.CHANNEL_SAFE_BUFFER))
  {
    var s0, room := Initial(threads), c.channelCapacity - Dispatch.CHANNEL_SAFE_BUFFER;
    StartsHeaped(c, fetched, threads);
    Stay(c, s0);
    s := HeapUp(c, fetched, s0, s0, 0);
    s := Turns(c, fetched, s0, s, 0, room);
    HeapedJammed(c, fetched, s, room, room + room);
  }

  /**
   With any number of verification threads, and whatever the blocks are, there is a run into the jam: as
   many blocks as the channels to consensus and to the miner have room before the margin, each delivered
   as fetched, while the miner is never given a turn.
   */
  lemma JamRun(c: Config, threads: nat, fetched: nat -> Request) returns (steps: seq<Step>)
    requires 0 < threads && Sized(c) && AllGood(c, fetched)
    ensures Shaped(Initial(threads)) && Runs(c, Initial(threads), steps)
    ensures var s := Run(c, Initial(threads), steps);
            && Jammed(c, s) && NeverDrains(c, s)
            && s.log == Delivered(c, fetched, 2 * (c.channelCapacity - Dispatch.CHANNEL_SAFE_BUFFER))
  {
    var s := Heap(c, threads, fetched);
    steps := StepsTo(c, Initial(threads), s);
    JammedNeverDrains(c, s);
  }
}

/** Runs put together step by step. */
module PipelineRuns {
  import opened Pipeline
  import Dispatch

  /** Whatever happens from here on, the work is never all done. */
  ghost predicate NeverDrains(c: Config, s: State)
    requires Shaped(s)
  {
    forall more :: Runs(c, s, more) ==> !Drained(Run(c, s, more))
  }

  ghost predicate Reaches(c: Config, s: State, s': State)
    requires Shaped(s)
  {
    exists steps :: Runs(c, s, steps) && Run(c, s, steps) == s'
  }

  lemma Stay(c: Config, s: State)
    requires Shaped(s)
    ensures Reaches(c, s, s)
  {
    assert Runs(c, s, []) && Run(c, s, []) == s;
  }

  lemma StepsTo(c: Config, s: State, s': State) returns (steps: seq<Step>)
    requires Shaped(s) && Reaches(c, s, s')
    ensures Runs(c, s, steps) && Run(c, s, steps) == s'
  {
    steps :| Runs(c, s, steps) && Run(c, s, steps) == s';
  }

  lemma {:induction false} RunLast(c: Config, s: State, steps: seq<Step>, step: Step)
    requires Shaped(s) && Runs(c, s, steps) && Enabled(c, Run(c, s, steps), step)
    ensures Runs(c, s, steps + [step]) && Run(c, s, steps + [step]) == Apply(c, Run(c, s, steps), step)
    decreases |steps|
  {
    var all := steps + [step];
    if steps == [] {
      assert all == [step] && all[1..] == [];
    } else {
      assert all[0] == steps[0] && all[1..] == steps[1..] + [step];
      RunLast(c, Apply(c, s, steps[0]), steps[1..], step);
    }
  }

  /** One more step. */
  lemma Go(c: Config, s: State, s': State, step: Step) returns (s'': State)
    requires Shaped(s) && Reaches(c, s, s') && Shaped(s') && Enabled(c, s', step)
    ensures s'' == Apply(c, s', step) && Shaped(s'') && Reaches(c, s, s'')
  {
    s'' := Apply(c, s', step);
    var steps :| Runs(c, s, steps) && Run(c, s, steps) == s';
    RunLast(c, s, steps, step);
    assert Runs(c, s, steps + [step]);
  }

  // One request at a time.

  /** The next request goes to the next queue, as all have room. */
  lemma RouteNext(c: Config, s: State)
    requires Shaped(s) && Enabled(c, s, Route)
    requires forall i :: 0 <= i < |s.threads| ==> Dispatch.HasRoom(s.router.queues[i], c.queueCapacity)
    ensures var i := Dispatch.Slot(s.router.last, 1, |s.threads|);
            Apply(c, s, Route).router
            == Dispatch.Router(s.router.last + 1, s.router.queues[i := s.router.queues[i] + [s.inbox[0]]])
  {
    Dispatch.SentToFirstWithRoom(s.router, c.queueCapacity, s.inbox[0]);
    assert Dispatch.HasRoom(s.router.queues[Dispatch.Slot(s.router.last, 1, |s.threads|)], c.queueCapacity);
  }

  lemma Arrived(c: Config, s0: State, s: State, request: Request) returns (s': State)
    requires Shaped(s0) && Shaped(s) && Reaches(c, s0, s)
    requires Sized(c) && s.inbox == [] && GateOpen(c, s) && MinerGate(c, s)
    requires forall j :: 0 <= j < |s.threads| ==> s.router.queues[j] == []
    ensures Shaped(s') && Reaches(c, s0, s') && s' == s.(inbox := [request], routerReady := true)
    ensures Enabled(c, s', Route)
    ensures forall j :: 0 <= j < |s.threads| ==> Dispatch.HasRoom(s'.router.queues[j], c.queueCapacity)
  {
    s' := Go(c, s0, s, Arrive(request));
    s' := Go(c, s0, s', RouterCheck);
    assert Dispatch.HasRoom(s'.router.queues[0], c.queueCapacity);
  }

  /** A request arrives and an idle thread with an empty queue takes it. */
  lemma Load(c: Config, s0: State, s: State, i: nat, request: Request) returns (s': State)
    requires Shaped(s0) && Shaped(s) && Reaches(c, s0, s)
    requires Sized(c) && s.inbox == [] && !s.routerReady && GateOpen(c, s) && MinerGate(c, s)
    requires forall j :: 0 <= j < |s.threads| ==> s.router.queues[j] == []
    requires i == Dispatch.Slot(s.router.last, 1, |s.threads|) && s.threads[i] == Idle
    ensures Shaped(s') && Reaches(c, s0, s')
    ensures s' == Move(s, i, Working(request)).(router := Dispatch.Router(s.router.last + 1, s.router.queues))
  {
    s' := Arrived(c, s0, s, request);
    RouteNext(c, s');
    s' := Go(c, s0, s', Route);
    assert s'.router.queues[i] == [request];
    s' := Go(c, s0, s', Check(i));
    s' := Go(c, s0, s', Take(i));
    assert s'.router.queues == s.router.queues;
  }

  /** Consensus gets the blockchain lock and adds a block. */
  lemma Written(c: Config, s0: State, s: State) returns (s': State)
    requires Shaped(s0) && Shaped(s) && Reaches(c, s0, s) && Waits(s.consensus) && ChainUnread(s)
    ensures Shaped(s') && Reaches(c, s0, s') && s' == s.(consensus := Telling(true))
  {
    s' := Go(c, s0, s, Write);
    s' := Go(c, s0, s', Add(true));
  }

  lemma RouterTold(c: Config, s0: State, s: State) returns (s': State)
    requires Shaped(s0) && Shaped(s) && Reaches(c, s0, s) && s.consensus == Telling(false) && PeersFree(s)
    requires s.updates < c.channelCapacity
    ensures Shaped(s') && Reaches(c, s0, s') && s' == s.(consensus := Resting, updates := s.updates + 1)
  {
    s' := Go(c, s0, s, TellRouter);
    s' := Go(c, s0, s', Finish);
  }

  /** It sends the news of it and is done. */
  lemma Told(c: Config, s0: State, s: State) returns (s': State)
    requires Shaped(s0) && Shaped(s) && Reaches(c, s0, s) && s.consensus == Telling(true) && PeersFree(s)
    requires s.miner.inbox < c.channelCapacity && s.updates < c.channelCapacity
    ensures Shaped(s') && Reaches(c, s0, s')
    ensures s' == s.(consensus := Resting, miner := s.miner.(inbox := s.miner.inbox + 1), updates := s.updates + 1)
  {
    s' := Go(c, s0, s, TellMiner);
    s' := RouterTold(c, s0, s');
  }

  /** With all threads idle both go through. */
  lemma AddBlock(c: Config, s0: State, s: State) returns (s': State)
    requires Shaped(s0) && Shaped(s) && Reaches(c, s0, s) && Waits(s.consensus)
    requires forall i :: 0 <= i < |s.threads| ==> s.threads[i] == Idle
    requires s.miner.inbox < c.channelCapacity && s.updates < c.channelCapacity
    ensures Shaped(s') && Reaches(c, s0, s')
    ensures s' == s.(consensus := Resting, miner := s.miner.(inbox := s.miner.inbox + 1), updates := s.updates + 1)
  {
    s' := Written(c, s0, s);
    s' := Told(c, s0, s');
  }
}

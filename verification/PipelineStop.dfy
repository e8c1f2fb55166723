/**
 With more than 16 verification threads, and the miner, the pipeline can come to a stop for good although
 consensus's gate is open: a run that fills the channel while a sender holds the locks consensus waits for.
 */
module PipelineStop {
  import opened Options
  import opened Pipeline
  import opened PipelineInvariants
  import opened PipelineRuns
  import opened PipelineProgress
  import Dispatch

  lemma StepStuck(c: Config, s: State, step: Step)
    requires Shaped(s) && Exclusive(s) && Stuck(c, s) && Enabled(c, s, step)
    ensures var s' := Apply(c, s, step);
            Stuck(c, s') && s'.log == s.log && s'.channel == s.channel && s'.taken == s.taken
  {
    var t: nat :| t < |s.threads| && s.threads[t].Sending? && s.threads[t].request.VerifyTransaction?;
    StepStuckAt(c, s, t, step);
  }

  lemma StepStuckAt(c: Config, s: State, t: nat, step: Step)
    requires Shaped(s) && Exclusive(s) && Stuck(c, s) && Enabled(c, s, step)
    requires t < |s.threads| && s.threads[t].Sending? && s.threads[t].request.VerifyTransaction?
    ensures var s' := Apply(c, s, step);
            && Stuck(c, s') && s'.log == s.log && s'.channel == s.channel && s'.taken == s.taken
            && s'.threads[t] == s.threads[t]
  {
    assert HoldsPeers(s.threads[t]) && HoldsChain(s.threads[t]);
    forall i | 0 <= i < |s.threads| && i != t ensures !HoldsPeers(s.threads[i]) {
    }
    assert Apply(c, s, step).threads[t] == s.threads[t];
  }

  /** Then, whatever happens, nothing is ever sent, taken or finished again. */
  lemma {:induction false} StuckForever(c: Config, s: State, steps: seq<Step>)
    requires Shaped(s) && Inv(c, s) && Stuck(c, s) && Runs(c, s, steps)
    ensures var s' := Run(c, s, steps);
            Stuck(c, s') && s'.log == s.log && s'.channel == s.channel && s'.taken == s.taken
    decreases |steps|
  {
    if steps != [] {
      StepStuck(c, s, steps[0]);
      StepInv(c, s, steps[0]);
      StuckForever(c, Apply(c, s, steps[0]), steps[1..]);
    }
  }

  function Plain(): Request {
    VerifyTransaction(Transaction([], None))
  }

  /** A thread with a transaction, nobody else holding a lock, gets both locks. */
  lemma LockBoth(c: Config, s0: State, s: State, i: nat) returns (s': State)
    requires Shaped(s0) && Shaped(s) && Reaches(c, s0, s) && i < |s.threads|
    requires s.threads[i] == Working(Plain()) && !Writes(s.consensus) && PeersFree(s)
    ensures Shaped(s') && Reaches(c, s0, s')
    ensures s' == Move(s, i, Sending(Plain(), NewTransaction(Transaction([], None))))
  {
    s' := Go(c, s0, s, LockChain(i));
    assert PeersFree(s');
    s' := Go(c, s0, s', LockPeers(i));
    s' := Go(c, s0, s', Decide(i, true));
  }

  // Waking the miner, and filling the channel up to where the gate is open for the last time.

  /** Everyone is at rest; the miner may be active. */
  ghost predicate Quiet(s: State, threads: nat) {
    && Shaped(s) && |s.threads| == threads && s.inbox == [] && !s.routerReady && s.consensus == Resting
    && (forall i :: 0 <= i < threads ==> s.router.queues[i] == [])
    && (forall i :: 0 <= i < threads ==> s.threads[i] == Idle)
    && s.miner.inbox == 0 && !s.miner.ready && s.updates <= 1
  }

  lemma StartsQuiet(threads: nat)
    requires 0 < threads
    ensures Quiet(Initial(threads), threads)
  {
  }

  /** A transaction arrives, and a thread verifies it and sends it on. */
  lemma Pass(c: Config, s0: State, s: State, threads: nat) returns (s': State)
    requires Shaped(s0) && Quiet(s, threads) && Reaches(c, s0, s)
    requires GateOpen(c, s) && Sized(c)
    ensures Quiet(s', threads) && s'.updates == s.updates && s'.miner == s.miner && Reaches(c, s0, s')
    ensures s'.channel == s.channel + [NewTransaction(Transaction([], None))]
  {
    var i := Dispatch.Slot(s.router.last, 1, threads);
    s' := Load(c, s0, s, i, Plain());
    s' := LockBoth(c, s0, s', i);
    s' := Go(c, s0, s', Send(i));
  }

  /** Consensus takes a transaction. */
  lemma TakeIn(c: Config, s0: State, s: State) returns (s': State)
    requires Shaped(s0) && Shaped(s) && Reaches(c, s0, s) && s.consensus == Resting
    requires ConsensusGate(c, s) && s.channel == [NewTransaction(Transaction([], None))]
    ensures Shaped(s') && Reaches(c, s0, s') && s' == s.(channel := [], taken := s.taken + s.channel)
  {
    s' := Go(c, s0, s, ConsensusCheck);
    s' := Go(c, s0, s', Consume);
    s' := Go(c, s0, s', Settle);
  }

  /** Consensus takes a transaction and produces a block with it; the miner hears of that and goes to work. */
  lemma Wake(c: Config, s0: State, s: State, threads: nat) returns (s': State)
    requires Shaped(s0) && Quiet(s, threads) && Reaches(c, s0, s)
    requires s.channel == [NewTransaction(Transaction([], None))]
    requires Sized(c) && s.updates == 0
    ensures Quiet(s', threads) && s'.miner.active && s'.channel == [] && Reaches(c, s0, s')
  {
    s' := TakeIn(c, s0, s);
    s' := Go(c, s0, s', Bundle);
    s' := AddBlock(c, s0, s');
    s' := Go(c, s0, s', MinerCheck);
    s' := Go(c, s0, s', MinerTake);
  }

  lemma {:induction false} Fill(c: Config, s0: State, s: State, threads: nat) returns (s': State)
    requires Shaped(s0) && Quiet(s, threads) && Reaches(c, s0, s) && s.miner.active
    requires |s.channel| + LIMIT <= c.channelCapacity && Sized(c)
    ensures Quiet(s', threads) && Reaches(c, s0, s') && s'.miner.active && |s'.channel| + LIMIT == c.channelCapacity
    decreases c.channelCapacity - |s.channel|
  {
    if |s.channel| + LIMIT == c.channelCapacity {
      s' := s;
    } else {
      s' := Pass(c, s0, s, threads);
      s' := Fill(c, s0, s', threads);
    }
  }

  // Seventeen threads passing the gate, and sixteen of them sending.

  const LIMIT: nat := 17

  /** Successive turns, no more than there are queues, fall on different queues. */
  lemma Apart(base: nat, m: nat, m': nat, threads: nat)
    requires 1 <= m < m' <= threads
    ensures Dispatch.Slot(base, m, threads) != Dispatch.Slot(base, m', threads)
  {
    Dispatch.SlotAhead(base, m - 1, threads);
    Dispatch.SlotAhead(base, m' - 1, threads);
  }

  /** The requests numbered lo + 1 to hi after the first base are being worked on, those up to lo have been sent. */
  ghost predicate Crowd(c: Config, s: State, threads: nat, base: nat, lo: nat, hi: nat) {
    && lo <= hi <= LIMIT <= threads && Sized(c) && s.updates <= 1
    && Shaped(s) && |s.threads| == threads
    && s.inbox == [] && !s.routerReady && s.router.last == base + hi
    && (forall i :: 0 <= i < threads ==> s.router.queues[i] == [])
    && (forall m :: lo < m <= hi ==> s.threads[Dispatch.Slot(base, m, threads)] == Working(Plain()))
    && (forall i :: 0 <= i < threads && (forall m :: lo < m <= hi ==> i != Dispatch.Slot(base, m, threads))
          ==> s.threads[i] == Idle)
    && s.miner == Miner(0, false, true) && s.consensus == Resting
    && |s.channel| == c.channelCapacity - LIMIT + lo
  }

  lemma LoadOne(c: Config, s0: State, s: State, threads: nat, base: nat, hi: nat) returns (s': State)
    requires Shaped(s0) && Crowd(c, s, threads, base, 0, hi) && hi < LIMIT && Reaches(c, s0, s)
    ensures Crowd(c, s', threads, base, 0, hi + 1) && Reaches(c, s0, s')
  {
    forall m | 1 <= m <= hi ensures Dispatch.Slot(base, m, threads) != Dispatch.Slot(base, hi + 1, threads) {
      Apart(base, m, hi + 1, threads);
    }
    s' := Load(c, s0, s, Dispatch.Slot(base, hi + 1, threads), Plain());
  }

  /** The next thread gets both locks and sends. */
  lemma SendOne(c: Config, s0: State, s: State, threads: nat, base: nat, lo: nat) returns (s': State)
    requires Shaped(s0) && Crowd(c, s, threads, base, lo, LIMIT) && lo < LIMIT && Reaches(c, s0, s)
    ensures Crowd(c, s', threads, base, lo + 1, LIMIT) && Reaches(c, s0, s')
  {
    var i := Dispatch.Slot(base, lo + 1, threads);
    NobodyLocks(c, s, threads, base, lo);
    forall m | lo + 1 < m <= LIMIT ensures Dispatch.Slot(base, m, threads) != i {
      Apart(base, lo + 1, m, threads);
    }
    s' := LockBoth(c, s0, s, i);
    s' := Go(c, s0, s', Send(i));
    assert s'.threads == s.threads[i := Idle];
  }

  lemma NobodyLocks(c: Config, s: State, threads: nat, base: nat, lo: nat)
    requires Crowd(c, s, threads, base, lo, LIMIT)
    ensures forall i :: 0 <= i < threads ==> s.threads[i] == Idle || s.threads[i] == Working(Plain())
  {
    forall i | 0 <= i < threads ensures s.threads[i] == Idle || s.threads[i] == Working(Plain()) {
      if m: nat :| lo < m <= LIMIT && i == Dispatch.Slot(base, m, threads) {
        assert s.threads[Dispatch.Slot(base, m, threads)] == Working(Plain());
      }
    }
  }

  lemma {:induction false} LoadAll(c: Config, s0: State, s: State, threads: nat, base: nat, hi: nat)
    returns (s': State)
    requires Shaped(s0) && Crowd(c, s, threads, base, 0, hi) && Reaches(c, s0, s)
    ensures Crowd(c, s', threads, base, 0, LIMIT) && Reaches(c, s0, s')
    decreases LIMIT - hi
  {
    if hi == LIMIT {
      s' := s;
    } else {
      s' := LoadOne(c, s0, s, threads, base, hi);
      s' := LoadAll(c, s0, s', threads, base, hi + 1);
    }
  }

  lemma {:induction false} SendAllButOne(c: Config, s0: State, s: State, threads: nat, base: nat, lo: nat)
    returns (s': State)
    requires Shaped(s0) && Crowd(c, s, threads, base, lo, LIMIT) && lo < LIMIT && Reaches(c, s0, s)
    ensures Crowd(c, s', threads, base, LIMIT - 1, LIMIT) && Reaches(c, s0, s')
    decreases LIMIT - lo
  {
    if lo == LIMIT - 1 {
      s' := s;
    } else {
      s' := SendOne(c, s0, s, threads, base, lo);
      s' := SendAllButOne(c, s0, s', threads, base, lo + 1);
    }
  }

  /** The miner takes the last place, the last thread gets both locks, and consensus's timer fires. */
  lemma CloseUp(c: Config, s0: State, s: State, threads: nat, base: nat) returns (s': State)
    requires Shaped(s0) && Crowd(c, s, threads, base, LIMIT - 1, LIMIT) && Reaches(c, s0, s)
    ensures Shaped(s') && Reaches(c, s0, s') && Stuck(c, s') && Listens(c, s')
  {
    var i := Dispatch.Slot(base, LIMIT, threads);
    NobodyLocks(c, s, threads, base, LIMIT - 1);
    s' := LockBoth(c, s0, s, i);
    s' := Go(c, s0, s', Mine);
    s' := Go(c, s0, s', Bundle);
    assert s'.threads[i].Sending?;
  }

  /** With 17 threads or more, and the miner, there is a run that ends stuck. */
  lemma StuckRun(c: Config, threads: nat) returns (steps: seq<Step>)
    requires threads > Dispatch.CHANNEL_SAFE_BUFFER && Sized(c)
    ensures Shaped(Initial(threads)) && Runs(c, Initial(threads), steps)
    ensures Stuck(c, Run(c, Initial(threads), steps)) && Listens(c, Run(c, Initial(threads), steps))
  {
    var s0 := Initial(threads);
    StartsQuiet(threads);
    Stay(c, s0);
    var s := Pass(c, s0, s0, threads);
    s := Wake(c, s0, s, threads);
    s := Fill(c, s0, s, threads);
    var base := s.router.last;
    s := LoadAll(c, s0, s, threads, base, 0);
    s := SendAllButOne(c, s0, s, threads, base, 0);
    s := CloseUp(c, s0, s, threads, base);
    steps := StepsTo(c, s0, s);
  }

  /** Some run comes to where the work can never be all done, although consensus's gate is open. */
  ghost predicate CanStop(c: Config, threads: nat)
    requires 0 < threads
  {
    exists steps ::
      && Runs(c, Initial(threads), steps) && Listens(c, Run(c, Initial(threads), steps))
      && NeverDrains(c, Run(c, Initial(threads), steps))
  }

  lemma StuckNeverDrains(c: Config, s: State)
    requires Shaped(s) && Inv(c, s) && Stuck(c, s) && Sized(c)
    ensures NeverDrains(c, s)
  {
    forall more | Runs(c, s, more) ensures !Drained(Run(c, s, more)) {
      StuckForever(c, s, more);
    }
  }

  /**
   With consensus's gate open, there is a state that no continuation finishes the work from, exactly if
   there are more verification threads than the margin has places.
   */
  lemma MarginExactly(c: Config, threads: nat)
    requires 0 < threads && Sized(c)
    ensures CanStop(c, threads) <==> threads > Dispatch.CHANNEL_SAFE_BUFFER
  {
    if threads <= Dispatch.CHANNEL_SAFE_BUFFER {
      forall steps | Runs(c, Initial(threads), steps) && Listens(c, Run(c, Initial(threads), steps))
        ensures !NeverDrains(c, Run(c, Initial(threads), steps))
      {
        var more := AlwaysCanDrain(c, threads, steps);
      }
    } else {
      var steps := StuckRun(c, threads);
      StartsWell(c, threads);
      RunInv(c, Initial(threads), steps);
      StuckNeverDrains(c, Run(c, Initial(threads), steps));
    }
  }
}

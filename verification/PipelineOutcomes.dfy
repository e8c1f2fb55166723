/**
 Who is marked and what is handed over, told from the steps of a run: from what was decided about each
 transaction and what each buffer decodes to.
 */
module PipelineOutcomes {
  import opened Options
  import opened Pipeline
  import opened PipelineInvariants

  // ----- marks -----

  /** Who a step blames: the peer of a transaction decided against, or of a buffer that is not what was asked for. */
  ghost function Blamed(c: Config, s: State, step: Step): seq<Mark>
    requires Shaped(s) && Enabled(c, s, step)
  {
    if step.Decide? && !step.accepted && s.threads[step.thread].request.VerifyTransaction? then
      var from := s.threads[step.thread].request.transaction.routedFrom;
      if from.Some? then [Mark(from.value, InvalidTransactions)] else []
    else if step.MarkPeer? && s.threads[step.thread].request.VerifyBlock? then
      var r := s.threads[step.thread].request;
      if IsAsked(c.decode, r.buffer, r.hash, r.id) then [] else [Mark(r.peer, InvalidBlocks)]
    else []
  }

  ghost function BlamedIn(c: Config, s: State, steps: seq<Step>): seq<Mark>
    requires Shaped(s) && Runs(c, s, steps)
    decreases |steps|
  {
    if steps == [] then []
    else Blamed(c, s, steps[0]) + BlamedIn(c, Apply(c, s, steps[0]), steps[1..])
  }

  lemma DecideMarks(c: Config, s: State, i: nat, accepted: bool)
    requires Shaped(s) && AllStaged(c, s) && Enabled(c, s, Decide(i, accepted))
    ensures Marks(Apply(c, s, Decide(i, accepted)).log) == Marks(s.log) + Blamed(c, s, Decide(i, accepted))
  {
    assert Staged(c.decode, s.threads[i]);
    if accepted {
      assert Marks(s.log) + [] == Marks(s.log);
    } else {
      Appended(s.log, Record(s.threads[i].request, Verdict(c.decode, s.threads[i].request, false)));
    }
  }

  lemma MarkPeerMarks(c: Config, s: State, i: nat)
    requires Shaped(s) && AllStaged(c, s) && Enabled(c, s, MarkPeer(i))
    ensures Marks(Apply(c, s, MarkPeer(i)).log) == Marks(s.log) + Blamed(c, s, MarkPeer(i))
  {
    assert Staged(c.decode, s.threads[i]);
    Appended(s.log, Record(s.threads[i].request, Verdict(c.decode, s.threads[i].request, true)));
  }

  lemma StepMarks(c: Config, s: State, step: Step)
    requires Shaped(s) && AllStaged(c, s) && Enabled(c, s, step)
    ensures Marks(Apply(c, s, step).log) == Marks(s.log) + Blamed(c, s, step)
  {
    assert Marks(s.log) + [] == Marks(s.log);
    if step.Decide? {
      DecideMarks(c, s, step.thread, step.accepted);
    } else if step.MarkPeer? {
      MarkPeerMarks(c, s, step.thread);
    } else if step.Send? {
      Appended(s.log, Record(s.threads[step.thread].request, Handed(s.threads[step.thread].event)));
    }
  }

  lemma AfterStep(c: Config, s: State, step: Step) returns (s': State)
    requires Shaped(s) && Inv(c, s) && Enabled(c, s, step)
    ensures s' == Apply(c, s, step) && Shaped(s') && Inv(c, s')
  {
    s' := Apply(c, s, step);
    StepInv(c, s, step);
  }

  /** Over any run, the marks are exactly those: no peer is marked for anything else, and none is let off. */
  lemma {:induction false} MarksExactly(c: Config, s: State, steps: seq<Step>)
    requires Shaped(s) && Inv(c, s) && Runs(c, s, steps)
    ensures Marks(Run(c, s, steps).log) == Marks(s.log) + BlamedIn(c, s, steps)
    decreases |steps|
  {
    if steps == [] {
      assert Marks(s.log) + [] == Marks(s.log);
    } else {
      var s' := AfterStep(c, s, steps[0]);
      StepMarks(c, s, steps[0]);
      MarksExactly(c, s', steps[1..]);
      Regroup(Marks(s.log), Blamed(c, s, steps[0]), BlamedIn(c, s', steps[1..]));
    }
  }

  lemma Regroup<T>(a: seq<T>, b: seq<T>, d: seq<T>)
    ensures a + b + d == a + (b + d)
  {
  }

  // ----- transactions handed over -----

  function HandedTimes(log: seq<Record>, tx: Transaction): nat {
    if log == [] then 0
    else
      var last := log[|log| - 1];
      HandedTimes(log[..|log| - 1], tx)
      + if last == Record(VerifyTransaction(tx), Handed(NewTransaction(tx))) then 1 else 0
  }

  function SendingTimes(threads: seq<Stage>, tx: Transaction): nat {
    if threads == [] then 0
    else
      (if threads[0].Sending? && threads[0].request == VerifyTransaction(tx) then 1 else 0)
      + SendingTimes(threads[1..], tx)
  }

  /** How often it has been handed over or is about to be. */
  function HandsOf(s: State, tx: Transaction): nat {
    HandedTimes(s.log, tx) + SendingTimes(s.threads, tx)
  }

  /** A step that decides for it. */
  predicate Accepts(s: State, step: Step, tx: Transaction) {
    && step.Decide? && step.accepted && step.thread < |s.threads| && s.threads[step.thread].Locked?
    && s.threads[step.thread].request == VerifyTransaction(tx)
  }

  /** How often a transaction has been decided for. */
  ghost function AcceptedIn(c: Config, s: State, steps: seq<Step>, tx: Transaction): nat
    requires Shaped(s) && Runs(c, s, steps)
    decreases |steps|
  {
    if steps == [] then 0
    else
      (if Accepts(s, steps[0], tx) then 1 else 0) + AcceptedIn(c, Apply(c, s, steps[0]), steps[1..], tx)
  }

  lemma HandedNext(log: seq<Record>, r: Record, tx: Transaction)
    ensures HandedTimes(log + [r], tx)
            == HandedTimes(log, tx) + if r == Record(VerifyTransaction(tx), Handed(NewTransaction(tx))) then 1 else 0
  {
    assert (log + [r])[..|log|] == log;
  }

  lemma {:induction false} SendingUpdate(threads: seq<Stage>, i: nat, stage: Stage, tx: Transaction)
    requires i < |threads|
    ensures SendingTimes(threads[i := stage], tx)
            + (if threads[i].Sending? && threads[i].request == VerifyTransaction(tx) then 1 else 0)
            == SendingTimes(threads, tx) + if stage.Sending? && stage.request == VerifyTransaction(tx) then 1 else 0
  {
    if i == 0 {
      assert threads[i := stage][1..] == threads[1..];
    } else {
      assert threads[i := stage][1..] == threads[1..][i - 1 := stage];
      SendingUpdate(threads[1..], i - 1, stage, tx);
    }
  }

  /** A step of thread i, from its stage and log to the next. */
  lemma ThreadHands(s: State, s': State, i: nat, tx: Transaction)
    requires i < |s.threads| == |s'.threads| && s'.threads == s.threads[i := s'.threads[i]]
    requires s'.log == s.log || (|s'.log| == |s.log| + 1 && s'.log[..|s.log|] == s.log)
    ensures HandedTimes(s'.log, tx) + SendingTimes(s'.threads, tx)
            + (if s.threads[i].Sending? && s.threads[i].request == VerifyTransaction(tx) then 1 else 0)
         == HandedTimes(s.log, tx) + SendingTimes(s.threads, tx)
            + (if s'.threads[i].Sending? && s'.threads[i].request == VerifyTransaction(tx) then 1 else 0)
            + (if s'.log != s.log && s'.log[|s.log|] == Record(VerifyTransaction(tx), Handed(NewTransaction(tx)))
               then 1 else 0)
  {
    SendingUpdate(s.threads, i, s'.threads[i], tx);
    if s'.log != s.log {
      assert s'.log == s.log + [s'.log[|s.log|]];
      HandedNext(s.log, s'.log[|s.log|], tx);
    }
  }

  predicate OfThread(step: Step) {
    || step.Check? || step.Tick? || step.Take? || step.Decode? || step.LockChain? || step.LockPeers?
    || step.Decide? || step.MarkPeer? || step.Send?
  }

  lemma StepHands(c: Config, s: State, step: Step, tx: Transaction)
    requires Shaped(s) && AllStaged(c, s) && Enabled(c, s, step)
    ensures HandsOf(Apply(c, s, step), tx) == HandsOf(s, tx) + if Accepts(s, step, tx) then 1 else 0
  {
    if OfThread(step) {
      assert Staged(c.decode, s.threads[step.thread]);
      ThreadHands(s, Apply(c, s, step), step.thread, tx);
    }
  }

  /** Over any run, a transaction has been handed over, or is about to be, exactly as often as it was decided for. */
  lemma {:induction false} HandedAsAccepted(c: Config, s: State, steps: seq<Step>, tx: Transaction)
    requires Shaped(s) && Inv(c, s) && Runs(c, s, steps)
    ensures HandsOf(Run(c, s, steps), tx) == HandsOf(s, tx) + AcceptedIn(c, s, steps, tx)
    decreases |steps|
  {
    if steps != [] {
      var s' := AfterStep(c, s, steps[0]);
      StepHands(c, s, steps[0], tx);
      HandedAsAccepted(c, s', steps[1..], tx);
    }
  }
}

/** What the pipeline does with the requests that arrive: none lost, none doubled, and when in order. */
module PipelineProofs {
  import opened Pipeline
  import Dispatch

  // ----- every request is consumed exactly once -----

  function Times(list: seq<Request>, r: Request): nat {
    if list == [] then 0 else (if list[0] == r then 1 else 0) + Times(list[1..], r)
  }

  function TimesIn(lists: seq<seq<Request>>, r: Request): nat {
    if lists == [] then 0 else Times(lists[0], r) + TimesIn(lists[1..], r)
  }

  function TimesHeld(threads: seq<Stage>, r: Request): nat {
    if threads == [] then 0 else Times(Hand(threads[0]), r) + TimesHeld(threads[1..], r)
  }

  lemma {:induction false} TimesAppend(list: seq<Request>, x: Request, r: Request)
    ensures Times(list + [x], r) == Times(list, r) + if x == r then 1 else 0
  {
    if list == [] {
      assert ([x])[1..] == [];
    } else {
      TimesAppend(list[1..], x, r);
      assert (list + [x])[1..] == list[1..] + [x];
    }
  }

  lemma {:induction false} TimesIsMultiplicity(list: seq<Request>, r: Request)
    ensures multiset(list)[r] == Times(list, r)
  {
    if list != [] {
      assert list == [list[0]] + list[1..];
      TimesIsMultiplicity(list[1..], r);
    }
  }

  lemma {:induction false} TimesUpdate(lists: seq<seq<Request>>, i: nat, list: seq<Request>, r: Request)
    requires i < |lists|
    ensures TimesIn(lists[i := list], r) + Times(lists[i], r) == TimesIn(lists, r) + Times(list, r)
  {
    if i == 0 {
      assert lists[i := list][1..] == lists[1..];
    } else {
      assert lists[i := list][1..] == lists[1..][i - 1 := list];
      TimesUpdate(lists[1..], i - 1, list, r);
    }
  }

  lemma {:induction false} HeldUpdate(threads: seq<Stage>, i: nat, stage: Stage, r: Request)
    requires i < |threads|
    ensures TimesHeld(threads[i := stage], r) + Times(Hand(threads[i]), r)
            == TimesHeld(threads, r) + Times(Hand(stage), r)
  {
    if i == 0 {
      assert threads[i := stage][1..] == threads[1..];
    } else {
      assert threads[i := stage][1..] == threads[1..][i - 1 := stage];
      HeldUpdate(threads[1..], i - 1, stage, r);
    }
  }

  lemma {:induction false} TimesNone(lists: seq<seq<Request>>, r: Request)
    requires forall i :: 0 <= i < |lists| ==> lists[i] == []
    ensures TimesIn(lists, r) == 0
  {
    if lists != [] {
      TimesNone(lists[1..], r);
    }
  }

  lemma {:induction false} HeldNone(threads: seq<Stage>, r: Request)
    requires forall i :: 0 <= i < |threads| ==> Hand(threads[i]) == []
    ensures TimesHeld(threads, r) == 0
  {
    if threads != [] {
      HeldNone(threads[1..], r);
    }
  }

  /** How often a request is in the system, finished or not. */
  function Total(s: State, r: Request): nat {
    Times(s.inbox, r) + TimesIn(s.router.queues, r) + TimesHeld(s.threads, r) + Times(Requests(s.log), r)
  }

  lemma RouteTotal(c: Config, s: State, r: Request)
    requires Shaped(s) && Enabled(c, s, Route)
    ensures Total(Apply(c, s, Route), r) == Total(s, r)
  {
    var queues, queues' := s.router.queues, Apply(c, s, Route).router.queues;
    var i := Apply(c, s, Route).router.last % |queues|;
    assert queues' == queues[i := queues[i] + [s.inbox[0]]];
    TimesUpdate(queues, i, queues[i] + [s.inbox[0]], r);
    TimesAppend(queues[i], s.inbox[0], r);
  }

  lemma TakeTotal(c: Config, s: State, i: nat, r: Request)
    requires Shaped(s) && Enabled(c, s, Take(i))
    ensures Total(Apply(c, s, Take(i)), r) == Total(s, r)
  {
    var queue := s.router.queues[i];
    TimesUpdate(s.router.queues, i, queue[1..], r);
    HeldUpdate(s.threads, i, Working(queue[0]), r);
    assert [queue[0]][1..] == [];
  }

  lemma DoneTotal(s: State, i: nat, outcome: Outcome, r: Request)
    requires Busy(s, i)
    ensures Total(Done(s, i, outcome), r) == Total(s, r)
  {
    var request := s.threads[i].request;
    HeldUpdate(s.threads, i, Idle, r);
    assert [request][1..] == [];
    Appended(s.log, Record(request, outcome));
    TimesAppend(Requests(s.log), request, r);
  }

  /** A thread goes on with the request it has. */
  lemma MoveTotal(s: State, i: nat, stage: Stage, r: Request)
    requires i < |s.threads| && Hand(stage) == Hand(s.threads[i])
    ensures Total(Move(s, i, stage), r) == Total(s, r)
  {
    HeldUpdate(s.threads, i, stage, r);
  }

  lemma StepTotal(c: Config, s: State, step: Step, r: Request)
    requires Shaped(s) && Enabled(c, s, step)
    ensures Total(Apply(c, s, step), r) == Total(s, r) + if step == Arrive(r) then 1 else 0
  {
    match step {
      case Arrive(request) => TimesAppend(s.inbox, request, r);
      case Route => RouteTotal(c, s, r);
      case Check(i) => MoveTotal(s, i, Ready, r);
      case Tick(i) => MoveTotal(s, i, Idle, r);
      case Take(i) => TakeTotal(c, s, i, r);
      case Decode(i) => MoveTotal(s, i, Apply(c, s, step).threads[i], r);
      case LockChain(i) => MoveTotal(s, i, Reading(s.threads[i].request), r);
      case LockPeers(i) => MoveTotal(s, i, Locked(s.threads[i].request), r);
      case Decide(i, accepted) =>
        var request := s.threads[i].request;
        var verdict := Verdict(c.decode, request, accepted);
        if verdict.Handed? {
          MoveTotal(s, i, Sending(request, verdict.event), r);
        } else {
          DoneTotal(s, i, verdict, r);
        }
      case MarkPeer(i) => DoneTotal(s, i, Verdict(c.decode, s.threads[i].request, true), r);
      case Send(i) => DoneTotal(s, i, Handed(s.threads[i].event), r);
      case _ => {}
    }
  }

  /** Whatever the interleaving, no request is lost and none is doubled. */
  lemma {:induction false} Conserved(c: Config, s: State, steps: seq<Step>, r: Request)
    requires Shaped(s) && Runs(c, s, steps)
    ensures Total(Run(c, s, steps), r) == Total(s, r) + Times(Arrivals(steps), r)
    decreases |steps|
  {
    if steps != [] {
      StepTotal(c, s, steps[0], r);
      Conserved(c, Apply(c, s, steps[0]), steps[1..], r);
      if steps[0].Arrive? {
        assert Arrivals(steps)[1..] == Arrivals(steps[1..]);
      }
    }
  }

  lemma NothingYet(threads: nat, r: Request)
    ensures Total(Initial(threads), r) == 0
  {
    TimesNone(Initial(threads).router.queues, r);
    HeldNone(Initial(threads).threads, r);
  }

  lemma OnlyDone(s: State, r: Request)
    requires Drained(s)
    ensures Total(s, r) == Times(Requests(s.log), r)
  {
    TimesNone(s.router.queues, r);
    HeldNone(s.threads, r);
  }

  lemma SameMultiset(a: seq<Request>, b: seq<Request>)
    requires forall r :: Times(a, r) == Times(b, r)
    ensures multiset(a) == multiset(b)
  {
    forall r: Request ensures multiset(a)[r] == multiset(b)[r] {
      TimesIsMultiplicity(a, r);
      TimesIsMultiplicity(b, r);
    }
  }

  /** Once nothing is under way, each request that arrived has had exactly one outcome. */
  lemma ConsumedExactlyOnce(c: Config, threads: nat, steps: seq<Step>)
    requires 0 < threads && Runs(c, Initial(threads), steps) && Drained(Run(c, Initial(threads), steps))
    ensures multiset(Requests(Run(c, Initial(threads), steps).log)) == multiset(Arrivals(steps))
  {
    var s := Run(c, Initial(threads), steps);
    forall r ensures Times(Requests(s.log), r) == Times(Arrivals(steps), r) {
      Conserved(c, Initial(threads), steps, r);
      NothingYet(threads, r);
      OnlyDone(s, r);
    }
    SameMultiset(Requests(s.log), Arrivals(steps));
  }

  // ----- one verification thread keeps the order of arrival -----

  function Line(done: seq<Request>, hand: seq<Request>, queue: seq<Request>, inbox: seq<Request>): seq<Request> {
    done + hand + queue + inbox
  }

  /** Moving the head of one part to the end of the part before it leaves the line as it is. */
  lemma LineMoves(d: seq<Request>, h: seq<Request>, q: seq<Request>, i: seq<Request>, x: Request)
    ensures Line(d, h, q, i + [x]) == Line(d, h, q, i) + [x]
    ensures Line(d, h, q + [x], i) == Line(d, h, q, [x] + i)
    ensures Line(d, [x], q, i) == Line(d, [], [x] + q, i)
    ensures Line(d + [x], [], q, i) == Line(d, [x], q, i)
  {
  }

  function Order(s: State): seq<Request>
    requires |s.router.queues| == |s.threads| == 1
  {
    Line(Requests(s.log), Hand(s.threads[0]), s.router.queues[0], s.inbox)
  }

  lemma RouteOrder(c: Config, s: State)
    requires Shaped(s) && |s.threads| == 1 && Enabled(c, s, Route)
    ensures Order(Apply(c, s, Route)) == Order(s)
  {
    var queue, queue' := s.router.queues[0], Apply(c, s, Route).router.queues[0];
    assert queue' == queue + [s.inbox[0]];
    assert s.inbox == [s.inbox[0]] + s.inbox[1..];
    LineMoves(Requests(s.log), Hand(s.threads[0]), queue, s.inbox[1..], s.inbox[0]);
  }

  lemma TakeOrder(c: Config, s: State)
    requires Shaped(s) && |s.threads| == 1 && Enabled(c, s, Take(0))
    ensures Order(Apply(c, s, Take(0))) == Order(s)
  {
    var queue := s.router.queues[0];
    assert queue == [queue[0]] + queue[1..];
    LineMoves(Requests(s.log), [], queue[1..], s.inbox, queue[0]);
  }

  lemma DoneOrder(s: State, outcome: Outcome)
    requires |s.router.queues| == |s.threads| == 1 && Busy(s, 0)
    ensures Order(Done(s, 0, outcome)) == Order(s)
  {
    var request := s.threads[0].request;
    Appended(s.log, Record(request, outcome));
    LineMoves(Requests(s.log), [request], s.router.queues[0], s.inbox, request);
  }

  lemma StepOrder(c: Config, s: State, step: Step)
    requires Shaped(s) && |s.threads| == 1 && Enabled(c, s, step)
    ensures Order(Apply(c, s, step)) == Order(s) + if step.Arrive? then [step.request] else []
  {
    match step {
      case Arrive(request) => LineMoves(Requests(s.log), Hand(s.threads[0]), s.router.queues[0], s.inbox, request);
      case Route => RouteOrder(c, s);
      case Take(_) => TakeOrder(c, s);
      case Decide(_, accepted) =>
        var verdict := Verdict(c.decode, s.threads[0].request, accepted);
        if !verdict.Handed? {
          DoneOrder(s, verdict);
        }
      case MarkPeer(_) => DoneOrder(s, Verdict(c.decode, s.threads[0].request, true));
      case Send(_) => DoneOrder(s, Handed(s.threads[0].event));
      case _ => {}
    }
  }

  lemma ArrivalsNext(before: seq<Request>, steps: seq<Step>)
    requires steps != []
    ensures before + (if steps[0].Arrive? then [steps[0].request] else []) + Arrivals(steps[1..])
            == before + Arrivals(steps)
  {
  }

  /** With a single verification thread outcomes come in the order of arrival. */
  lemma {:induction false} OrderKept(c: Config, s: State, steps: seq<Step>)
    requires Shaped(s) && |s.threads| == 1 && Runs(c, s, steps)
    ensures Order(Run(c, s, steps)) == Order(s) + Arrivals(steps)
    decreases |steps|
  {
    if steps == [] {
      assert Order(s) + [] == Order(s);
    } else {
      StepOrder(c, s, steps[0]);
      OrderKept(c, Apply(c, s, steps[0]), steps[1..]);
      ArrivalsNext(Order(s), steps);
    }
  }
}

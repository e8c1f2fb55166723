/**
 Round-robin dispatch of requests to bounded verification queues.

 A queue is the list of requests waiting in it; it is full at its capacity. The dispatch counter is
 unbounded.
 */
module Dispatch {

  const CHANNEL_SAFE_BUFFER: nat := 16

  predicate HasRoom<T>(queue: seq<T>, capacity: nat) {
    |queue| < capacity
  }

  predicate SomeRoom<T>(queues: seq<seq<T>>, capacity: nat) {
    exists i :: 0 <= i < |queues| && HasRoom(queues[i], capacity)
  }

  /** The queue tried t turns after the counter stood at last. */
  function Slot(last: nat, t: nat, n: nat): (i: nat)
    requires 0 < n
    ensures i < n
  {
    (last + t) % n
  }

  /** The gate in front of the router: it takes an event only when every queue has room to spare. */
  predicate Ready<T>(queues: seq<seq<T>>, capacity: nat) {
    forall i :: 0 <= i < |queues| ==> |queues[i]| + CHANNEL_SAFE_BUFFER < capacity
  }

  // ----- the turns reach every queue -----

  lemma SlotNext(last: nat, t: nat, n: nat)
    requires 0 < n
    ensures Slot(last, t + 1, n) == if Slot(last, t, n) == n - 1 then 0 else Slot(last, t, n) + 1
  {
    NextRemainder(last + t, n);
  }

  lemma NextRemainder(m: nat, n: nat)
    requires 0 < n
    ensures (m + 1) % n == if m % n == n - 1 then 0 else m % n + 1
    ensures (m + 1) / n == if m % n == n - 1 then m / n + 1 else m / n
  {
    var q, r := m / n, m % n;
    assert m == n * q + r;
    if r == n - 1 {
      assert m + 1 == n * (q + 1);
      DivMod(m + 1, n, q + 1, 0);
    } else {
      DivMod(m + 1, n, q, r + 1);
    }
  }

  lemma DivMod(m: nat, n: nat, q: nat, r: nat)
    requires r < n && m == n * q + r
    ensures m / n == q && m % n == r
  {
    var q', r' := m / n, m % n;
    var d := q' - q;
    assert n * d == n * q' - n * q == r - r';
    Scale(n, d);
  }

  lemma Scale(n: nat, d: int)
    ensures d >= 1 ==> n * d >= n
    ensures d <= -1 ==> n * d + n <= 0
  {
  }

  /** Within n turns every queue is tried. */
  lemma {:induction false} TurnOf(last: nat, n: nat, i: nat) returns (t: nat)
    requires i < n
    ensures 1 <= t <= n && Slot(last, t, n) == i
  {
    var first := Slot(last, 1, n);
    t := if first <= i then i - first + 1 else i + n - first + 1;
    SlotAhead(last, t - 1, n);
  }

  lemma {:induction false} SlotAhead(last: nat, d: nat, n: nat)
    requires d < n
    ensures Slot(last, 1 + d, n) == if Slot(last, 1, n) + d < n then Slot(last, 1, n) + d else Slot(last, 1, n) + d - n
    decreases d
  {
    if d > 0 {
      SlotAhead(last, d - 1, n);
      SlotNext(last, d, n);
    }
  }

  // ----- one dispatch -----

  /** The number of turns until a queue with room, counting from turn t. */
  function Turns<T>(queues: seq<seq<T>>, capacity: nat, last: nat, t: nat): (k: nat)
    requires 0 < |queues| && 1 <= t
    requires exists u :: t <= u <= |queues| && HasRoom(queues[Slot(last, u, |queues|)], capacity)
    ensures t <= k <= |queues| && HasRoom(queues[Slot(last, k, |queues|)], capacity)
    ensures forall u :: t <= u < k ==> !HasRoom(queues[Slot(last, u, |queues|)], capacity)
    decreases |queues| - t
  {
    if HasRoom(queues[Slot(last, t, |queues|)], capacity) then t
    else Turns(queues, capacity, last, t + 1)
  }

  lemma RoomWithinTurns<T>(queues: seq<seq<T>>, capacity: nat, last: nat)
    requires SomeRoom(queues, capacity)
    ensures exists u :: 1 <= u <= |queues| && HasRoom(queues[Slot(last, u, |queues|)], capacity)
  {
    var i :| 0 <= i < |queues| && HasRoom(queues[i], capacity);
    var u := TurnOf(last, |queues|, i);
  }

  datatype Router<T> = Router(last: nat, queues: seq<seq<T>>)

  /** The request goes to the first queue with room, in cyclic order after the last one used. */
  function Sent<T>(r: Router<T>, capacity: nat, request: T): (r': Router<T>)
    requires SomeRoom(r.queues, capacity)
    ensures |r'.queues| == |r.queues| && r.last < r'.last <= r.last + |r.queues|
  {
    RoomWithinTurns(r.queues, capacity, r.last);
    var k := Turns(r.queues, capacity, r.last, 1);
    var i := Slot(r.last, k, |r.queues|);
    Router(r.last + k, r.queues[i := r.queues[i] + [request]])
  }

  /**
   The request joins exactly one queue, which had room; every queue tried before it was full; no other
   queue changes and none is overfilled; and the counter stands at the queue used.
   */
  lemma SentToFirstWithRoom<T>(r: Router<T>, capacity: nat, request: T)
    requires SomeRoom(r.queues, capacity)
    ensures var r' := Sent(r, capacity, request);
            var n, k := |r.queues|, r'.last - r.last;
            && 1 <= k <= n && HasRoom(r.queues[Slot(r.last, k, n)], capacity)
            && (forall u :: 1 <= u < k ==> !HasRoom(r.queues[Slot(r.last, u, n)], capacity))
            && (forall j :: 0 <= j < n ==>
                  r'.queues[j] == if j == r'.last % n then r.queues[j] + [request] else r.queues[j])
            && (forall j :: 0 <= j < n && |r.queues[j]| <= capacity ==> |r'.queues[j]| <= capacity)
  {
    RoomWithinTurns(r.queues, capacity, r.last);
  }

  class Dispatcher<T> {
    const capacity: nat
    var last: nat
    var queues: seq<seq<T>>

    constructor (n: nat, capacity: nat)
      requires 0 < n
      ensures this.capacity == capacity && last == 0 && queues == seq(n, _ => [])
    {
      this.capacity := capacity;
      last := 0;
      queues := seq(n, _ => []);
    }

    /** Sends to the first queue with room; with no room anywhere the original keeps turning until a queue drains. */
    method Send(request: T)
      requires SomeRoom(queues, capacity)
      modifies this
      ensures Router(last, queues) == Sent(Router(old(last), old(queues)), capacity, request)
    {
      ghost var start := last;
      RoomWithinTurns(queues, capacity, last);
      ghost var k := Turns(queues, capacity, last, 1);
      var n := |queues|;
      while true
        invariant queues == old(queues) && start <= last < start + k
        invariant forall u :: 1 <= u <= last - start ==> !HasRoom(queues[Slot(start, u, n)], capacity)
        decreases start + k - last
      {
        last := last + 1;
        var i := last % n;
        assert i == Slot(start, last - start, n);
        if |queues[i]| < capacity {
          queues := queues[i := queues[i] + [request]];
          return;
        }
      }
    }
  }

  // ----- balance -----

  /** A dispatch, or a verification thread taking the oldest request of its queue. */
  datatype Event<T> = Dispatch(request: T) | Take(queue: nat)

  /** A router together with how many requests each queue has been given. */
  datatype State<T> = State(router: Router<T>, given: seq<nat>)

  ghost predicate AllRoom<T>(s: State<T>, capacity: nat) {
    0 < |s.router.queues| && forall i :: 0 <= i < |s.router.queues| ==> HasRoom(s.router.queues[i], capacity)
  }

  ghost predicate Enabled<T>(s: State<T>, capacity: nat, ev: Event<T>) {
    match ev
    case Dispatch(_) => AllRoom(s, capacity)
    case Take(i) => i < |s.router.queues| && s.router.queues[i] != []
  }

  ghost function Next<T>(s: State<T>, capacity: nat, ev: Event<T>): State<T>
    requires |s.given| == |s.router.queues| && Enabled(s, capacity, ev)
  {
    match ev
    case Dispatch(request) =>
      assert HasRoom(s.router.queues[0], capacity);
      var r := Sent(s.router, capacity, request);
      var i := r.last % |r.queues|;
      State(r, s.given[i := s.given[i] + 1])
    case Take(i) =>
      s.(router := s.router.(queues := s.router.queues[i := s.router.queues[i][1..]]))
  }

  /** A run in which no queue is full when something is dispatched. */
  ghost predicate NeverFull<T>(s: State<T>, capacity: nat, evs: seq<Event<T>>)
    requires |s.given| == |s.router.queues|
    decreases |evs|
  {
    evs == [] || (Enabled(s, capacity, evs[0]) && NeverFull(Next(s, capacity, evs[0]), capacity, evs[1..]))
  }

  ghost function Run<T>(s: State<T>, capacity: nat, evs: seq<Event<T>>): (s': State<T>)
    requires |s.given| == |s.router.queues| && NeverFull(s, capacity, evs)
    ensures |s'.given| == |s.given|
    decreases |evs|
  {
    if evs == [] then s else Run(Next(s, capacity, evs[0]), capacity, evs[1..])
  }

  /** How many of the counter values 0..=last fall on queue i. */
  function Share(last: nat, i: nat, n: nat): nat
    requires 0 < n
  {
    last / n + if i <= last % n then 1 else 0
  }

  lemma ShareNext(last: nat, i: nat, n: nat)
    requires i < n
    ensures Share(last + 1, i, n) == Share(last, i, n) + if (last + 1) % n == i then 1 else 0
  {
    NextRemainder(last, n);
  }

  /** Given counts follow the counter from where it started. */
  ghost predicate Follows<T>(s: State<T>, start: nat) {
    && 0 < |s.given| == |s.router.queues|
    && forall i :: 0 <= i < |s.given| ==> s.given[i] + Share(start, i, |s.given|) == Share(s.router.last, i, |s.given|)
  }

  lemma NextFollows<T>(s: State<T>, capacity: nat, ev: Event<T>, start: nat)
    requires Follows(s, start) && Enabled(s, capacity, ev)
    ensures Follows(Next(s, capacity, ev), start)
  {
    if ev.Dispatch? {
      var n := |s.given|;
      assert HasRoom(s.router.queues[Slot(s.router.last, 1, n)], capacity);
      assert Next(s, capacity, ev).router.last == s.router.last + 1;
      forall i | 0 <= i < n
        ensures Share(s.router.last + 1, i, n)
                == Share(s.router.last, i, n) + if (s.router.last + 1) % n == i then 1 else 0
      {
        ShareNext(s.router.last, i, n);
      }
    }
  }

  /** As long as no queue is full, any two queues have been given as many requests, give or take one. */
  lemma {:induction false} BalancedRun<T>(s: State<T>, capacity: nat, evs: seq<Event<T>>, start: nat, i: nat, j: nat)
    requires Follows(s, start) && NeverFull(s, capacity, evs) && i < |s.given| && j < |s.given|
    ensures Run(s, capacity, evs).given[i] <= Run(s, capacity, evs).given[j] + 1
    ensures Run(s, capacity, evs).given[j] <= Run(s, capacity, evs).given[i] + 1
    decreases |evs|
  {
    if evs != [] {
      NextFollows(s, capacity, evs[0], start);
      BalancedRun(Next(s, capacity, evs[0]), capacity, evs[1..], start, i, j);
    }
  }
}

/**
 Sliding-window statistics: a running total, the count since the last flush, and a window of the
 latest intervals.

 Counts and times are unbounded; the floating-point averages are left out, down to the integer sums
 they are made from.
 */
module Stats {

  datatype Bin = Bin(count: nat, time: nat)

  datatype State = State(total: nat, unflushed: nat, lastStatAt: nat, bins: seq<Bin>)

  datatype Event = Increment(amount: nat) | Flush(now: nat)

  const INITIAL: State := State(0, 0, 0, [])

  function Next(s: State, capacity: nat, ev: Event): State
    requires ev.Flush? ==> capacity >= 2 && ev.now >= s.lastStatAt
  {
    match ev
    case Increment(n) => s.(total := s.total + n, unflushed := s.unflushed + n)
    case Flush(now) =>
      var kept := if |s.bins| == capacity - 1 then s.bins[1..] else s.bins;
      State(s.total, 0, now, kept + [Bin(s.unflushed, now - s.lastStatAt)])
  }

  function CountSum(bins: seq<Bin>): nat {
    if bins == [] then 0 else CountSum(bins[..|bins| - 1]) + bins[|bins| - 1].count
  }

  function TimeSum(bins: seq<Bin>): nat {
    if bins == [] then 0 else TimeSum(bins[..|bins| - 1]) + bins[|bins| - 1].time
  }

  lemma SumsNext(bins: seq<Bin>, k: nat)
    requires k < |bins|
    ensures CountSum(bins[..k + 1]) == CountSum(bins[..k]) + bins[k].count
    ensures TimeSum(bins[..k + 1]) == TimeSum(bins[..k]) + bins[k].time
  {
    assert bins[..k + 1][..k] == bins[..k];
  }

  class StatVariable {
    const capacity: nat
    var total: nat
    var countSinceLastStat: nat
    var lastStatAt: nat
    var bins: seq<Bin>

    ghost function View(): State
      reads this
    {
      State(total, countSinceLastStat, lastStatAt, bins)
    }

    constructor (capacity: nat)
      ensures this.capacity == capacity && View() == INITIAL
    {
      this.capacity, total, countSinceLastStat, lastStatAt, bins := capacity, 0, 0, 0, [];
    }

    method IncrementBy(amount: nat)
      modifies this
      ensures View() == Next(old(View()), capacity, Increment(amount))
    {
      total := total + amount;
      countSinceLastStat := countSinceLastStat + amount;
    }

    /** Flushes the count into the window; returns the sums the average is computed from. */
    method CalculateStats(now: nat) returns (windowTotal: nat, windowTime: nat)
      requires capacity >= 2 && now >= lastStatAt
      modifies this
      ensures View() == Next(old(View()), capacity, Flush(now))
      ensures windowTotal == CountSum(bins) && windowTime == TimeSum(bins)
    {
      var elapsed := now - lastStatAt;
      lastStatAt := now;
      if |bins| == capacity - 1 {
        bins := bins[1..];
      }
      bins := bins + [Bin(countSinceLastStat, elapsed)];
      countSinceLastStat := 0;
      ghost var flushed := View();
      assert flushed == Next(old(View()), capacity, Flush(now));
      windowTotal, windowTime := 0, 0;
      for k := 0 to |bins|
        invariant View() == flushed
        invariant windowTotal == CountSum(flushed.bins[..k]) && windowTime == TimeSum(flushed.bins[..k])
      {
        SumsNext(flushed.bins, k);
        windowTotal := windowTotal + bins[k].count;
        windowTime := windowTime + bins[k].time;
      }
      assert bins[..|bins|] == bins;
    }
  }

  // ----- runs, and what happened in them -----

  /** The time of the last flush, 0 before the first. */
  function LastFlush(evs: seq<Event>): nat {
    if evs == [] then 0
    else if evs[|evs| - 1].Flush? then evs[|evs| - 1].now
    else LastFlush(evs[..|evs| - 1])
  }

  /** The clock never runs backwards. */
  predicate Clocked(evs: seq<Event>) {
    evs == [] ||
    (var n := |evs| - 1;
     Clocked(evs[..n]) && (evs[n].Flush? ==> evs[n].now >= LastFlush(evs[..n])))
  }

  /** What was counted since the last flush. */
  function CountedSince(evs: seq<Event>): nat {
    if evs == [] || evs[|evs| - 1].Flush? then 0
    else CountedSince(evs[..|evs| - 1]) + evs[|evs| - 1].amount
  }

  function Counted(evs: seq<Event>): nat {
    if evs == [] then 0
    else Counted(evs[..|evs| - 1]) + if evs[|evs| - 1].Flush? then 0 else evs[|evs| - 1].amount
  }

  /** Every interval ever flushed. */
  function Intervals(evs: seq<Event>): seq<Bin>
    requires Clocked(evs)
  {
    if evs == [] then []
    else
      var n := |evs| - 1;
      Intervals(evs[..n]) +
      if evs[n].Flush? then [Bin(CountedSince(evs[..n]), evs[n].now - LastFlush(evs[..n]))] else []
  }

  /** The times of the flushes, with time 0 in front. */
  function FlushTimes(evs: seq<Event>): (ts: seq<nat>)
    ensures ts != []
  {
    if evs == [] then [0]
    else FlushTimes(evs[..|evs| - 1]) + if evs[|evs| - 1].Flush? then [evs[|evs| - 1].now] else []
  }

  function Run(capacity: nat, evs: seq<Event>): (s: State)
    requires capacity >= 2 && Clocked(evs)
    ensures s.lastStatAt == LastFlush(evs)
  {
    if evs == [] then INITIAL else Next(Run(capacity, evs[..|evs| - 1]), capacity, evs[|evs| - 1])
  }

  function Tail(bins: seq<Bin>, n: nat): seq<Bin> {
    if |bins| <= n then bins else bins[|bins| - n..]
  }

  lemma TailPush(all: seq<Bin>, n: nat, bin: Bin)
    requires n >= 1
    ensures var window := Tail(all, n);
            Tail(all + [bin], n) == (if |window| == n then window[1..] else window) + [bin]
  {
  }

  /** The window is the latest intervals, capacity - 1 of them at most, and the total is everything counted. */
  lemma {:induction false} WindowIsLatest(capacity: nat, evs: seq<Event>)
    requires capacity >= 2 && Clocked(evs)
    ensures var s := Run(capacity, evs);
            && s.bins == Tail(Intervals(evs), capacity - 1)
            && s.unflushed == CountedSince(evs) && s.total == Counted(evs)
  {
    if evs != [] {
      var n := |evs| - 1;
      WindowIsLatest(capacity, evs[..n]);
      if evs[n].Flush? {
        TailPush(Intervals(evs[..n]), capacity - 1, Bin(CountedSince(evs[..n]), evs[n].now - LastFlush(evs[..n])));
      } else {
        assert Intervals(evs) == Intervals(evs[..n]);
      }
    }
  }

  /** The total is what was ever flushed, in the window or long out of it, and what is yet to be. */
  lemma {:induction false} TotalIsFlushedAndRest(capacity: nat, evs: seq<Event>)
    requires capacity >= 2 && Clocked(evs)
    ensures Run(capacity, evs).total == CountSum(Intervals(evs)) + Run(capacity, evs).unflushed
  {
    if evs != [] {
      var n := |evs| - 1;
      TotalIsFlushedAndRest(capacity, evs[..n]);
      WindowIsLatest(capacity, evs);
      WindowIsLatest(capacity, evs[..n]);
      if evs[n].Flush? {
        assert Intervals(evs)[..|Intervals(evs)| - 1] == Intervals(evs[..n]);
      } else {
        assert Intervals(evs) == Intervals(evs[..n]);
      }
    }
  }

  /** ts are the times at the ends of the intervals, one after the other. */
  ghost predicate Ends(ts: seq<nat>, bins: seq<Bin>) {
    && |ts| == |bins| + 1
    && (bins == [] ||
        (var n := |bins| - 1; Ends(ts[..n + 1], bins[..n]) && ts[n] + bins[n].time == ts[n + 1]))
  }

  lemma EndsNext(ts: seq<nat>, bins: seq<Bin>, now: nat, count: nat)
    requires Ends(ts, bins) && now >= ts[|bins|]
    ensures Ends(ts + [now], bins + [Bin(count, now - ts[|bins|])])
  {
    assert (ts + [now])[..|ts|] == ts && (bins + [Bin(count, now - ts[|bins|])])[..|bins|] == bins;
  }

  lemma {:induction false} IntervalTimes(evs: seq<Event>)
    requires Clocked(evs)
    ensures Ends(FlushTimes(evs), Intervals(evs)) && FlushTimes(evs)[|Intervals(evs)|] == LastFlush(evs)
  {
    if evs != [] {
      var before, last := evs[..|evs| - 1], evs[|evs| - 1];
      IntervalTimes(before);
      if last.Flush? {
        EndsNext(FlushTimes(before), Intervals(before), last.now, CountedSince(before));
      } else {
        assert Intervals(before) + [] == Intervals(before) && FlushTimes(before) + [] == FlushTimes(before);
      }
    }
  }

  lemma {:induction false} Telescope(ts: seq<nat>, bins: seq<Bin>, from: nat)
    requires Ends(ts, bins) && from <= |bins|
    ensures ts[from] + TimeSum(bins[from..]) == ts[|bins|]
    decreases |bins|
  {
    if from == |bins| {
      assert bins[from..] == [];
    } else {
      var n := |bins| - 1;
      Telescope(ts[..n + 1], bins[..n], from);
      assert bins[from..][..n - from] == bins[..n][from..];
    }
  }

  /** The times of the last n intervals, or of all, add up to the time since the end before them. */
  lemma LatestTimes(ts: seq<nat>, bins: seq<Bin>, n: nat)
    requires Ends(ts, bins)
    ensures var window := Tail(bins, n);
            && |window| == (if |bins| <= n then |bins| else n)
            && ts[|bins| - |window|] + TimeSum(window) == ts[|bins|]
  {
    var window := Tail(bins, n);
    assert window == bins[|bins| - |window|..];
    Telescope(ts, bins, |bins| - |window|);
  }

  /** The window's times add up to the time from the flush just before the window to the last one. */
  lemma WindowTimeTelescopes(capacity: nat, evs: seq<Event>)
    requires capacity >= 2 && Clocked(evs)
    ensures var s := Run(capacity, evs);
            && |s.bins| == (if |Intervals(evs)| < capacity then |Intervals(evs)| else capacity - 1)
            && |s.bins| < |FlushTimes(evs)|
            && FlushTimes(evs)[|FlushTimes(evs)| - 1 - |s.bins|] + TimeSum(s.bins) == s.lastStatAt
  {
    WindowIsLatest(capacity, evs);
    IntervalTimes(evs);
    LatestTimes(FlushTimes(evs), Intervals(evs), capacity - 1);
  }
}

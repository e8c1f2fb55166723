/**
 Sending the block headers a peer asked for: at most one pending entry per peer, one page of
 consecutive ids per timer tick.

 The shared ancestor, the longest-chain hashes and the disconnections are inputs; ids are unbounded.
 */
module HeaderPaging {
  import opened Options

  type Hash = seq<bv8>

  datatype Entry = Entry(startId: nat, endId: nat, peer: nat)

  /** An id looked up for a peer during a tick. */
  datatype Visit = Visit(peer: nat, id: nat)

  datatype Header = Header(peer: nat, id: nat, hash: Hash)

  // ----- one entry, one tick -----

  /** The last id of the next page: up to 100 past the start, so a page holds up to 101 ids. */
  function PageEnd(e: Entry): nat {
    if e.endId < e.startId + 100 then e.endId else e.startId + 100
  }

  function Range(lo: nat, hi: nat): (ids: seq<nat>)
    ensures |ids| == if lo <= hi then hi - lo else 0
  {
    if lo <= hi then seq(hi - lo, i requires 0 <= i => lo + i) else []
  }

  function VisitAll(peer: nat, ids: seq<nat>): (vs: seq<Visit>)
    ensures |vs| == |ids|
  {
    seq(|ids|, i requires 0 <= i < |ids| => Visit(peer, ids[i]))
  }

  function Page(e: Entry): seq<nat> {
    Range(e.startId, PageEnd(e) + 1)
  }

  function Advance(e: Entry): Entry {
    e.(startId := PageEnd(e) + 1)
  }

  /** Every entry moved past its page, the finished ones dropped. */
  function Remaining(pending: seq<Entry>): seq<Entry> {
    if pending == [] then []
    else
      var e := Advance(pending[0]);
      (if e.startId <= e.endId then [e] else []) + Remaining(pending[1..])
  }

  function PageVisits(pending: seq<Entry>): seq<Visit> {
    if pending == [] then []
    else VisitAll(pending[0].peer, Page(pending[0])) + PageVisits(pending[1..])
  }

  /** The headers sent for a list of visits: ids with no longest-chain block are passed over. */
  function Headers(visits: seq<Visit>, ring: map<nat, Hash>): seq<Header> {
    if visits == [] then []
    else
      var v := visits[0];
      (if v.id in ring then [Header(v.peer, v.id, ring[v.id])] else []) + Headers(visits[1..], ring)
  }

  function Find(pending: seq<Entry>, peer: nat): Option<Entry> {
    if pending == [] then None
    else if pending[0].peer == peer then Some(pending[0])
    else Find(pending[1..], peer)
  }

  /** A new entry joins unless its peer already has one. */
  function Queue(pending: seq<Entry>, e: Entry): seq<Entry> {
    if Find(pending, e.peer).Some? then pending else pending + [e]
  }

  // ----- runs -----

  datatype Event = Request(entry: Entry) | Tick

  function Next(pending: seq<Entry>, ev: Event): seq<Entry> {
    match ev
    case Request(e) => Queue(pending, e)
    case Tick => Remaining(pending)
  }

  function Run(pending: seq<Entry>, evs: seq<Event>): seq<Entry>
    decreases |evs|
  {
    if evs == [] then pending else Run(Next(pending, evs[0]), evs[1..])
  }

  /** Everything visited during a run, in order. */
  function Visits(pending: seq<Entry>, evs: seq<Event>): seq<Visit>
    decreases |evs|
  {
    if evs == [] then []
    else (if evs[0].Tick? then PageVisits(pending) else []) + Visits(Next(pending, evs[0]), evs[1..])
  }

  function Ticks(evs: seq<Event>): nat {
    if evs == [] then 0 else (if evs[0].Tick? then 1 else 0) + Ticks(evs[1..])
  }

  function VisitsTo(vs: seq<Visit>, peer: nat): seq<nat> {
    if vs == [] then []
    else (if vs[0].peer == peer then [vs[0].id] else []) + VisitsTo(vs[1..], peer)
  }

  // ----- at most one entry per peer -----

  ghost predicate OnePerPeer(pending: seq<Entry>) {
    forall i, j :: 0 <= i < j < |pending| ==> pending[i].peer != pending[j].peer
  }

  lemma {:induction false} FindNone(pending: seq<Entry>, peer: nat)
    requires Find(pending, peer) == None
    ensures forall i :: 0 <= i < |pending| ==> pending[i].peer != peer
  {
    if pending != [] {
      FindNone(pending[1..], peer);
    }
  }

  lemma RemainingHead(pending: seq<Entry>)
    requires pending != []
    ensures var e, rest := Advance(pending[0]), Remaining(pending[1..]);
            if e.startId <= e.endId
            then Remaining(pending) != [] && Remaining(pending)[0] == e && Remaining(pending)[1..] == rest
            else Remaining(pending) == rest
  {
  }

  lemma {:induction false} FindAbsent(pending: seq<Entry>, peer: nat)
    requires forall i :: 0 <= i < |pending| ==> pending[i].peer != peer
    ensures Find(pending, peer) == None
    ensures Find(Remaining(pending), peer) == None
    ensures VisitsTo(PageVisits(pending), peer) == []
  {
    if pending != [] {
      FindAbsent(pending[1..], peer);
      RemainingHead(pending);
      var head := VisitAll(pending[0].peer, Page(pending[0]));
      VisitsToAppend(head, PageVisits(pending[1..]), peer);
      VisitsToAll(pending[0].peer, Page(pending[0]), peer);
    }
  }

  lemma {:induction false} VisitsToAppend(a: seq<Visit>, b: seq<Visit>, peer: nat)
    ensures VisitsTo(a + b, peer) == VisitsTo(a, peer) + VisitsTo(b, peer)
  {
    if a == [] {
      assert a + b == b;
    } else {
      assert (a + b)[0] == a[0] && (a + b)[1..] == a[1..] + b;
      VisitsToAppend(a[1..], b, peer);
      var first := if a[0].peer == peer then [a[0].id] else [];
      assert first + (VisitsTo(a[1..], peer) + VisitsTo(b, peer)) == first + VisitsTo(a[1..], peer) + VisitsTo(b, peer);
    }
  }

  lemma {:induction false} VisitsToAll(p: nat, ids: seq<nat>, peer: nat)
    ensures VisitsTo(VisitAll(p, ids), peer) == if p == peer then ids else []
  {
    if ids != [] {
      assert VisitAll(p, ids)[1..] == VisitAll(p, ids[1..]);
      VisitsToAll(p, ids[1..], peer);
    }
  }

  lemma {:induction false} RemainingOnePerPeer(pending: seq<Entry>)
    requires OnePerPeer(pending)
    ensures OnePerPeer(Remaining(pending))
  {
    if pending != [] {
      var first, rest := Advance(pending[0]), Remaining(pending[1..]);
      RemainingOnePerPeer(pending[1..]);
      RemainingHead(pending);
      FindAbsent(pending[1..], first.peer);
      FindNone(rest, first.peer);
      if first.startId <= first.endId {
        assert Remaining(pending) == [first] + rest;
      }
    }
  }

  lemma NextKeepsOnePerPeer(pending: seq<Entry>, ev: Event)
    requires OnePerPeer(pending)
    ensures OnePerPeer(Next(pending, ev))
  {
    match ev {
      case Request(e) =>
        if Find(pending, e.peer) == None {
          FindNone(pending, e.peer);
        }
      case Tick =>
        RemainingOnePerPeer(pending);
    }
  }

  /** Every run keeps at most one pending entry per peer. */
  lemma {:induction false} RunKeepsOnePerPeer(pending: seq<Entry>, evs: seq<Event>)
    requires OnePerPeer(pending)
    ensures OnePerPeer(Run(pending, evs))
    decreases |evs|
  {
    if evs != [] {
      NextKeepsOnePerPeer(pending, evs[0]);
      RunKeepsOnePerPeer(Next(pending, evs[0]), evs[1..]);
    }
  }

  // ----- how an entry is worked off -----

  /** One tick: the peer's entry has its page visited and moves on, or goes when nothing is left of it. */
  lemma {:induction false} TickOf(pending: seq<Entry>, peer: nat)
    requires OnePerPeer(pending) && Find(pending, peer).Some?
    ensures var e := Find(pending, peer).value;
            && VisitsTo(PageVisits(pending), peer) == Page(e)
            && Find(Remaining(pending), peer) == if Advance(e).startId <= e.endId then Some(Advance(e)) else None
  {
    var first, rest := pending[0], pending[1..];
    RemainingHead(pending);
    VisitsToAppend(VisitAll(first.peer, Page(first)), PageVisits(rest), peer);
    VisitsToAll(first.peer, Page(first), peer);
    if first.peer == peer {
      FindAbsent(rest, peer);
    } else {
      TickOf(rest, peer);
    }
  }

  lemma {:induction false} FindAppend(a: seq<Entry>, e: Entry, peer: nat)
    requires Find(a, peer).Some?
    ensures Find(a + [e], peer) == Find(a, peer)
  {
    assert (a + [e])[0] == a[0] && (a + [e])[1..] == a[1..] + [e];
    if a[0].peer != peer {
      FindAppend(a[1..], e, peer);
    }
  }

  lemma JoinRanges(lo: nat, mid: nat, hi: nat)
    requires lo <= mid <= hi
    ensures Range(lo, mid) + Range(mid, hi) == Range(lo, hi)
  {
  }

  /** A full page, and then what the later ticks visit. */
  lemma PageThen(pending: seq<Entry>, later: seq<Visit>, e: Entry, hi: nat)
    requires OnePerPeer(pending) && Find(pending, e.peer) == Some(e)
    requires e.startId + 101 <= e.endId && e.startId + 101 <= hi
    requires VisitsTo(later, e.peer) == Range(e.startId + 101, hi)
    ensures VisitsTo(PageVisits(pending) + later, e.peer) == Range(e.startId, hi)
  {
    TickOf(pending, e.peer);
    VisitsToAppend(PageVisits(pending), later, e.peer);
    JoinRanges(e.startId, e.startId + 101, hi);
  }

  /**
   As long as k full pages do not reach its end, an entry has had exactly its first 101 * k ids
   visited, each once and in increasing order, whatever else was requested meanwhile.
   */
  lemma {:induction false} Progress(pending: seq<Entry>, evs: seq<Event>, e: Entry, reached: nat)
    requires OnePerPeer(pending) && Find(pending, e.peer) == Some(e)
    requires reached == e.startId + 101 * Ticks(evs) <= e.endId
    ensures Find(Run(pending, evs), e.peer) == Some(e.(startId := reached))
    ensures VisitsTo(Visits(pending, evs), e.peer) == Range(e.startId, reached)
    decreases |evs|
  {
    if evs != [] {
      NextKeepsOnePerPeer(pending, evs[0]);
      if evs[0].Request? {
        RequestKeeps(pending, evs[0].entry, e);
        Progress(Next(pending, evs[0]), evs[1..], e, reached);
        assert Visits(pending, evs) == Visits(Next(pending, evs[0]), evs[1..]);
      } else {
        TickOf(pending, e.peer);
        Progress(Next(pending, evs[0]), evs[1..], e.(startId := e.startId + 101), reached);
        PageThen(pending, Visits(Next(pending, evs[0]), evs[1..]), e, reached);
      }
    }
  }

  lemma RequestKeeps(pending: seq<Entry>, other: Entry, e: Entry)
    requires Find(pending, e.peer) == Some(e)
    ensures Find(Queue(pending, other), e.peer) == Some(e)
  {
    if Find(pending, other.peer) == None {
      FindAppend(pending, other, e.peer);
    }
  }

  lemma {:induction false} RunAppend(pending: seq<Entry>, evs: seq<Event>, ev: Event)
    ensures Run(pending, evs + [ev]) == Next(Run(pending, evs), ev)
    decreases |evs|
  {
    if evs == [] {
      assert [] + [ev] == [ev];
    } else {
      assert (evs + [ev])[0] == evs[0] && (evs + [ev])[1..] == evs[1..] + [ev];
      RunAppend(Next(pending, evs[0]), evs[1..], ev);
    }
  }

  /** What a single event has visited. */
  function VisitsOf(pending: seq<Entry>, ev: Event): seq<Visit> {
    if ev.Tick? then PageVisits(pending) else []
  }

  lemma VisitsFirst(pending: seq<Entry>, ev: Event, rest: seq<Event>)
    ensures Visits(pending, [ev] + rest) == VisitsOf(pending, ev) + Visits(Next(pending, ev), rest)
  {
    assert ([ev] + rest)[1..] == rest;
  }

  lemma {:induction false} VisitsAppend(pending: seq<Entry>, evs: seq<Event>, ev: Event)
    ensures Visits(pending, evs + [ev]) == Visits(pending, evs) + VisitsOf(Run(pending, evs), ev)
    decreases |evs|
  {
    if evs == [] {
      assert [] + [ev] == [ev] + [];
      VisitsFirst(pending, ev, []);
    } else {
      var first, rest := evs[0], evs[1..];
      assert evs == [first] + rest && evs + [ev] == [first] + (rest + [ev]);
      VisitsFirst(pending, first, rest);
      VisitsFirst(pending, first, rest + [ev]);
      var next := Next(pending, first);
      VisitsAppend(next, rest, ev);
      Rebracket(VisitsOf(pending, first), Visits(next, rest), VisitsOf(Run(next, rest), ev));
      assert Run(pending, evs) == Run(next, rest);
    }
  }

  lemma Rebracket(a: seq<Visit>, b: seq<Visit>, c: seq<Visit>)
    ensures a + (b + c) == a + b + c
  {
  }

  /** The number of pages an entry takes: its ids divided by 101, rounded up. */
  function Pages(e: Entry): nat
    requires e.startId <= e.endId
  {
    (e.endId - e.startId) / 101 + 1
  }

  /**
   A non-empty entry is gone after exactly Pages(e) ticks, no sooner, and by then every id from its
   start to its end has been visited exactly once, in increasing order.
   */
  lemma WorkedOff(pending: seq<Entry>, evs: seq<Event>, e: Entry)
    requires OnePerPeer(pending) && Find(pending, e.peer) == Some(e) && e.startId <= e.endId
    ensures Ticks(evs) < Pages(e) ==> Find(Run(pending, evs), e.peer).Some?
    ensures Ticks(evs) == Pages(e) - 1 ==>
              && Find(Run(pending, evs + [Tick]), e.peer) == None
              && VisitsTo(Visits(pending, evs + [Tick]), e.peer) == Range(e.startId, e.endId + 1)
  {
    if Ticks(evs) < Pages(e) {
      PagesFit(e, Ticks(evs));
      Progress(pending, evs, e, e.startId + 101 * Ticks(evs));
      if Ticks(evs) == Pages(e) - 1 {
        LastPage(pending, evs, e);
      }
    }
  }

  lemma PagesFit(e: Entry, k: nat)
    requires e.startId <= e.endId && k < Pages(e)
    ensures e.startId + 101 * k <= e.endId
    ensures k == Pages(e) - 1 ==> e.endId <= e.startId + 101 * k + 100
  {
  }

  lemma LastPage(pending: seq<Entry>, evs: seq<Event>, e: Entry)
    requires OnePerPeer(pending) && Find(pending, e.peer) == Some(e)
    requires e.startId + 101 * Ticks(evs) <= e.endId <= e.startId + 101 * Ticks(evs) + 100
    ensures Find(Run(pending, evs + [Tick]), e.peer) == None
    ensures VisitsTo(Visits(pending, evs + [Tick]), e.peer) == Range(e.startId, e.endId + 1)
  {
    var mid := e.startId + 101 * Ticks(evs);
    Progress(pending, evs, e, mid);
    RunAppend(pending, evs, Tick);
    VisitsAppend(pending, evs, Tick);
    RunKeepsOnePerPeer(pending, evs);
    LastTick(Run(pending, evs), Visits(pending, evs), e.(startId := mid), e.startId);
  }

  lemma LastTick(last: seq<Entry>, visits: seq<Visit>, e: Entry, start: nat)
    requires OnePerPeer(last) && Find(last, e.peer) == Some(e)
    requires start <= e.startId <= e.endId <= e.startId + 100
    requires VisitsTo(visits, e.peer) == Range(start, e.startId)
    ensures Find(Remaining(last), e.peer) == None
    ensures VisitsTo(visits + PageVisits(last), e.peer) == Range(start, e.endId + 1)
  {
    assert PageEnd(e) == e.endId && Page(e) == Range(e.startId, e.endId + 1);
    TickOf(last, e.peer);
    VisitsToAppend(visits, PageVisits(last), e.peer);
    JoinRanges(start, e.startId, e.endId + 1);
  }

  /** An entry that starts past its end visits nothing and is gone after one tick. */
  lemma EmptyEntry(pending: seq<Entry>, e: Entry)
    requires OnePerPeer(pending) && Find(pending, e.peer) == Some(e) && e.endId < e.startId
    ensures Find(Remaining(pending), e.peer) == None && VisitsTo(PageVisits(pending), e.peer) == []
  {
    TickOf(pending, e.peer);
  }

  /** A request of a peer that has no entry is served in full, once and in order, by as many ticks as it takes. */
  lemma {:induction false} RequestServed(pending: seq<Entry>, evs: seq<Event>, e: Entry)
    requires OnePerPeer(pending) && (forall i :: 0 <= i < |pending| ==> pending[i].peer != e.peer)
    requires e.startId <= e.endId && Ticks(evs) == (e.endId - e.startId) / 101
    ensures VisitsTo(Visits(pending, [Request(e)] + (evs + [Tick])), e.peer) == Range(e.startId, e.endId + 1)
    ensures Find(Run(pending, [Request(e)] + (evs + [Tick])), e.peer) == None
  {
    var all := [Request(e)] + (evs + [Tick]);
    assert all[0] == Request(e) && all[1..] == evs + [Tick];
    assert Visits(pending, all) == Visits(Queue(pending, e), evs + [Tick]);
    FindAbsent(pending, e.peer);
    NextKeepsOnePerPeer(pending, Request(e));
    FindJoined(pending, e);
    WorkedOff(Queue(pending, e), evs, e);
  }

  lemma {:induction false} FindJoined(pending: seq<Entry>, e: Entry)
    requires Find(pending, e.peer) == None
    ensures Find(pending + [e], e.peer) == Some(e)
  {
    if pending != [] {
      assert (pending + [e])[0] == pending[0] && (pending + [e])[1..] == pending[1..] + [e];
      FindJoined(pending[1..], e);
    }
  }

  // ----- the headers a peer gets -----

  function HeadersTo(headers: seq<Header>, peer: nat): seq<Header> {
    if headers == [] then []
    else (if headers[0].peer == peer then [headers[0]] else []) + HeadersTo(headers[1..], peer)
  }

  /** The headers for these ids, where the longest chain has a block, each with its own hash. */
  function Sendable(peer: nat, ids: seq<nat>, ring: map<nat, Hash>): seq<Header> {
    if ids == [] then []
    else
      var last := ids[|ids| - 1];
      Sendable(peer, ids[..|ids| - 1], ring) + if last in ring then [Header(peer, last, ring[last])] else []
  }

  lemma {:induction false} SendableFirst(peer: nat, id: nat, ids: seq<nat>, ring: map<nat, Hash>)
    ensures Sendable(peer, [id] + ids, ring)
            == (if id in ring then [Header(peer, id, ring[id])] else []) + Sendable(peer, ids, ring)
  {
    var all := [id] + ids;
    if ids == [] {
      assert all[..0] == [] && all == [id];
    } else {
      assert all[..|all| - 1] == [id] + ids[..|ids| - 1];
      SendableFirst(peer, id, ids[..|ids| - 1], ring);
    }
  }

  /** Of all that is sent for some visits, a peer gets those for the ids visited for it, in the same order. */
  lemma {:induction false} HeadersFollow(visits: seq<Visit>, ring: map<nat, Hash>, peer: nat)
    ensures HeadersTo(Headers(visits, ring), peer) == Sendable(peer, VisitsTo(visits, peer), ring)
  {
    if visits != [] {
      HeadersFollow(visits[1..], ring, peer);
      var v, later := visits[0], VisitsTo(visits[1..], peer);
      OneHeader(v, Headers(visits[1..], ring), ring, peer);
      if v.peer == peer {
        SendableFirst(peer, v.id, later, ring);
        assert VisitsTo(visits, peer) == [v.id] + later;
      } else {
        assert [] + later == later && [] + Sendable(peer, later, ring) == Sendable(peer, later, ring);
      }
    }
  }

  lemma OneHeader(v: Visit, rest: seq<Header>, ring: map<nat, Hash>, peer: nat)
    ensures HeadersTo((if v.id in ring then [Header(v.peer, v.id, ring[v.id])] else []) + rest, peer)
            == (if v.id in ring && v.peer == peer then [Header(peer, v.id, ring[v.id])] else []) + HeadersTo(rest, peer)
  {
    if v.id in ring {
      assert ([Header(v.peer, v.id, ring[v.id])] + rest)[1..] == rest;
    } else {
      assert [] + rest == rest;
    }
  }

  /** One tick sends a peer the headers of the next 101 ids of its entry, or of those that are left. */
  lemma TickSends(pending: seq<Entry>, ring: map<nat, Hash>, e: Entry)
    requires OnePerPeer(pending) && Find(pending, e.peer) == Some(e)
    ensures var end := if e.endId < e.startId + 100 then e.endId else e.startId + 100;
            HeadersTo(Headers(PageVisits(pending), ring), e.peer) == Sendable(e.peer, Range(e.startId, end + 1), ring)
  {
    TickOf(pending, e.peer);
    HeadersFollow(PageVisits(pending), ring, e.peer);
  }

  // ----- the sender -----

  lemma {:induction false} HeadersAppend(a: seq<Visit>, b: seq<Visit>, ring: map<nat, Hash>)
    ensures Headers(a + b, ring) == Headers(a, ring) + Headers(b, ring)
  {
    if a == [] {
      assert a + b == b;
    } else {
      assert (a + b)[0] == a[0] && (a + b)[1..] == a[1..] + b;
      HeadersAppend(a[1..], b, ring);
    }
  }

  lemma {:induction false} PageVisitsAppend(a: seq<Entry>, b: seq<Entry>)
    ensures PageVisits(a + b) == PageVisits(a) + PageVisits(b)
  {
    if a == [] {
      assert a + b == b;
    } else {
      assert (a + b)[0] == a[0] && (a + b)[1..] == a[1..] + b;
      PageVisitsAppend(a[1..], b);
    }
  }

  /** The entries that still have ids left. */
  function Unfinished(pending: seq<Entry>): seq<Entry> {
    if pending == [] then []
    else (if pending[0].startId <= pending[0].endId then [pending[0]] else []) + Unfinished(pending[1..])
  }

  lemma {:induction false} RemainingIsUnfinished(pending: seq<Entry>, moved: seq<Entry>)
    requires |moved| == |pending| && forall i :: 0 <= i < |pending| ==> moved[i] == Advance(pending[i])
    ensures Unfinished(moved) == Remaining(pending)
  {
    if pending != [] {
      RemainingIsUnfinished(pending[1..], moved[1..]);
    }
  }

  lemma NextHeaders(sent: seq<Header>, pending: seq<Entry>, i: nat, ring: map<nat, Hash>)
    requires i < |pending|
    ensures sent + Headers(PageVisits(pending[..i]), ring) + Headers(PageVisits([pending[i]]), ring)
         == sent + Headers(PageVisits(pending[..i + 1]), ring)
  {
    assert pending[..i + 1] == pending[..i] + [pending[i]];
    PageVisitsAppend(pending[..i], [pending[i]]);
    HeadersAppend(PageVisits(pending[..i]), PageVisits([pending[i]]), ring);
  }

  class HeaderSender {
    var pending: seq<Entry>
    var requested: map<nat, bool>  // for each known peer, whether it has asked for the chain
    var sent: seq<Header>
    var disconnected: seq<nat>

    constructor (peers: set<nat>)
      ensures pending == [] && sent == [] && disconnected == []
      ensures requested == map p | p in peers :: false
    {
      pending, sent, disconnected := [], [], [];
      requested := map p | p in peers :: false;
    }

    /**
     Queues the headers a peer is missing. ancestor is the shared ancestor the chain finds, 0 if none.
     A peer the node does not know is disconnected, and still queued.
     */
    method ProcessBlockchainRequest(peer: nat, peerLatest: nat, ancestor: nat, genesisId: nat, latestId: nat)
      modifies this
      ensures sent == old(sent)
      ensures peer in old(requested) && old(requested)[peer] ==>
                pending == old(pending) && requested == old(requested) && disconnected == old(disconnected)
      ensures !(peer in old(requested) && old(requested)[peer]) ==>
                var unknown := peer !in old(requested);
                var behind := 0 < peerLatest && peerLatest + 100 < genesisId && ancestor < genesisId && 0 < latestId;
                && requested == (if unknown then old(requested) else old(requested)[peer := true])
                && disconnected
                   == old(disconnected) + (if unknown then [peer] else []) + (if behind then [peer] else [])
                && pending == (if behind then old(pending)
                               else Queue(old(pending),
                                          Entry(if ancestor == 0 then genesisId else ancestor, latestId + 1, peer)))
                && (!behind && (forall i :: 0 <= i < |old(pending)| ==> old(pending)[i].peer != peer) ==>
                      pending == old(pending)
                                 + [Entry(if ancestor == 0 then genesisId else ancestor, latestId + 1, peer)])
    {
      if peer in requested {
        if requested[peer] {
          return;
        }
        requested := requested[peer := true];
      } else {
        disconnected := disconnected + [peer];
      }
      var limit := if genesisId < 100 then 0 else genesisId - 100;
      if peerLatest > 0 && peerLatest < limit && (ancestor == 0 || ancestor < genesisId) && latestId > 0 {
        disconnected := disconnected + [peer];
        return;
      }
      var shared := ancestor;
      if shared == 0 {
        shared := genesisId;
      }
      if Find(pending, peer) == None {
        pending := pending + [Entry(shared, latestId + 1, peer)];
      }
      if forall i :: 0 <= i < |old(pending)| ==> old(pending)[i].peer != peer {
        FindAbsent(old(pending), peer);
      }
    }

    /** One timer tick: a page of every entry is sent, and the finished entries are dropped. */
    method SendBlockHeaders(ring: map<nat, Hash>)
      modifies this`pending, this`sent
      ensures pending == Remaining(old(pending))
      ensures sent == old(sent) + Headers(PageVisits(old(pending)), ring)
    {
      var i := 0;
      while i < |pending|
        invariant 0 <= i <= |pending| == |old(pending)|
        invariant forall k :: 0 <= k < i ==> pending[k] == Advance(old(pending)[k])
        invariant forall k :: i <= k < |pending| ==> pending[k] == old(pending)[k]
        invariant sent == old(sent) + Headers(PageVisits(old(pending)[..i]), ring)
      {
        var entry := pending[i];
        var end := PageEnd(entry);
        pending := pending[i := entry.(startId := end + 1)];
        SendPage(entry, end, ring);
        NextHeaders(old(sent), old(pending), i, ring);
        i := i + 1;
      }
      assert old(pending)[..i] == old(pending);
      RemainingIsUnfinished(old(pending), pending);
      pending := Unfinished(pending);
    }

    method SendPage(entry: Entry, end: nat, ring: map<nat, Hash>)
      requires end == PageEnd(entry)
      modifies this`sent
      ensures sent == old(sent) + Headers(PageVisits([entry]), ring)
    {
      var id := entry.startId;
      while id <= end
        invariant entry.startId <= id && (id <= end + 1 || id == entry.startId)
        invariant sent == old(sent) + Headers(VisitAll(entry.peer, Range(entry.startId, id)), ring)
      {
        assert VisitAll(entry.peer, Range(entry.startId, id + 1))
            == VisitAll(entry.peer, Range(entry.startId, id)) + [Visit(entry.peer, id)];
        HeadersAppend(VisitAll(entry.peer, Range(entry.startId, id)), [Visit(entry.peer, id)], ring);
        if id in ring {
          sent := sent + [Header(entry.peer, id, ring[id])];
        }
        id := id + 1;
      }
      assert PageVisits([entry]) == VisitAll(entry.peer, Page(entry));
      assert Range(entry.startId, id) == Page(entry);
    }
  }
}

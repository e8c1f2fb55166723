/**
 What every run of the consensus thread keeps: each transaction is offered once and then absorbed or
 sent to the peers, no ticket is sent twice, and nothing waits for more than a second.
 */
module ConsensusProofs {
  import opened Options
  import opened Consensus

  // ----- what every run keeps -----

  function Normals(txs: seq<Transaction>): seq<Transaction> {
    if txs == [] then []
    else Normals(txs[..|txs| - 1]) + if IsTicket(txs[|txs| - 1]) then [] else [txs[|txs| - 1]]
  }

  /** The non-ticket transactions received during a run, in order of arrival. */
  function Arrived(evs: seq<Event>): seq<Transaction> {
    if evs == [] then []
    else (if evs[0].Received? then Normals(evs[0].txs) else []) + Arrived(evs[1..])
  }

  function AllOf(batches: seq<Batch>): seq<Transaction> {
    if batches == [] then [] else AllOf(batches[..|batches| - 1]) + batches[|batches| - 1].txs
  }

  function NotAbsorbed(batches: seq<Batch>): seq<Transaction> {
    if batches == [] then []
    else
      var last := batches[|batches| - 1];
      NotAbsorbed(batches[..|batches| - 1]) + if last.absorbed then [] else last.txs
  }

  function PlainSent(network: seq<Sent>): seq<Transaction> {
    if network == [] then []
    else
      var last := network[|network| - 1];
      PlainSent(network[..|network| - 1]) + if last.Plain? then [last.tx] else []
  }

  lemma BatchAppended(batches: seq<Batch>, b: Batch)
    ensures AllOf(batches + [b]) == AllOf(batches) + b.txs
    ensures NotAbsorbed(batches + [b]) == NotAbsorbed(batches) + if b.absorbed then [] else b.txs
  {
    assert (batches + [b])[..|batches|] == batches;
  }

  lemma SentAppended(network: seq<Sent>, x: Sent)
    ensures PlainSent(network + [x]) == PlainSent(network) + if x.Plain? then [x.tx] else []
  {
    assert (network + [x])[..|network|] == network;
  }

  lemma {:induction false} PlainsSent(network: seq<Sent>, txs: seq<Transaction>)
    ensures PlainSent(network + Plains(txs)) == PlainSent(network) + txs
  {
    if txs == [] {
      assert network + Plains(txs) == network;
    } else {
      var n := |txs| - 1;
      PlainsSent(network, txs[..n]);
      assert network + Plains(txs) == (network + Plains(txs[..n])) + [Plain(txs[n])];
      SentAppended(network + Plains(txs[..n]), Plain(txs[n]));
      assert txs == txs[..n] + [txs[n]];
    }
  }

  lemma {:induction false} ReceivesInOrder(s: State, txs: seq<Transaction>)
    ensures var r := ReceiveAll(s, txs);
            && r.pending == s.pending + Normals(txs)
            && (r.genesis, r.timer, r.offered, r.network, r.batches)
               == (s.genesis, s.timer, s.offered, s.network, s.batches)
  {
    if txs == [] {
      assert s.pending + [] == s.pending;
    } else {
      ReceivesInOrder(s, txs[..|txs| - 1]);
    }
  }

  /** Everything received is either offered to the mempool or still pending, in order of arrival. */
  lemma {:induction false} OfferedOnce(timed: bool, s: State, evs: seq<Event>)
    ensures var r := Run(timed, s, evs); r.offered + r.pending == s.offered + s.pending + Arrived(evs)
    decreases |evs|
  {
    if evs == [] {
      assert Arrived(evs) == [];
    } else {
      var s' := Next(timed, s, evs[0]);
      if evs[0].Received? {
        ReceivesInOrder(s, evs[0].txs);
      }
      var now := if evs[0].Received? then Normals(evs[0].txs) else [];
      assert s'.offered + s'.pending == s.offered + s.pending + now;
      OfferedOnce(timed, s', evs[1..]);
      assert s.offered + s.pending + now + Arrived(evs[1..]) == s.offered + s.pending + (now + Arrived(evs[1..]));
    }
  }

  /** The mempool has been offered the batches; the peers have been sent those no block absorbed. */
  ghost predicate Settled(s: State) {
    s.offered == AllOf(s.batches) && PlainSent(s.network) == NotAbsorbed(s.batches)
  }

  lemma RoutedAlone(network: seq<Sent>, txs: seq<Transaction>)
    ensures PlainSent(network + Plains(txs)) == PlainSent(network) + txs
    ensures SerialsSent(network + Plains(txs)) == SerialsSent(network)
  {
    PlainsSent(network, txs);
    PlainsNoSerial(network, txs);
  }

  lemma RoutedWithTicket(network: seq<Sent>, txs: seq<Transaction>, tx: Transaction, serial: nat)
    ensures PlainSent(network + Plains(txs) + [Ticket(tx, serial)]) == PlainSent(network) + txs
    ensures SerialsSent(network + Plains(txs) + [Ticket(tx, serial)]) == SerialsSent(network) + [serial]
  {
    RoutedAlone(network, txs);
    var plain := network + Plains(txs);
    assert (plain + [Ticket(tx, serial)])[..|plain|] == plain;
  }

  /** The batch offered, and what the peers were sent of it. */
  lemma BatchSettled(s: State, s': State, b: Batch)
    requires Settled(s) && s'.batches == s.batches + [b] && s'.offered == s.offered + b.txs
    requires PlainSent(s'.network) == PlainSent(s.network) + if b.absorbed then [] else b.txs
    ensures Settled(s')
  {
    BatchAppended(s.batches, b);
  }

  lemma BundledSettled(s: State, withoutLimits: bool, a: Surroundings)
    requires Settled(s)
    ensures Settled(Bundled(s, withoutLimits, a)) && Bundled(s, withoutLimits, a).pending == []
  {
    var s' := Bundled(s, withoutLimits, a);
    if a.latest in s.tickets {
      RoutedWithTicket(s.network, s.pending, s.tickets[a.latest].tx, s.tickets[a.latest].serial);
    }
    RoutedAlone(s.network, s.pending);
    BatchSettled(s, s', s'.batches[|s.batches|]);
  }

  lemma {:induction false} RunSettled(timed: bool, s: State, evs: seq<Event>)
    requires Settled(s)
    ensures Settled(Run(timed, s, evs))
    decreases |evs|
  {
    if evs != [] {
      match evs[0] {
        case Timer(duration, a) => BundledSettled(s.(timer := s.timer + duration), false, a);
        case Bundle(withoutLimits, a) => BundledSettled(s, withoutLimits, a);
        case Mined(_, _) => {}
        case FetchedBlock(_) => {}
        case Received(txs) => ReceivesInOrder(s, txs);
      }
      RunSettled(timed, Next(timed, s, evs[0]), evs[1..]);
    }
  }

  /**
   From the start, after any run that ends with a bundling attempt: each transaction received is in
   exactly one batch, in order of arrival, and the peers have been sent exactly the batches that no
   block absorbed, in order.
   */
  lemma {:induction false} EachPropagatedOrAbsorbed(
    timed: bool, genesis: bool, evs: seq<Event>, withoutLimits: bool, a: Surroundings)
    ensures var s := Bundled(Run(timed, Initial(genesis), evs), withoutLimits, a);
            && s.pending == []
            && AllOf(s.batches) == Arrived(evs)
            && PlainSent(s.network) == NotAbsorbed(s.batches)
  {
    var s := Run(timed, Initial(genesis), evs);
    RunSettled(timed, Initial(genesis), evs);
    BundledSettled(s, withoutLimits, a);
    OfferedOnce(timed, Initial(genesis), evs);
  }

  // ----- no transaction starves -----

  function Elapsed(evs: seq<Event>): nat {
    if evs == [] then 0 else (if evs[0].Timer? then evs[0].duration else 0) + Elapsed(evs[1..])
  }

  lemma {:induction false} OfferedGrows(timed: bool, s: State, evs: seq<Event>)
    ensures s.offered <= Run(timed, s, evs).offered
    decreases |evs|
  {
    if evs != [] {
      if evs[0].Received? {
        ReceivesInOrder(s, evs[0].txs);
      }
      OfferedGrows(timed, Next(timed, s, evs[0]), evs[1..]);
    }
  }

  /**
   Once a second of timer events has passed, exactly what was pending at its start has been offered,
   right behind what had been offered before and in the same order.
   */
  lemma {:induction false} NoStarvation(s: State, evs: seq<Event>)
    requires !s.genesis && s.timer + Elapsed(evs) >= BLOCK_PRODUCING_TIMER > s.timer
    ensures s.offered + s.pending <= Run(true, s, evs).offered
    decreases |evs|
  {
    var s' := Next(true, s, evs[0]);
    var bundles := evs[0].Bundle? || (evs[0].Timer? && s.timer + evs[0].duration >= BLOCK_PRODUCING_TIMER);
    if bundles {
      OfferedGrows(true, s', evs[1..]);
    } else {
      if evs[0].Received? {
        ReceivesInOrder(s, evs[0].txs);
      }
      assert s.offered + s.pending <= s'.offered + s'.pending;
      NoStarvation(s', evs[1..]);
    }
  }

  // ----- golden tickets -----

  function SerialsSent(network: seq<Sent>): seq<nat> {
    if network == [] then []
    else
      var last := network[|network| - 1];
      SerialsSent(network[..|network| - 1]) + if last.Ticket? then [last.serial] else []
  }

  predicate Distinct(xs: seq<nat>) {
    forall i, j :: 0 <= i < j < |xs| ==> xs[i] != xs[j]
  }

  /** Stored tickets have their own number and stand under their own target; sent ones are the propagated ones. */
  ghost predicate Numbered(sent: seq<nat>, tickets: map<Hash, Entry>, stored: nat) {
    && Distinct(sent)
    && (forall n :: n in sent ==> n < stored)
    && (forall h :: h in tickets ==> tickets[h].serial < stored && tickets[h].tx.kind == GoldenTicket(h))
    && (forall h :: h in tickets ==> (tickets[h].propagated <==> tickets[h].serial in sent))
    && (forall h, g :: h in tickets && g in tickets && h != g ==> tickets[h].serial != tickets[g].serial)
  }

  ghost predicate TicketsOnce(s: State) {
    Numbered(SerialsSent(s.network), s.tickets, s.stored)
  }

  lemma MarkSent(sent: seq<nat>, tickets: map<Hash, Entry>, stored: nat, h: Hash)
    requires Numbered(sent, tickets, stored) && h in tickets && !tickets[h].propagated
    ensures Numbered(sent + [tickets[h].serial], tickets[h := tickets[h].(propagated := true)], stored)
  {
  }

  lemma Drop(sent: seq<nat>, tickets: map<Hash, Entry>, stored: nat, removed: set<Hash>)
    requires Numbered(sent, tickets, stored)
    ensures Numbered(sent, tickets - removed, stored)
  {
  }

  lemma StoredOnce(s: State, tx: Transaction)
    requires TicketsOnce(s) && IsTicket(tx)
    ensures TicketsOnce(Store(s, tx))
  {
  }

  lemma {:induction false} PlainsNoSerial(network: seq<Sent>, txs: seq<Transaction>)
    ensures SerialsSent(network + Plains(txs)) == SerialsSent(network)
  {
    if txs == [] {
      assert network + Plains(txs) == network;
    } else {
      var n := |txs| - 1;
      PlainsNoSerial(network, txs[..n]);
      var all := network + Plains(txs);
      assert all[..|all| - 1] == network + Plains(txs[..n]);
    }
  }

  lemma BundledTickets(s: State, withoutLimits: bool, a: Surroundings)
    requires TicketsOnce(s)
    ensures TicketsOnce(Bundled(s, withoutLimits, a))
  {
    if Attempted(withoutLimits, a) && a.produced {
      Drop(SerialsSent(s.network), s.tickets, s.stored, a.removed);
    } else {
      PlainsNoSerial(s.network, s.pending);
      if a.latest in s.tickets && !s.tickets[a.latest].propagated {
        var plain := s.network + Plains(s.pending);
        var x := Ticket(s.tickets[a.latest].tx, s.tickets[a.latest].serial);
        assert (plain + [x])[..|plain|] == plain;
        MarkSent(SerialsSent(s.network), s.tickets, s.stored, a.latest);
      }
    }
  }

  lemma {:induction false} ReceivedTickets(s: State, txs: seq<Transaction>)
    requires TicketsOnce(s)
    ensures TicketsOnce(ReceiveAll(s, txs))
  {
    if txs != [] {
      var tx, before := txs[|txs| - 1], ReceiveAll(s, txs[..|txs| - 1]);
      ReceivedTickets(s, txs[..|txs| - 1]);
      if IsTicket(tx) {
        StoredOnce(before.(receivedTx := before.receivedTx + 1, receivedGts := before.receivedGts + 1), tx);
      }
    }
  }

  lemma NextTicketsOnce(timed: bool, s: State, ev: Event)
    requires TicketsOnce(s)
    ensures TicketsOnce(Next(timed, s, ev))
  {
    match ev {
      case Timer(duration, a) =>
        Drop(SerialsSent(s.network), s.tickets, s.stored, a.removed);
        BundledTickets(s.(timer := s.timer + duration), false, a);
      case Bundle(withoutLimits, a) => BundledTickets(s, withoutLimits, a);
      case Mined(target, content) =>
        StoredOnce(s.(receivedGts := s.receivedGts + 1), Transaction(GoldenTicket(target), content, None));
      case FetchedBlock(removed) => Drop(SerialsSent(s.network), s.tickets, s.stored, removed);
      case Received(txs) => ReceivedTickets(s, txs);
    }
  }

  lemma {:induction false} RunTicketsOnce(timed: bool, s: State, evs: seq<Event>)
    requires TicketsOnce(s)
    ensures TicketsOnce(Run(timed, s, evs))
    decreases |evs|
  {
    if evs != [] {
      NextTicketsOnce(timed, s, evs[0]);
      RunTicketsOnce(timed, Next(timed, s, evs[0]), evs[1..]);
    }
  }

  /** Over any run no stored golden ticket is sent to the peers twice. */
  lemma NoTicketTwice(timed: bool, genesis: bool, evs: seq<Event>)
    ensures Distinct(SerialsSent(Run(timed, Initial(genesis), evs).network))
  {
    RunTicketsOnce(timed, Initial(genesis), evs);
  }

  lemma {:induction false} SerialsGrow(network: seq<Sent>, more: seq<Sent>, n: nat)
    requires n in SerialsSent(network)
    ensures n in SerialsSent(network + more)
  {
    if more == [] {
      assert network + more == network;
    } else {
      var all := network + more;
      assert all[..|all| - 1] == network + more[..|more| - 1];
      SerialsGrow(network, more[..|more| - 1], n);
    }
  }

  /**
   A stored ticket for the latest block has reached the peers after any bundling that produced no block,
   so together with NoTicketTwice exactly once.
   */
  lemma LatestTicketReachesPeers(s: State, withoutLimits: bool, a: Surroundings)
    requires TicketsOnce(s) && a.latest in s.tickets && !(Attempted(withoutLimits, a) && a.produced)
    ensures var s' := Bundled(s, withoutLimits, a);
            && s.tickets[a.latest].serial in SerialsSent(s'.network)
            && a.latest in s'.tickets && s'.tickets[a.latest].propagated
  {
    var s' := Bundled(s, withoutLimits, a);
    if s.tickets[a.latest].propagated {
      SerialsGrow(s.network, Plains(s.pending), s.tickets[a.latest].serial);
    } else {
      assert s'.network[|s'.network| - 1] == Ticket(s.tickets[a.latest].tx, s.tickets[a.latest].serial);
    }
  }

  // ----- counters -----

  function Tickets(evs: seq<Event>): nat {
    if evs == [] then 0 else (if evs[0].Mined? then 1 else 0) + Tickets(evs[1..])
  }

  lemma {:induction false} ReceivedCounts(s: State, txs: seq<Transaction>)
    ensures var r := ReceiveAll(s, txs);
            r.receivedTx - s.receivedTx == |txs| == r.receivedGts - s.receivedGts + |r.pending| - |s.pending|
            && r.offered == s.offered
  {
    if txs != [] {
      ReceivedCounts(s, txs[..|txs| - 1]);
    }
  }

  /**
   Every transaction counted as received was a ticket, or has been offered, or is pending; tickets from
   the miner count as tickets only.
   */
  lemma {:induction false} CountersAgree(timed: bool, s: State, evs: seq<Event>, mined: nat)
    requires s.receivedTx + mined == s.receivedGts + |s.offered| + |s.pending|
    ensures var r := Run(timed, s, evs);
            r.receivedTx + mined + Tickets(evs) == r.receivedGts + |r.offered| + |r.pending|
    decreases |evs|
  {
    if evs != [] {
      if evs[0].Received? {
        ReceivedCounts(s, evs[0].txs);
      }
      CountersAgree(timed, Next(timed, s, evs[0]), evs[1..], mined + if evs[0].Mined? then 1 else 0);
    }
  }
}

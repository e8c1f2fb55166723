/**
 The consensus thread between the verification threads, the mempool and the network: pending
 transactions, golden tickets and the block producing timer.

 The chain and the mempool's own rules are inputs of each step: the latest block hash, the
 configuration, whether the mempool produced a block, and which golden tickets adding blocks removed.
 Stored tickets are numbered in the order they were stored, so that the proofs can tell them apart.
 */
module Consensus {
  import opened Options

  type Hash = seq<bv8>

  const BLOCK_PRODUCING_TIMER: nat := 1000

  datatype Kind = GoldenTicket(target: Hash) | Other

  datatype Transaction = Transaction(kind: Kind, content: seq<bv8>, routedFrom: Option<nat>)

  datatype Entry = Entry(tx: Transaction, propagated: bool, serial: nat)

  /** What a bundling attempt finds outside this thread. */
  datatype Surroundings = Surroundings(
    browser: bool, spv: bool, productionDisabled: bool, chainEmpty: bool,
    latest: Hash, produced: bool, removed: set<Hash>)

  datatype Event =
    | Timer(duration: nat, around: Surroundings)
    | Bundle(withoutLimits: bool, around: Surroundings)
    | Mined(target: Hash, content: seq<bv8>)  // the miner's golden ticket, made into a transaction here
    | FetchedBlock(removed: set<Hash>)
    | Received(txs: seq<Transaction>)         // one transaction, or a list of them

  /** A transaction sent to the peers; a golden ticket with its number. */
  datatype Sent = Plain(tx: Transaction) | Ticket(tx: Transaction, serial: nat)

  /** What one bundling attempt did with the pending transactions. */
  datatype Batch = Batch(txs: seq<Transaction>, absorbed: bool)

  datatype State = State(
    genesis: bool, timer: nat, pending: seq<Transaction>, tickets: map<Hash, Entry>, stored: nat,
    offered: seq<Transaction>, network: seq<Sent>, batches: seq<Batch>,
    receivedTx: nat, receivedGts: nat, blocksCreated: nat)

  function Initial(genesis: bool): State {
    State(genesis, 0, [], map[], 0, [], [], [], 0, 0, 0)
  }

  predicate IsTicket(tx: Transaction) {
    tx.kind.GoldenTicket?
  }

  predicate Attempted(withoutLimits: bool, a: Surroundings) {
    (withoutLimits || (!a.browser && !a.spv)) && !a.chainEmpty && !a.productionDisabled
  }

  function Plains(txs: seq<Transaction>): (sent: seq<Sent>)
    ensures |sent| == |txs| && forall k :: 0 <= k < |txs| ==> sent[k] == Plain(txs[k])
  {
    seq(|txs|, k requires 0 <= k < |txs| => Plain(txs[k]))
  }

  function Store(s: State, tx: Transaction): State
    requires IsTicket(tx)
  {
    if tx.kind.target in s.tickets then s
    else s.(tickets := s.tickets[tx.kind.target := Entry(tx, false, s.stored)], stored := s.stored + 1)
  }

  function Receive(s: State, tx: Transaction): State {
    var s := s.(receivedTx := s.receivedTx + 1);
    if IsTicket(tx) then Store(s.(receivedGts := s.receivedGts + 1), tx)
    else s.(pending := s.pending + [tx])
  }

  function ReceiveAll(s: State, txs: seq<Transaction>): State {
    if txs == [] then s else Receive(ReceiveAll(s, txs[..|txs| - 1]), txs[|txs| - 1])
  }

  /** Pending transactions offered to the mempool, timer reset. */
  function Offer(s: State): State {
    s.(timer := 0, offered := s.offered + s.pending)
  }

  /** A block was produced: the pending transactions go with it. */
  function Absorb(s: State, removed: set<Hash>): State {
    s.(pending := [], batches := s.batches + [Batch(s.pending, true)],
       blocksCreated := s.blocksCreated + 1, tickets := s.tickets - removed)
  }

  /** No block: pending transactions go to the peers, and so does the ticket for the latest block if it has not yet. */
  function RouteOut(s: State, latest: Hash): State {
    var sent := s.network + Plains(s.pending);
    var s := s.(pending := [], batches := s.batches + [Batch(s.pending, false)]);
    if latest in s.tickets && !s.tickets[latest].propagated then
      var entry := s.tickets[latest];
      s.(network := sent + [Ticket(entry.tx, entry.serial)], tickets := s.tickets[latest := entry.(propagated := true)])
    else s.(network := sent)
  }

  function Bundled(s: State, withoutLimits: bool, a: Surroundings): State {
    if Attempted(withoutLimits, a) && a.produced then Absorb(Offer(s), a.removed)
    else RouteOut(Offer(s), a.latest)
  }

  function Next(timed: bool, s: State, ev: Event): State {
    match ev
    case Timer(duration, a) =>
      if s.genesis then s.(genesis := false, tickets := s.tickets - a.removed)
      else
        var s := s.(timer := s.timer + duration);
        if timed && s.timer >= BLOCK_PRODUCING_TIMER then Bundled(s, false, a) else s
    case Bundle(withoutLimits, a) => Bundled(s, withoutLimits, a)
    case Mined(target, content) =>
      Store(s.(receivedGts := s.receivedGts + 1), Transaction(GoldenTicket(target), content, None))
    case FetchedBlock(removed) => s.(tickets := s.tickets - removed)
    case Received(txs) => ReceiveAll(s, txs)
  }

  function Run(timed: bool, s: State, evs: seq<Event>): State
    decreases |evs|
  {
    if evs == [] then s else Run(timed, Next(timed, s, evs[0]), evs[1..])
  }

  lemma PlainsHead(network: seq<Sent>, txs: seq<Transaction>)
    requires txs != []
    ensures network + [Plain(txs[0])] + Plains(txs[1..]) == network + Plains(txs)
  {
  }

  // ----- the thread -----

  /** The thread's fields, with the mempool's tickets and the logs of what mempool and network were given. */
  class ConsensusThread {
    const produceBlocksByTimer: bool
    var generateGenesisBlock: bool
    var blockProducingTimer: nat
    var txsForMempool: seq<Transaction>
    var goldenTickets: map<Hash, Entry>
    var stored: nat
    var mempoolLog: seq<Transaction>
    var network: seq<Sent>
    var receivedTx: nat
    var receivedGts: nat
    var blocksCreated: nat
    ghost var batches: seq<Batch>

    ghost function View(): State
      reads this
    {
      State(generateGenesisBlock, blockProducingTimer, txsForMempool, goldenTickets, stored,
            mempoolLog, network, batches, receivedTx, receivedGts, blocksCreated)
    }

    /** No golden ticket waits among the pending transactions, so the branch the original marks unreachable is. */
    ghost predicate Valid()
      reads this
    {
      forall k :: 0 <= k < |txsForMempool| ==> !IsTicket(txsForMempool[k])
    }

    constructor (genesis: bool, timed: bool)
      ensures Valid() && View() == Initial(genesis) && produceBlocksByTimer == timed
    {
      produceBlocksByTimer, generateGenesisBlock, blockProducingTimer := timed, genesis, 0;
      txsForMempool, goldenTickets, stored, mempoolLog, network := [], map[], 0, [], [];
      receivedTx, receivedGts, blocksCreated, batches := 0, 0, 0, [];
    }

    method AddGoldenTicket(tx: Transaction)
      requires IsTicket(tx)
      modifies this`goldenTickets, this`stored
      ensures View() == Store(old(View()), tx)
    {
      if tx.kind.target in goldenTickets {
        return;
      }
      goldenTickets := goldenTickets[tx.kind.target := Entry(tx, false, stored)];
      stored := stored + 1;
    }

    method NewTransactions(txs: seq<Transaction>)
      requires Valid()
      modifies this
      ensures Valid() && View() == ReceiveAll(old(View()), txs)
    {
      for i := 0 to |txs|
        invariant Valid() && View() == ReceiveAll(old(View()), txs[..i])
      {
        assert txs[..i + 1][..i] == txs[..i];
        receivedTx := receivedTx + 1;
        if IsTicket(txs[i]) {
          receivedGts := receivedGts + 1;
          AddGoldenTicket(txs[i]);
        } else {
          txsForMempool := txsForMempool + [txs[i]];
        }
      }
      assert txs[..|txs|] == txs;
    }

    method OfferAll()
      requires Valid()
      modifies this`mempoolLog
      ensures mempoolLog == old(mempoolLog) + txsForMempool
    {
      for i := 0 to |txsForMempool|
        invariant mempoolLog == old(mempoolLog) + txsForMempool[..i]
      {
        if IsTicket(txsForMempool[i]) {
          assert false;
        } else {
          mempoolLog := mempoolLog + [txsForMempool[i]];
        }
      }
    }

    method PropagateAll()
      modifies this`txsForMempool, this`network
      ensures txsForMempool == [] && network == old(network) + Plains(old(txsForMempool))
    {
      while txsForMempool != []
        invariant network + Plains(txsForMempool) == old(network) + Plains(old(txsForMempool))
        decreases |txsForMempool|
      {
        PlainsHead(network, txsForMempool);
        network := network + [Plain(txsForMempool[0])];
        txsForMempool := txsForMempool[1..];
      }
    }

    /** A block the mempool produces takes the pending transactions with it. */
    method ProduceBlock(produced: bool)
      modifies this`blockProducingTimer, this`txsForMempool, this`batches
      ensures blockProducingTimer == 0
      ensures txsForMempool == if produced then [] else old(txsForMempool)
      ensures batches == if produced then old(batches) + [Batch(old(txsForMempool), true)] else old(batches)
    {
      blockProducingTimer := 0;
      if produced {
        batches := batches + [Batch(txsForMempool, true)];
        txsForMempool := [];
      }
    }

    /** With no block produced, the pending transactions and a ticket not sent before go to the peers. */
    method RouteToPeers(latest: Hash, found: Option<Entry>)
      requires found == if latest in goldenTickets then Some(goldenTickets[latest]) else None
      modifies this`txsForMempool, this`network, this`goldenTickets, this`batches
      ensures View() == RouteOut(old(View()), latest)
    {
      batches := batches + [Batch(txsForMempool, false)];
      if txsForMempool != [] {
        PropagateAll();
      } else {
        assert network == network + Plains([]);
      }
      if found.Some? && !found.value.propagated {
        network := network + [Ticket(found.value.tx, found.value.serial)];
        goldenTickets := goldenTickets[latest := goldenTickets[latest].(propagated := true)];
      }
    }

    method BundleBlock(withoutLimits: bool, a: Surroundings)
      requires Valid()
      modifies this
      ensures Valid() && View() == Bundled(old(View()), withoutLimits, a)
    {
      OfferAll();
      blockProducingTimer := 0;
      assert View() == Offer(old(View()));
      var found := if a.latest in goldenTickets then Some(goldenTickets[a.latest]) else None;
      var block := false;
      if (withoutLimits || (!a.browser && !a.spv)) && !a.chainEmpty && !a.productionDisabled {
        block := a.produced;
        ProduceBlock(a.produced);
      }
      if block {
        blocksCreated := blocksCreated + 1;
        goldenTickets := goldenTickets - a.removed;
      } else {
        assert View() == Offer(old(View()));
        RouteToPeers(a.latest, found);
      }
    }

    method ProcessTimerEvent(duration: nat, a: Surroundings) returns (workDone: bool)
      requires Valid()
      modifies this
      ensures Valid() && View() == Next(produceBlocksByTimer, old(View()), Timer(duration, a))
      ensures workDone == (old(generateGenesisBlock)
                           || (produceBlocksByTimer && old(blockProducingTimer) + duration >= BLOCK_PRODUCING_TIMER))
    {
      workDone := false;
      if generateGenesisBlock {
        goldenTickets := goldenTickets - a.removed;
        generateGenesisBlock := false;
        return true;
      }
      blockProducingTimer := blockProducingTimer + duration;
      if produceBlocksByTimer && blockProducingTimer >= BLOCK_PRODUCING_TIMER {
        BundleBlock(false, a);
        workDone := true;
      }
    }

    method ProcessEvent(ev: Event)
      requires Valid()
      modifies this
      ensures Valid() && View() == Next(produceBlocksByTimer, old(View()), ev)
    {
      match ev {
        case Timer(duration, a) => var _ := ProcessTimerEvent(duration, a);
        case Bundle(withoutLimits, a) => BundleBlock(withoutLimits, a);
        case Mined(target, content) =>
          receivedGts := receivedGts + 1;
          AddGoldenTicket(Transaction(GoldenTicket(target), content, None));
        case FetchedBlock(removed) => goldenTickets := goldenTickets - removed;
        case Received(txs) => NewTransactions(txs);
      }
    }
  }
}

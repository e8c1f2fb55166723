/**
 The path of transactions and fetched blocks from the router, over N verification threads, to the
 consensus thread, with the miner as a further sender and the locks the threads share.

 Decoding a block, together with computing its hash, is a function parameter; whether a transaction
 validates depends on the chain at that moment and is an input of the step that asks. The peers'
 congestion records are the list of marks made.
 */
module Pipeline {
  import opened Options
  import Dispatch

  type Bytes = seq<bv8>
  type Hash = seq<bv8>

  datatype Transaction = Transaction(content: Bytes, routedFrom: Option<nat>)

  datatype Block = Block(id: nat, hash: Hash, content: Bytes, routedFrom: Option<nat>)

  datatype Request =
    | VerifyTransaction(transaction: Transaction)
    | VerifyBlock(buffer: Bytes, peer: nat, hash: Hash, id: nat)

  datatype ConsensusEvent =
    | NewTransaction(transaction: Transaction)
    | BlockFetched(peer: nat, block: Block)
    | NewGoldenTicket

  datatype Offence = InvalidTransactions | InvalidBlocks

  datatype Mark = Mark(peer: nat, offence: Offence)

  datatype Outcome = Handed(event: ConsensusEvent) | Marked(mark: Mark) | Dropped

  datatype Record = Record(request: Request, outcome: Outcome)

  type Decoder = Bytes -> Option<Block>

  /** What one request turns into. */
  function Verdict(decode: Decoder, request: Request, accepted: bool): Outcome {
    match request
    case VerifyTransaction(tx) =>
      if accepted then Handed(NewTransaction(tx))
      else if tx.routedFrom.Some? then Marked(Mark(tx.routedFrom.value, InvalidTransactions))
      else Dropped
    case VerifyBlock(buffer, peer, hash, id) =>
      var block := decode(buffer);
      if block == None || block.value.id != id || block.value.hash != hash then Marked(Mark(peer, InvalidBlocks))
      else Handed(BlockFetched(peer, block.value.(routedFrom := Some(peer))))
  }

  /** The buffer decodes to the block that was asked for. */
  predicate IsAsked(decode: Decoder, buffer: Bytes, hash: Hash, id: nat) {
    decode(buffer).Some? && decode(buffer).value.id == id && decode(buffer).value.hash == hash
  }

  function Requests(log: seq<Record>): (rs: seq<Request>)
    ensures |rs| == |log| && forall k :: 0 <= k < |log| ==> rs[k] == log[k].request
  {
    if log == [] then [] else Requests(log[..|log| - 1]) + [log[|log| - 1].request]
  }

  function HandedOver(log: seq<Record>): seq<ConsensusEvent> {
    if log == [] then []
    else
      var last := log[|log| - 1].outcome;
      HandedOver(log[..|log| - 1]) + if last.Handed? then [last.event] else []
  }

  function Marks(log: seq<Record>): seq<Mark> {
    if log == [] then []
    else
      var last := log[|log| - 1].outcome;
      Marks(log[..|log| - 1]) + if last.Marked? then [last.mark] else []
  }

  function TransactionsIn(log: seq<Record>): nat {
    if log == [] then 0
    else TransactionsIn(log[..|log| - 1]) + if log[|log| - 1].request.VerifyTransaction? then 1 else 0
  }

  function BlocksIn(events: seq<ConsensusEvent>): nat {
    if events == [] then 0
    else BlocksIn(events[..|events| - 1]) + if events[|events| - 1].BlockFetched? then 1 else 0
  }

  lemma Appended(log: seq<Record>, r: Record)
    ensures Requests(log + [r]) == Requests(log) + [r.request]
    ensures HandedOver(log + [r]) == HandedOver(log) + if r.outcome.Handed? then [r.outcome.event] else []
    ensures Marks(log + [r]) == Marks(log) + if r.outcome.Marked? then [r.outcome.mark] else []
    ensures TransactionsIn(log + [r]) == TransactionsIn(log) + if r.request.VerifyTransaction? then 1 else 0
  {
    assert (log + [r])[..|log|] == log;
  }

  lemma BlocksAppended(events: seq<ConsensusEvent>, e: ConsensusEvent)
    ensures BlocksIn(events + [e]) == BlocksIn(events) + if e.BlockFetched? then 1 else 0
  {
    assert (events + [e])[..|events|] == events;
  }

  /** One verification thread. Its log is ghost: every request it has processed, with the outcome. */
  class VerificationThread {
    const decode: Decoder
    var processedTxs: nat
    var processedBlocks: nat
    var processedMsgs: nat
    var invalidTxs: nat
    var sent: seq<ConsensusEvent>
    var marks: seq<Mark>
    ghost var log: seq<Record>

    /** What was sent and marked is what the log says; the counters agree with it. */
    ghost predicate Valid()
      reads this
    {
      && sent == HandedOver(log) && marks == Marks(log)
      && processedMsgs == |sent|
      && processedTxs == TransactionsIn(log)
      && processedBlocks == BlocksIn(sent)
      && invalidTxs == 0
    }

    constructor (decode: Decoder)
      ensures Valid() && log == [] && this.decode == decode
    {
      this.decode := decode;
      processedTxs, processedBlocks, processedMsgs, invalidTxs := 0, 0, 0, 0;
      sent, marks, log := [], [], [];
    }

    method VerifyTx(transaction: Transaction, accepted: bool)
      requires Valid()
      modifies this
      ensures Valid()
      ensures var request := VerifyTransaction(transaction);
              log == old(log) + [Record(request, Verdict(decode, request, accepted))]
      ensures sent == old(sent) + if accepted then [NewTransaction(transaction)] else []
      ensures marks == old(marks) + if !accepted && transaction.routedFrom.Some?
                                    then [Mark(transaction.routedFrom.value, InvalidTransactions)] else []
    {
      ghost var request := VerifyTransaction(transaction);
      ghost var record := Record(request, Verdict(decode, request, accepted));
      Appended(log, record);
      log := log + [record];
      if !accepted {
        processedTxs := processedTxs + 1;
        if transaction.routedFrom.Some? {
          marks := marks + [Mark(transaction.routedFrom.value, InvalidTransactions)];
        }
        return;
      }
      processedTxs := processedTxs + 1;
      processedMsgs := processedMsgs + 1;
      BlocksAppended(sent, NewTransaction(transaction));
      sent := sent + [NewTransaction(transaction)];
    }

    method CheckBlock(buffer: Bytes, peer: nat, hash: Hash, id: nat)
      requires Valid()
      modifies this
      ensures Valid()
      ensures var request := VerifyBlock(buffer, peer, hash, id);
              log == old(log) + [Record(request, Verdict(decode, request, true))]
      ensures sent == old(sent) + if IsAsked(decode, buffer, hash, id)
                                  then [BlockFetched(peer, decode(buffer).value.(routedFrom := Some(peer)))] else []
      ensures marks == old(marks) + if IsAsked(decode, buffer, hash, id) then [] else [Mark(peer, InvalidBlocks)]
    {
      ghost var request := VerifyBlock(buffer, peer, hash, id);
      ghost var record := Record(request, Verdict(decode, request, true));
      Appended(log, record);
      log := log + [record];
      var result := decode(buffer);
      if result == None {
        marks := marks + [Mark(peer, InvalidBlocks)];
        return;
      }
      var block := result.value.(routedFrom := Some(peer));
      if block.id != id || block.hash != hash {
        marks := marks + [Mark(peer, InvalidBlocks)];
        return;
      }
      processedBlocks := processedBlocks + 1;
      processedMsgs := processedMsgs + 1;
      BlocksAppended(sent, BlockFetched(peer, block));
      sent := sent + [BlockFetched(peer, block)];
    }

    method ProcessEvent(request: Request, accepted: bool)
      requires Valid()
      modifies this
      ensures Valid()
      ensures log == old(log) + [Record(request, Verdict(decode, request, accepted))]
    {
      match request {
        case VerifyTransaction(transaction) => VerifyTx(transaction, accepted);
        case VerifyBlock(buffer, peer, hash, id) => CheckBlock(buffer, peer, hash, id);
      }
    }
  }

  // ----- the whole pipeline -----

  /**
   What a verification thread is doing. It checks its gate, waits for a request, and then: a block is
   decoded without any lock; a transaction is verified under the blockchain lock (read) and the peers
   lock, both of which are still held while the event is being sent. The wallet lock is always the last
   to be taken and is part of taking the peers lock.
   */
  datatype Stage =
    | Idle
    | Ready                                            // gate passed, no request yet
    | Working(request: Request)                        // request taken, no lock held
    | Reading(request: Request)                        // blockchain lock held, peers lock awaited
    | Locked(request: Request)                         // both held
    | Sending(request: Request, event: ConsensusEvent) // room awaited; a transaction's locks still held
    | Marking(request: Request)                        // peers lock awaited to mark a bad block

  /**
   Consensus checks its gate, waits for an event, and handles it. Blocks and bundling need the blockchain
   lock for writing, which is still held while the news of each block added is being sent.
   */
  datatype ConsensusStage =
    | Resting
    | Attentive                       // gate passed, no event yet
    | Handling(event: ConsensusEvent)
    | Bundling
    | Writing                         // adding the blocks at hand
    | Telling(miner: bool)            // news of one to be sent, to the miner first if it extends the chain

  /** The miner becomes active on an event it takes behind its gate, and sends a ticket on a timer tick. */
  datatype Miner = Miner(inbox: nat, ready: bool, active: bool)

  datatype State = State(
    inbox: seq<Request>,
    routerReady: bool,
    updates: nat,
    router: Dispatch.Router<Request>,
    threads: seq<Stage>,
    miner: Miner,
    consensus: ConsensusStage,
    log: seq<Record>,
    channel: seq<ConsensusEvent>,
    taken: seq<ConsensusEvent>)

  datatype Config = Config(decode: Decoder, queueCapacity: nat, channelCapacity: nat)

  datatype Step =
    | Arrive(request: Request)            // a peer's transaction or a fetched buffer reaches the router
    | RouterCheck                         // the router finds its gate open
    | RouterTick                          // a timer event makes it check again
    | Route                               // it takes an arrival and dispatches it
    | TakeUpdate                          // or takes news from consensus
    | Check(thread: nat)                  // a verification thread finds its gate open
    | Tick(thread: nat)                   // a timer event makes it check again
    | Take(thread: nat)
    | Decode(thread: nat)
    | LockChain(thread: nat)
    | LockPeers(thread: nat)
    | Decide(thread: nat, accepted: bool)
    | MarkPeer(thread: nat)
    | Send(thread: nat)
    | ConsensusCheck                      // consensus finds its gate open
    | ConsensusTick                       // a timer event makes it check again
    | Consume                             // it takes an event
    | Settle                              // and is done with one that is not a block
    | Bundle                              // its timer makes it produce a block
    | Write                               // it gets the blockchain lock
    | Add(longest: bool)                  // it adds a block, or finds one to be fetched first
    | TellMiner
    | TellRouter
    | Finish                              // no block left: it gives the lock up
    | MinerCheck
    | MinerTick
    | MinerTake
    | Mine                                // the miner sends a ticket

  function Initial(threads: nat): State {
    State([], false, 0, Dispatch.Router(0, seq(threads, _ => [])), seq(threads, _ => Idle),
          Miner(0, false, false), Resting, [], [], [])
  }

  predicate HoldsChain(stage: Stage) {
    stage.Reading? || HoldsPeers(stage)
  }

  predicate HoldsPeers(stage: Stage) {
    stage.Locked? || (stage.Sending? && stage.request.VerifyTransaction?)
  }

  predicate PeersFree(s: State) {
    forall i :: 0 <= i < |s.threads| ==> !HoldsPeers(s.threads[i])
  }

  predicate ChainUnread(s: State) {
    forall i :: 0 <= i < |s.threads| ==> !HoldsChain(s.threads[i])
  }

  /** The gate in front of everyone who feeds the channel to consensus. */
  predicate GateOpen(c: Config, s: State) {
    |s.channel| + Dispatch.CHANNEL_SAFE_BUFFER < c.channelCapacity
  }

  /** There is room to spare towards the miner. */
  predicate MinerGate(c: Config, s: State) {
    s.miner.inbox + Dispatch.CHANNEL_SAFE_BUFFER < c.channelCapacity
  }

  /** The gate in front of consensus: room to spare towards the miner and the router. */
  predicate ConsensusGate(c: Config, s: State) {
    MinerGate(c, s) && s.updates + Dispatch.CHANNEL_SAFE_BUFFER < c.channelCapacity
  }

  /** The gate in front of the router. */
  predicate RouterGate(c: Config, s: State) {
    Dispatch.Ready(s.router.queues, c.queueCapacity) && GateOpen(c, s) && MinerGate(c, s)
  }

  /** The sizes start-up gives the channels: twice the margin at least, and more for the verification queues. */
  predicate Sized(c: Config) {
    c.queueCapacity > Dispatch.CHANNEL_SAFE_BUFFER && c.channelCapacity > 2 * Dispatch.CHANNEL_SAFE_BUFFER
  }

  predicate Room(c: Config, s: State) {
    |s.channel| < c.channelCapacity
  }

  ghost predicate Shaped(s: State) {
    0 < |s.router.queues| == |s.threads|
  }

  /** Consensus waits for the blockchain lock. */
  predicate Waits(consensus: ConsensusStage) {
    consensus.Bundling? || (consensus.Handling? && consensus.event.BlockFetched?)
  }

  /** Consensus has the blockchain lock. */
  predicate Writes(consensus: ConsensusStage) {
    consensus.Writing? || consensus.Telling?
  }

  /** Consensus has nothing in hand. */
  predicate AtRest(consensus: ConsensusStage) {
    consensus.Resting? || consensus.Attentive?
  }

  predicate At(s: State, i: nat, stage: Stage) {
    i < |s.threads| && s.threads[i] == stage
  }

  predicate Busy(s: State, i: nat) {
    i < |s.threads| && !s.threads[i].Idle? && !s.threads[i].Ready?
  }

  ghost predicate Enabled(c: Config, s: State, step: Step)
    requires Shaped(s)
  {
    match step
    case Arrive(_) => true
    case RouterCheck => RouterGate(c, s)
    case RouterTick => s.routerReady
    case Route => s.routerReady && s.inbox != [] && Dispatch.SomeRoom(s.router.queues, c.queueCapacity)
    case TakeUpdate => s.routerReady && s.updates > 0
    case Check(i) => At(s, i, Idle) && GateOpen(c, s)
    case Tick(i) => At(s, i, Ready)
    case Take(i) => At(s, i, Ready) && s.router.queues[i] != []
    case Decode(i) => Busy(s, i) && s.threads[i].Working? && s.threads[i].request.VerifyBlock?
    case LockChain(i) =>
      Busy(s, i) && s.threads[i].Working? && s.threads[i].request.VerifyTransaction? && !Writes(s.consensus)
    case LockPeers(i) => Busy(s, i) && s.threads[i].Reading? && PeersFree(s)
    case Decide(i, _) => Busy(s, i) && s.threads[i].Locked?
    case MarkPeer(i) => Busy(s, i) && s.threads[i].Marking? && PeersFree(s)
    case Send(i) => Busy(s, i) && s.threads[i].Sending? && Room(c, s)
    case ConsensusCheck => s.consensus.Resting? && ConsensusGate(c, s)
    case ConsensusTick => s.consensus.Attentive?
    case Consume => s.consensus.Attentive? && s.channel != []
    case Settle =>
      && s.consensus.Handling? && !s.consensus.event.BlockFetched?
      && (s.consensus.event.NewTransaction? && s.consensus.event.transaction.routedFrom.Some? ==> PeersFree(s))
    case Bundle => AtRest(s.consensus)
    case Write => Waits(s.consensus) && ChainUnread(s)
    case Add(_) => s.consensus.Writing?
    case TellMiner => s.consensus == Telling(true) && s.miner.inbox < c.channelCapacity
    case TellRouter => s.consensus == Telling(false) && PeersFree(s) && s.updates < c.channelCapacity
    case Finish => s.consensus.Writing? && PeersFree(s)
    case MinerCheck => GateOpen(c, s)
    case MinerTick => s.miner.ready
    case MinerTake => s.miner.ready && s.miner.inbox > 0
    case Mine => s.miner.active && Room(c, s)
  }

  function Move(s: State, i: nat, stage: Stage): State
    requires i < |s.threads|
  {
    s.(threads := s.threads[i := stage])
  }

  /** A thread is done with its request. */
  function Done(s: State, i: nat, outcome: Outcome): State
    requires Busy(s, i)
  {
    Move(s, i, Idle).(
      log := s.log + [Record(s.threads[i].request, outcome)],
      channel := s.channel + if outcome.Handed? then [outcome.event] else [])
  }

  ghost function Apply(c: Config, s: State, step: Step): State
    requires Shaped(s) && Enabled(c, s, step)
  {
    match step
    case Arrive(request) => s.(inbox := s.inbox + [request])
    case RouterCheck => s.(routerReady := true)
    case RouterTick => s.(routerReady := false)
    case Route =>
      s.(inbox := s.inbox[1..], routerReady := false, router := Dispatch.Sent(s.router, c.queueCapacity, s.inbox[0]))
    case TakeUpdate => s.(updates := s.updates - 1, routerReady := false)
    case Check(i) => Move(s, i, Ready)
    case Tick(i) => Move(s, i, Idle)
    case Take(i) =>
      var queue := s.router.queues[i];
      Move(s, i, Working(queue[0])).(router := s.router.(queues := s.router.queues[i := queue[1..]]))
    case Decode(i) =>
      var request := s.threads[i].request;
      var verdict := Verdict(c.decode, request, true);
      Move(s, i, if verdict.Handed? then Sending(request, verdict.event) else Marking(request))
    case LockChain(i) => Move(s, i, Reading(s.threads[i].request))
    case LockPeers(i) => Move(s, i, Locked(s.threads[i].request))
    case Decide(i, accepted) =>
      var request := s.threads[i].request;
      var verdict := Verdict(c.decode, request, accepted);
      if verdict.Handed? then Move(s, i, Sending(request, verdict.event)) else Done(s, i, verdict)
    case MarkPeer(i) => Done(s, i, Verdict(c.decode, s.threads[i].request, true))
    case Send(i) => Done(s, i, Handed(s.threads[i].event))
    case ConsensusCheck => s.(consensus := Attentive)
    case ConsensusTick => s.(consensus := Resting)
    case Consume =>
      s.(channel := s.channel[1..], taken := s.taken + [s.channel[0]], consensus := Handling(s.channel[0]))
    case Settle => s.(consensus := Resting)
    case Bundle => s.(consensus := Bundling)
    case Write => s.(consensus := Writing)
    case Add(longest) => s.(consensus := Telling(longest))
    case TellMiner => s.(consensus := Telling(false), miner := s.miner.(inbox := s.miner.inbox + 1))
    case TellRouter => s.(consensus := Writing, updates := s.updates + 1)
    case Finish => s.(consensus := Resting)
    case MinerCheck => s.(miner := s.miner.(ready := true))
    case MinerTick => s.(miner := s.miner.(ready := false))
    case MinerTake => s.(miner := Miner(s.miner.inbox - 1, false, true))
    case Mine => s.(miner := s.miner.(ready := false, active := false), channel := s.channel + [NewGoldenTicket])
  }

  ghost predicate Runs(c: Config, s: State, steps: seq<Step>)
    requires Shaped(s)
    decreases |steps|
  {
    steps == [] || (Enabled(c, s, steps[0]) && Runs(c, Apply(c, s, steps[0]), steps[1..]))
  }

  ghost function Run(c: Config, s: State, steps: seq<Step>): (s': State)
    requires Shaped(s) && Runs(c, s, steps)
    ensures Shaped(s') && |s'.threads| == |s.threads|
    decreases |steps|
  {
    if steps == [] then s else Run(c, Apply(c, s, steps[0]), steps[1..])
  }

  function Arrivals(steps: seq<Step>): seq<Request> {
    if steps == [] then []
    else if steps[0].Arrive? then [steps[0].request] + Arrivals(steps[1..])
    else Arrivals(steps[1..])
  }

  /** The request a thread has in hand. */
  function Hand(stage: Stage): seq<Request> {
    if stage.Idle? || stage.Ready? then [] else [stage.request]
  }

  /** Nothing is under way any more. */
  predicate Drained(s: State) {
    && s.inbox == [] && s.channel == [] && AtRest(s.consensus)
    && (forall i :: 0 <= i < |s.router.queues| ==> s.router.queues[i] == [])
    && (forall i :: 0 <= i < |s.threads| ==> Hand(s.threads[i]) == [])
  }
}

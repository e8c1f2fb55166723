/**
 What the consensus thread does, told from the events and what they find: which of them bundle, which of
 those produce a block, what becomes of the pending transactions, and which golden tickets are kept.
 */
module ConsensusOutcomes {
  import opened Options
  import opened Consensus
  import opened ConsensusProofs

  // ----- one bundling attempt -----

  /** Neither a browser nor a lite client, unless asked to regardless; a chain there is; production not switched off. */
  predicate MayProduce(withoutLimits: bool, a: Surroundings) {
    && (withoutLimits || !(a.browser || a.spv))
    && !a.chainEmpty && !a.productionDisabled
  }

  /** With a block produced, it takes what was pending, and nothing is sent. */
  lemma AbsorbedExactly(s: State, withoutLimits: bool, a: Surroundings)
    requires MayProduce(withoutLimits, a) && a.produced
    ensures var s' := Bundled(s, withoutLimits, a);
            && s'.batches == s.batches + [Batch(s.pending, true)] && s'.blocksCreated == s.blocksCreated + 1
            && s'.network == s.network && s'.tickets == s.tickets - a.removed
  {
  }

  /** Without, it goes to the peers, and the ticket for the latest block with it if they have not had that. */
  lemma RoutedExactly(s: State, withoutLimits: bool, a: Surroundings)
    requires !(MayProduce(withoutLimits, a) && a.produced)
    ensures var s' := Bundled(s, withoutLimits, a);
            var news := if a.latest in s.tickets && !s.tickets[a.latest].propagated
                        then [s.tickets[a.latest].serial] else [];
            && s'.batches == s.batches + [Batch(s.pending, false)] && s'.blocksCreated == s.blocksCreated
            && PlainSent(s'.network) == PlainSent(s.network) + s.pending
            && SerialsSent(s'.network) == SerialsSent(s.network) + news
            && s'.tickets.Keys == s.tickets.Keys
            && forall h :: h in s.tickets ==>
                 s'.tickets[h] == if h == a.latest then s.tickets[h].(propagated := true) else s.tickets[h]
  {
    if a.latest in s.tickets && !s.tickets[a.latest].propagated {
      RoutedWithTicket(s.network, s.pending, s.tickets[a.latest].tx, s.tickets[a.latest].serial);
    } else {
      RoutedAlone(s.network, s.pending);
      assert SerialsSent(s.network) + [] == SerialsSent(s.network);
    }
  }

  /** Either way all that was pending is offered, the timer starts anew, and there is one more batch. */
  lemma BundledExactly(s: State, withoutLimits: bool, a: Surroundings)
    ensures var s', produced := Bundled(s, withoutLimits, a), MayProduce(withoutLimits, a) && a.produced;
            && s'.pending == [] && s'.offered == s.offered + s.pending && s'.timer == 0
            && s'.batches == s.batches + [Batch(s.pending, produced)]
            && s'.blocksCreated == s.blocksCreated + (if produced then 1 else 0)
            && (s'.genesis, s'.stored, s'.receivedTx, s'.receivedGts)
               == (s.genesis, s.stored, s.receivedTx, s.receivedGts)
  {
  }

  // ----- over a run -----

  /** The genesis block is still to be made: it was asked for, and no timer event has come. */
  predicate GenesisDue(genesis: bool, evs: seq<Event>) {
    genesis && forall k :: 0 <= k < |evs| ==> !evs[k].Timer?
  }

  /** The time of the timer events since the last bundling, but for one that made the genesis block. */
  function SinceBundling(timed: bool, genesis: bool, evs: seq<Event>): nat
    decreases |evs|, 0
  {
    if evs == [] then 0
    else
      var before, ev := evs[..|evs| - 1], evs[|evs| - 1];
      if Bundles(timed, genesis, before, ev) then 0
      else SinceBundling(timed, genesis, before)
           + if ev.Timer? && !GenesisDue(genesis, before) then ev.duration else 0
  }

  /** The event makes the thread bundle: it is asked to, or a second of timer events has passed. */
  predicate Bundles(timed: bool, genesis: bool, before: seq<Event>, ev: Event)
    decreases |before|, 1
  {
    || ev.Bundle?
    || (ev.Timer? && timed && !GenesisDue(genesis, before)
        && SinceBundling(timed, genesis, before) + ev.duration >= 1000)
  }

  /** Whether a bundling event produces a block. */
  predicate Produces(ev: Event) {
    match ev
    case Timer(_, a) => MayProduce(false, a) && a.produced
    case Bundle(withoutLimits, a) => MayProduce(withoutLimits, a) && a.produced
    case _ => false
  }

  /** For each bundling of a run, whether it produced a block. */
  function Attempts(timed: bool, genesis: bool, evs: seq<Event>): seq<bool> {
    if evs == [] then []
    else
      var before, ev := evs[..|evs| - 1], evs[|evs| - 1];
      Attempts(timed, genesis, before) + if Bundles(timed, genesis, before, ev) then [Produces(ev)] else []
  }

  function Successes(attempts: seq<bool>): nat {
    if attempts == [] then 0
    else Successes(attempts[..|attempts| - 1]) + if attempts[|attempts| - 1] then 1 else 0
  }

  function Absorptions(batches: seq<Batch>): (flags: seq<bool>)
    ensures |flags| == |batches|
  {
    seq(|batches|, k requires 0 <= k < |batches| => batches[k].absorbed)
  }

  lemma {:induction false} RunLast(timed: bool, s: State, evs: seq<Event>, ev: Event)
    ensures Run(timed, s, evs + [ev]) == Next(timed, Run(timed, s, evs), ev)
    decreases |evs|
  {
    var all := evs + [ev];
    if evs == [] {
      assert all[1..] == [];
    } else {
      assert all[0] == evs[0] && all[1..] == evs[1..] + [ev];
      RunLast(timed, Next(timed, s, evs[0]), evs[1..], ev);
    }
  }

  /** What the events say of the state. */
  ghost predicate Told(timed: bool, genesis: bool, evs: seq<Event>, s: State) {
    && s.genesis == GenesisDue(genesis, evs)
    && s.timer == SinceBundling(timed, genesis, evs)
    && Absorptions(s.batches) == Attempts(timed, genesis, evs)
    && s.blocksCreated == Successes(Attempts(timed, genesis, evs))
  }

  lemma DueNext(genesis: bool, before: seq<Event>, ev: Event)
    ensures GenesisDue(genesis, before + [ev]) == (GenesisDue(genesis, before) && !ev.Timer?)
  {
    var all := before + [ev];
    assert all[|before|] == ev && forall k :: 0 <= k < |before| ==> all[k] == before[k];
  }

  lemma AttemptsNext(timed: bool, genesis: bool, before: seq<Event>, ev: Event)
    ensures var attempts := Attempts(timed, genesis, before);
            Attempts(timed, genesis, before + [ev])
            == if Bundles(timed, genesis, before, ev) then attempts + [Produces(ev)] else attempts
    ensures SinceBundling(timed, genesis, before + [ev])
            == if Bundles(timed, genesis, before, ev) then 0
               else SinceBundling(timed, genesis, before)
                    + if ev.Timer? && !GenesisDue(genesis, before) then ev.duration else 0
  {
    assert (before + [ev])[..|before|] == before;
  }

  lemma SuccessesNext(attempts: seq<bool>, produced: bool)
    ensures Successes(attempts + [produced]) == Successes(attempts) + if produced then 1 else 0
  {
    assert (attempts + [produced])[..|attempts|] == attempts;
  }

  /** One more bundling. */
  lemma BundledTold(timed: bool, genesis: bool, before: seq<Event>, ev: Event, s: State,
                    withoutLimits: bool, a: Surroundings)
    requires Told(timed, genesis, before, s.(timer := SinceBundling(timed, genesis, before)))
    requires Bundles(timed, genesis, before, ev) && Produces(ev) == (MayProduce(withoutLimits, a) && a.produced)
    requires s.genesis == GenesisDue(genesis, before + [ev])
    ensures Told(timed, genesis, before + [ev], Bundled(s, withoutLimits, a))
  {
    BundledExactly(s, withoutLimits, a);
    AttemptsNext(timed, genesis, before, ev);
    SuccessesNext(Attempts(timed, genesis, before), Produces(ev));
    assert Absorptions(s.batches + [Batch(s.pending, Produces(ev))]) == Absorptions(s.batches) + [Produces(ev)];
  }

  lemma {:induction false} ReceiveKeeps(s: State, txs: seq<Transaction>)
    ensures var r := ReceiveAll(s, txs);
            (r.genesis, r.timer, r.batches, r.blocksCreated) == (s.genesis, s.timer, s.batches, s.blocksCreated)
  {
    if txs != [] {
      ReceiveKeeps(s, txs[..|txs| - 1]);
    }
  }

  lemma NextTold(timed: bool, genesis: bool, before: seq<Event>, ev: Event, s: State)
    requires Told(timed, genesis, before, s)
    ensures Told(timed, genesis, before + [ev], Next(timed, s, ev))
  {
    DueNext(genesis, before, ev);
    AttemptsNext(timed, genesis, before, ev);
    if Bundles(timed, genesis, before, ev) {
      if ev.Timer? {
        BundledTold(timed, genesis, before, ev, s.(timer := s.timer + ev.duration), false, ev.around);
      } else {
        BundledTold(timed, genesis, before, ev, s, ev.withoutLimits, ev.around);
      }
    } else if ev.Received? {
      ReceiveKeeps(s, ev.txs);
    }
  }

  /**
   Over any run from the start, there is one batch per bundling, absorbed exactly if that one produced a
   block, and as many blocks have been created as did.
   */
  lemma {:induction false} AbsorbedAsProduced(timed: bool, genesis: bool, evs: seq<Event>)
    ensures var s := Run(timed, Initial(genesis), evs);
            && Absorptions(s.batches) == Attempts(timed, genesis, evs)
            && s.blocksCreated == Successes(Attempts(timed, genesis, evs))
            && s.timer == SinceBundling(timed, genesis, evs) && s.genesis == GenesisDue(genesis, evs)
    decreases |evs|
  {
    if evs != [] {
      var before, ev := evs[..|evs| - 1], evs[|evs| - 1];
      assert evs == before + [ev];
      AbsorbedAsProduced(timed, genesis, before);
      RunLast(timed, Initial(genesis), before, ev);
      NextTold(timed, genesis, before, ev, Run(timed, Initial(genesis), before));
    }
  }

  // ----- golden tickets kept -----

  /** The first ticket for a target among received transactions. */
  function FirstFor(txs: seq<Transaction>, h: Hash): Option<Transaction> {
    if txs == [] then None
    else
      var found := FirstFor(txs[..|txs| - 1], h);
      if found.Some? then found
      else if txs[|txs| - 1].kind == GoldenTicket(h) then Some(txs[|txs| - 1]) else None
  }

  /** Of the tickets received the first for each target is kept, not yet sent, unless one was kept already. */
  lemma {:induction false} KeptTickets(s: State, txs: seq<Transaction>, h: Hash)
    ensures var r := ReceiveAll(s, txs);
            && (h in r.tickets <==> h in s.tickets || FirstFor(txs, h).Some?)
            && (h in s.tickets ==> r.tickets[h] == s.tickets[h])
            && (h !in s.tickets && FirstFor(txs, h).Some? ==>
                  r.tickets[h].tx == FirstFor(txs, h).value && !r.tickets[h].propagated)
  {
    if txs != [] {
      KeptTickets(s, txs[..|txs| - 1], h);
    }
  }

  /** The miner's ticket is kept in the same way; added blocks take out the tickets named and no others. */
  lemma OtherTickets(timed: bool, s: State, target: Hash, content: seq<bv8>, removed: set<Hash>, h: Hash)
    ensures var r := Next(timed, s, Mined(target, content));
            && (h in r.tickets <==> h in s.tickets || h == target)
            && (h in s.tickets ==> r.tickets[h] == s.tickets[h])
            && (h == target && h !in s.tickets ==>
                  r.tickets[h].tx == Transaction(GoldenTicket(target), content, None) && !r.tickets[h].propagated)
    ensures var r := Next(timed, s, FetchedBlock(removed));
            && (h in r.tickets <==> h in s.tickets && h !in removed)
            && (h in r.tickets ==> r.tickets[h] == s.tickets[h])
  {
  }

  /** A timer event that makes the genesis block does nothing else but take out the tickets named. */
  lemma GenesisOnly(timed: bool, s: State, duration: nat, a: Surroundings, h: Hash)
    requires s.genesis
    ensures var r := Next(timed, s, Timer(duration, a));
            && r == s.(genesis := false, tickets := r.tickets)
            && (h in r.tickets <==> h in s.tickets && h !in a.removed)
            && (h in r.tickets ==> r.tickets[h] == s.tickets[h])
  {
  }
}

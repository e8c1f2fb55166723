/**
 Confirmation callbacks: which module is called back for which transaction of a block, the two maps
 that remember it, and how the callbacks are run and forgotten.

 A callback is the number of its module. Whether a call throws, and which block a hash finds, are
 inputs. Code between two awaits is atomic.
 */
module Callbacks {
  import opened Options

  type Hash = string

  const NORMAL: nat := 0
  const SPV: nat := 5
  const PRUNE_AFTER_BLOCKS: nat := 6
  const EMPTY_HASH: Hash := "0000000000000000000000000000000000000000000000000000000000000000"

  /** The message names a module or none; an empty name counts as none. */
  datatype Transaction = Transaction(kind: nat, message: Option<string>)

  datatype Block = Block(
    id: nat, hash: Hash, txs: seq<Transaction>, pruned: bool, inLongestChain: bool, forceLoaded: bool)

  /** The module numbered callback is to be called back for transaction number index. */
  datatype Pair = Pair(index: nat, callback: nat)

  datatype Call = Call(hash: Hash, pair: Pair, confirmation: nat)

  type Throws = Call -> bool

  function ModuleOf(tx: Transaction): string {
    if tx.message.Some? then tx.message.value else ""
  }

  /** The modules among the first n with a given name. */
  function Named(mods: seq<string>, name: string, n: nat): seq<nat>
    requires n <= |mods|
  {
    if n == 0 then [] else Named(mods, name, n - 1) + if mods[n - 1] == name then [n - 1] else []
  }

  function Paired(z: nat, callbacks: seq<nat>): (ps: seq<Pair>)
    ensures |ps| == |callbacks|
  {
    seq(|callbacks|, k requires 0 <= k < |callbacks| => Pair(z, callbacks[k]))
  }

  /** The pairs of the first n transactions. */
  function Pairs(mods: seq<string>, txs: seq<Transaction>, n: nat): seq<Pair>
    requires n <= |txs|
  {
    if n == 0 then []
    else
      Pairs(mods, txs, n - 1) +
      if txs[n - 1].kind == NORMAL then Paired(n - 1, Named(mods, ModuleOf(txs[n - 1]), |mods|)) else []
  }

  function Affixed(mods: seq<string>, block: Block): seq<Pair> {
    Pairs(mods, block.txs, |block.txs|)
  }

  function CallbackList(ps: seq<Pair>): (cs: seq<nat>)
    ensures |cs| == |ps|
  {
    seq(|ps|, k requires 0 <= k < |ps| => ps[k].callback)
  }

  function IndexList(ps: seq<Pair>): (ixs: seq<nat>)
    ensures |ixs| == |ps|
  {
    seq(|ps|, k requires 0 <= k < |ps| => ps[k].index)
  }

  lemma ListsJoin(ps: seq<Pair>, z: nat, callbacks: seq<nat>)
    ensures CallbackList(ps + Paired(z, callbacks)) == CallbackList(ps) + callbacks
    ensures IndexList(ps + Paired(z, callbacks)) == IndexList(ps) + seq(|callbacks|, _ => z)
    ensures ps + [] == ps
  {
  }

  // ----- which pairs there are -----

  predicate Before(p: Pair, q: Pair) {
    p.index < q.index || (p.index == q.index && p.callback < q.callback)
  }

  /** A normal transaction and a module with the name its message gives. */
  predicate Matches(mods: seq<string>, txs: seq<Transaction>, p: Pair) {
    && p.index < |txs| && p.callback < |mods|
    && txs[p.index].kind == NORMAL
    && mods[p.callback] == match txs[p.index].message { case Some(name) => name case None => "" }
  }

  lemma {:induction false} NamedExactly(mods: seq<string>, name: string, n: nat)
    requires n <= |mods|
    ensures forall k :: 0 <= k < |Named(mods, name, n)| ==>
              Named(mods, name, n)[k] < n && mods[Named(mods, name, n)[k]] == name
    ensures forall j, k :: 0 <= j < k < |Named(mods, name, n)| ==> Named(mods, name, n)[j] < Named(mods, name, n)[k]
    ensures forall i :: 0 <= i < n && mods[i] == name ==> i in Named(mods, name, n)
  {
    if n > 0 {
      NamedExactly(mods, name, n - 1);
    }
  }

  predicate Ordered(ps: seq<Pair>) {
    forall j, k :: 0 <= j < k < |ps| ==> Before(ps[j], ps[k])
  }

  predicate AllMatch(mods: seq<string>, txs: seq<Transaction>, ps: seq<Pair>, n: nat) {
    forall k :: 0 <= k < |ps| ==> ps[k].index < n && Matches(mods, txs, ps[k])
  }

  lemma PairedSound(mods: seq<string>, txs: seq<Transaction>, z: nat)
    requires z < |txs| && txs[z].kind == NORMAL
    ensures var ps := Paired(z, Named(mods, ModuleOf(txs[z]), |mods|));
            Ordered(ps) && AllMatch(mods, txs, ps, z + 1) && forall k :: 0 <= k < |ps| ==> ps[k].index == z
  {
    NamedExactly(mods, ModuleOf(txs[z]), |mods|);
  }

  lemma JoinSound(mods: seq<string>, txs: seq<Transaction>, older: seq<Pair>, ps: seq<Pair>, z: nat)
    requires Ordered(older) && AllMatch(mods, txs, older, z)
    requires Ordered(ps) && AllMatch(mods, txs, ps, z + 1) && forall k :: 0 <= k < |ps| ==> ps[k].index == z
    ensures Ordered(older + ps) && AllMatch(mods, txs, older + ps, z + 1)
  {
  }

  lemma PairsNext(mods: seq<string>, txs: seq<Transaction>, n: nat)
    requires n < |txs|
    ensures Pairs(mods, txs, n + 1)
            == if txs[n].kind == NORMAL then Pairs(mods, txs, n) + Paired(n, Named(mods, ModuleOf(txs[n]), |mods|))
               else Pairs(mods, txs, n)
  {
  }

  lemma {:induction false} PairsSound(mods: seq<string>, txs: seq<Transaction>, n: nat)
    requires n <= |txs|
    ensures Ordered(Pairs(mods, txs, n)) && AllMatch(mods, txs, Pairs(mods, txs, n), n)
  {
    if n > 0 {
      var m := n - 1;
      PairsSound(mods, txs, m);
      PairsNext(mods, txs, m);
      if txs[m].kind == NORMAL {
        PairedSound(mods, txs, m);
        JoinSound(mods, txs, Pairs(mods, txs, m), Paired(m, Named(mods, ModuleOf(txs[m]), |mods|)), m);
      } else {
        assert AllMatch(mods, txs, Pairs(mods, txs, m), n);
      }
    }
  }

  lemma {:induction false} PairsComplete(mods: seq<string>, txs: seq<Transaction>, n: nat, p: Pair)
    requires n <= |txs| && p.index < n && Matches(mods, txs, p)
    ensures p in Pairs(mods, txs, n)
  {
    if p.index < n - 1 {
      PairsComplete(mods, txs, n - 1, p);
    } else {
      var ixs := Named(mods, ModuleOf(txs[n - 1]), |mods|);
      NamedExactly(mods, ModuleOf(txs[n - 1]), |mods|);
      var k :| 0 <= k < |ixs| && ixs[k] == p.callback;
      assert Paired(n - 1, ixs)[k] == p;
    }
  }

  /**
   The pairs affixed to a block are exactly the matching ones, each once, by transaction and then by
   module; so the two lists are equally long, and indices are in range and never decrease.
   */
  lemma AffixedExactly(mods: seq<string>, block: Block)
    ensures var ps := Affixed(mods, block);
            && (forall p :: p in ps <==> Matches(mods, block.txs, p))
            && Ordered(ps)
            && |CallbackList(ps)| == |IndexList(ps)|
            && (forall k :: 0 <= k < |ps| ==> IndexList(ps)[k] < |block.txs|)
            && (forall j, k :: 0 <= j < k < |ps| ==> IndexList(ps)[j] <= IndexList(ps)[k])
  {
    PairsSound(mods, block.txs, |block.txs|);
    assert Affixed(mods, block) == Pairs(mods, block.txs, |block.txs|);
    forall p | Matches(mods, block.txs, p) ensures p in Affixed(mods, block) {
      PairsComplete(mods, block.txs, |block.txs|, p);
    }
  }

  // ----- running them -----

  /** One callback is called with each confirmation in order, until a call throws. */
  function CallsOf(hash: Hash, p: Pair, confirmations: seq<nat>, throws: Throws): seq<Call> {
    if confirmations == [] then []
    else
      var call := Call(hash, p, confirmations[0]);
      [call] + if throws(call) then [] else CallsOf(hash, p, confirmations[1..], throws)
  }

  lemma CallsHead(log: seq<Call>, hash: Hash, p: Pair, confirmations: seq<nat>, throws: Throws)
    requires confirmations != []
    ensures var call := Call(hash, p, confirmations[0]);
            log + CallsOf(hash, p, confirmations, throws)
            == if throws(call) then log + [call] else log + [call] + CallsOf(hash, p, confirmations[1..], throws)
  {
  }

  /** All callbacks of a block in turn, those whose transaction is gone passed over. */
  function CallsOfAll(
    hash: Hash, ps: seq<Pair>, txs: seq<Transaction>, confirmations: seq<nat>, throws: Throws): seq<Call>
  {
    if ps == [] then []
    else
      var n := |ps| - 1;
      CallsOfAll(hash, ps[..n], txs, confirmations, throws) +
      if ps[n].index < |txs| then CallsOf(hash, ps[n], confirmations, throws) else []
  }

  lemma CallsOfNext(log: seq<Call>, hash: Hash, ps: seq<Pair>, j: nat, txs: seq<Transaction>,
                    confirmations: seq<nat>, throws: Throws)
    requires j < |ps|
    ensures log + CallsOfAll(hash, ps[..j + 1], txs, confirmations, throws)
            == if ps[j].index < |txs|
               then log + CallsOfAll(hash, ps[..j], txs, confirmations, throws)
                    + CallsOf(hash, ps[j], confirmations, throws)
               else log + CallsOfAll(hash, ps[..j], txs, confirmations, throws)
  {
    assert ps[..j + 1][..j] == ps[..j] && ps[..j + 1][j] == ps[j];
  }

  /** The calls for a pair among those logged. */
  function CallsTo(log: seq<Call>, p: Pair): seq<Call> {
    if log == [] then [] else (if log[0].pair == p then [log[0]] else []) + CallsTo(log[1..], p)
  }

  lemma {:induction false} CallsToJoin(a: seq<Call>, b: seq<Call>, p: Pair)
    ensures CallsTo(a + b, p) == CallsTo(a, p) + CallsTo(b, p)
  {
    if a == [] {
      assert a + b == b;
    } else {
      assert (a + b)[1..] == a[1..] + b;
      CallsToJoin(a[1..], b, p);
    }
  }

  lemma {:induction false} CallsToOwn(hash: Hash, q: Pair, confirmations: seq<nat>, throws: Throws, p: Pair)
    ensures CallsTo(CallsOf(hash, q, confirmations, throws), p)
            == if p == q then CallsOf(hash, q, confirmations, throws) else []
  {
    if confirmations != [] {
      var call := Call(hash, q, confirmations[0]);
      var rest := if throws(call) then [] else CallsOf(hash, q, confirmations[1..], throws);
      assert CallsOf(hash, q, confirmations, throws)[1..] == rest;
      if !throws(call) {
        CallsToOwn(hash, q, confirmations[1..], throws, p);
      }
    }
  }

  /** The first throwing confirmation ends a callback's calls; without one it gets them all. */
  lemma {:induction false} CallsUntilThrow(hash: Hash, p: Pair, confirmations: seq<nat>, throws: Throws)
    ensures var calls := CallsOf(hash, p, confirmations, throws);
            && |calls| <= |confirmations|
            && (forall k :: 0 <= k < |calls| ==> calls[k] == Call(hash, p, confirmations[k]))
            && (forall k :: 0 <= k < |calls| - 1 ==> !throws(calls[k]))
            && (|calls| < |confirmations| ==> calls != [] && throws(calls[|calls| - 1]))
  {
    if confirmations != [] && !throws(Call(hash, p, confirmations[0])) {
      CallsUntilThrow(hash, p, confirmations[1..], throws);
    }
  }

  /** A throwing callback costs no other callback anything: each pair gets its own calls, whole. */
  lemma {:induction false} ThrowsAreContained(
      hash: Hash, ps: seq<Pair>, txs: seq<Transaction>, confirmations: seq<nat>, throws: Throws, p: Pair)
    requires Ordered(ps)
    ensures CallsTo(CallsOfAll(hash, ps, txs, confirmations, throws), p)
            == if p in ps && p.index < |txs| then CallsOf(hash, p, confirmations, throws) else []
  {
    if ps != [] {
      var n := |ps| - 1;
      ThrowsAreContained(hash, ps[..n], txs, confirmations, throws, p);
      CallsToOwn(hash, ps[n], confirmations, throws, p);
      var last := if ps[n].index < |txs| then CallsOf(hash, ps[n], confirmations, throws) else [];
      CallsToJoin(CallsOfAll(hash, ps[..n], txs, confirmations, throws), last, p);
      assert ps == ps[..n] + [ps[n]];
      assert p == ps[n] ==> p !in ps[..n];
    }
  }

  /** Calls for pairs among these, in their order. */
  predicate InOrder(calls: seq<Call>, ps: seq<Pair>) {
    && (forall k :: 0 <= k < |calls| ==> calls[k].pair in ps)
    && (forall j, k :: 0 <= j < k < |calls| ==> !Before(calls[k].pair, calls[j].pair))
  }

  lemma OrderJoins(older: seq<Call>, more: seq<Call>, ps: seq<Pair>, p: Pair)
    requires Ordered(ps + [p]) && InOrder(older, ps) && forall k :: 0 <= k < |more| ==> more[k].pair == p
    ensures InOrder(older + more, ps + [p])
  {
    forall k | 0 <= k < |older| ensures Before(older[k].pair, p) {
      var i :| 0 <= i < |ps| && ps[i] == older[k].pair;
      assert (ps + [p])[i] == ps[i] && (ps + [p])[|ps|] == p;
    }
  }

  /** The callbacks are called in the order of the pairs. */
  lemma {:induction false} CallsInOrder(
      hash: Hash, ps: seq<Pair>, txs: seq<Transaction>, confirmations: seq<nat>, throws: Throws)
    requires Ordered(ps)
    ensures InOrder(CallsOfAll(hash, ps, txs, confirmations, throws), ps)
  {
    if ps != [] {
      var n := |ps| - 1;
      assert ps == ps[..n] + [ps[n]];
      CallsInOrder(hash, ps[..n], txs, confirmations, throws);
      CallsUntilThrow(hash, ps[n], confirmations, throws);
      var last := if ps[n].index < |txs| then CallsOf(hash, ps[n], confirmations, throws) else [];
      OrderJoins(CallsOfAll(hash, ps[..n], txs, confirmations, throws), last, ps[..n], ps[n]);
    }
  }

  // ----- the maps -----

  /** A block whose addition makes the callbacks of the block five below it forgotten. */
  predicate Prunes(block: Block) {
    block.inLongestChain && !block.forceLoaded && block.id >= PRUNE_AFTER_BLOCKS
  }

  class Blockchain {
    const mods: seq<string>
    var callbacks: map<Hash, seq<nat>>
    var callbackIndices: map<Hash, seq<nat>>
    var log: seq<Call>

    /** The two maps agree on their keys and on the length of each pair of lists. */
    ghost predicate Valid()
      reads this
    {
      && callbacks.Keys == callbackIndices.Keys
      && forall h :: h in callbacks ==> |callbacks[h]| == |callbackIndices[h]|
    }

    /** The pairs remembered for a block. */
    ghost function Remembered(h: Hash): (ps: seq<Pair>)
      reads this
      requires Valid() && h in callbacks
    {
      var cs, ixs := callbacks[h], callbackIndices[h];
      seq(|cs|, k requires 0 <= k < |cs| => Pair(ixs[k], cs[k]))
    }

    constructor (mods: seq<string>)
      ensures Valid() && this.mods == mods && callbacks == map[] && log == []
    {
      this.mods := mods;
      callbacks, callbackIndices, log := map[], map[], [];
    }

    /** Every module named by the transaction's message is added to the lists. */
    method AffixTransaction(tx: Transaction, z: nat, callbackArray: seq<nat>, indexArray: seq<nat>)
      returns (callbackArray': seq<nat>, indexArray': seq<nat>)
      ensures var ixs := Named(mods, ModuleOf(tx), |mods|);
              && callbackArray' == callbackArray + (if tx.kind == SPV then [] else ixs)
              && indexArray' == indexArray + (if tx.kind == SPV then [] else seq(|ixs|, _ => z))
    {
      callbackArray', indexArray' := callbackArray, indexArray;
      if tx.kind == SPV {
        return;
      }
      for i := 0 to |mods|
        invariant callbackArray' == callbackArray + Named(mods, ModuleOf(tx), i)
        invariant indexArray' == indexArray + seq(|Named(mods, ModuleOf(tx), i)|, _ => z)
      {
        if ModuleOf(tx) == mods[i] {
          callbackArray' := callbackArray' + [i];
          indexArray' := indexArray' + [z];
        }
      }
    }

    /** A block not yet known gets its pairs; a known one is left alone. */
    method AffixCallbacks(block: Block)
      requires Valid()
      modifies this`callbacks, this`callbackIndices
      ensures Valid()
      ensures callbacks == if block.hash in old(callbacks) then old(callbacks)
                           else old(callbacks)[block.hash := CallbackList(Affixed(mods, block))]
      ensures callbackIndices == if block.hash in old(callbacks) then old(callbackIndices)
                                 else old(callbackIndices)[block.hash := IndexList(Affixed(mods, block))]
    {
      if block.hash in callbacks {
        return;
      }
      var cs: seq<nat>, ixs: seq<nat> := [], [];
      for z := 0 to |block.txs|
        invariant callbacks == old(callbacks) && callbackIndices == old(callbackIndices)
        invariant cs == CallbackList(Pairs(mods, block.txs, z)) && ixs == IndexList(Pairs(mods, block.txs, z))
      {
        ListsJoin(Pairs(mods, block.txs, z), z, Named(mods, ModuleOf(block.txs[z]), |mods|));
        if block.txs[z].kind == NORMAL {
          cs, ixs := AffixTransaction(block.txs[z], z, cs, ixs);
        }
      }
      callbacks := callbacks[block.hash := cs];
      callbackIndices := callbackIndices[block.hash := ixs];
    }

    method CallOne(hash: Hash, p: Pair, confirmations: seq<nat>, throws: Throws)
      modifies this`log
      ensures log == old(log) + CallsOf(hash, p, confirmations, throws)
    {
      for i := 0 to |confirmations|
        invariant log + CallsOf(hash, p, confirmations[i..], throws)
                  == old(log) + CallsOf(hash, p, confirmations, throws)
      {
        var call := Call(hash, p, confirmations[i]);
        CallsHead(log, hash, p, confirmations[i..], throws);
        assert confirmations[i..][1..] == confirmations[i + 1..];
        log := log + [call];
        if throws(call) {
          return;
        }
      }
      assert confirmations[|confirmations|..] == [];
    }

    /** Runs a block's callbacks; found is the block its hash finds now. */
    method RunCallbacks(hash: Hash, found: Option<Block>, confirmations: seq<nat>, throws: Throws)
      requires Valid()
      modifies this`log
      ensures log == old(log) +
              if hash == EMPTY_HASH || found == None || hash !in callbacks then []
              else CallsOfAll(hash, Remembered(hash), found.value.txs, confirmations, throws)
    {
      if hash == EMPTY_HASH || found == None || hash !in callbacks || hash !in callbackIndices {
        return;
      }
      var cs, ixs, txs := callbacks[hash], callbackIndices[hash], found.value.txs;
      ghost var ps := Remembered(hash);
      for j := 0 to |cs|
        invariant log == old(log) + CallsOfAll(hash, ps[..j], txs, confirmations, throws)
      {
        CallsOfNext(old(log), hash, ps, j, txs, confirmations, throws);
        if ixs[j] < |txs| {
          CallOne(hash, Pair(ixs[j], cs[j]), confirmations, throws);
        }
      }
      assert ps[..|cs|] == ps;
    }

    /** A confirmed block is affixed if it is not, and its callbacks are run. */
    method OnConfirmation(hash: Hash, found: Option<Block>, confirmations: seq<nat>, throws: Throws)
      requires Valid() && (found.Some? ==> found.value.hash == hash)
      modifies this
      ensures Valid()
      ensures found == None || found.value.pruned ==>
              callbacks == old(callbacks) && callbackIndices == old(callbackIndices) && log == old(log)
      ensures found.Some? && !found.value.pruned ==>
              var ps := Affixed(mods, found.value);
              && callbacks
                 == (if hash in old(callbacks) then old(callbacks) else old(callbacks)[hash := CallbackList(ps)])
              && callbackIndices
                 == (if hash in old(callbacks) then old(callbackIndices)
                     else old(callbackIndices)[hash := IndexList(ps)])
              && (hash == EMPTY_HASH ==> log == old(log))
      ensures found.Some? && !found.value.pruned && hash !in old(callbacks) && hash != EMPTY_HASH ==>
              log == old(log) + CallsOfAll(hash, Affixed(mods, found.value), found.value.txs, confirmations, throws)
      ensures found.Some? && !found.value.pruned && hash in old(callbacks) && hash != EMPTY_HASH ==>
              log == old(log) + CallsOfAll(hash, old(Remembered(hash)), found.value.txs, confirmations, throws)
    {
      if found == None || found.value.pruned {
        return;
      }
      AffixCallbacks(found.value);
      if hash !in old(callbacks) {
        assert Remembered(hash) == Affixed(mods, found.value);
      } else {
        assert Remembered(hash) == old(Remembered(hash));
      }
      RunCallbacks(hash, found, confirmations, throws);
    }

    /** A new block on the longest chain makes the callbacks of the block five before it forgotten. */
    method OnAddBlockSuccess(found: Option<Block>, longestChainHashAt: nat -> Hash)
      requires Valid()
      modifies this`callbacks, this`callbackIndices
      ensures Valid()
      ensures var prunes := && found.Some? && found.value.inLongestChain && !found.value.forceLoaded
                            && found.value.id >= 6;
              && callbacks
                 == (if prunes then old(callbacks) - {longestChainHashAt(found.value.id - 5)} else old(callbacks))
              && callbackIndices
                 == (if prunes then old(callbackIndices) - {longestChainHashAt(found.value.id - 5)}
                     else old(callbackIndices))
    {
      if found == None {
        return;
      }
      var block := found.value;
      if block.inLongestChain && !block.forceLoaded {
        var target: int := block.id - PRUNE_AFTER_BLOCKS;
        if target >= 0 {
          var hash := longestChainHashAt(target + 1);
          callbacks := callbacks - {hash};
          callbackIndices := callbackIndices - {hash};
        }
      }
    }
  }

  // ----- interleaved confirmations -----

  /**
   How far the handling of a confirmation is. Between two of these there is an await: blocks are looked
   up, messages decrypted, and other confirmations and deletions come in between. Positions are those
   in the history of the maps.
   */
  datatype Progress =
    | Started
    | Missing(at: nat)                                // the block had no lists at this point; they are being made
    | Listed(at: nat)                                 // it has lists, set or found at this point
    | Done(at: nat, lookedUp: nat, calls: seq<Call>)  // lists looked up at that point, and the calls made

  datatype Task = Task(hash: Hash, confirmations: seq<nat>, progress: Progress)

  datatype MapEvent = WasSet(hash: Hash) | Forgotten(hash: Hash)

  datatype State = State(
    callbacks: map<Hash, seq<nat>>, indices: map<Hash, seq<nat>>, tasks: seq<Task>, history: seq<MapEvent>)

  datatype Step =
    | Confirm(hash: Hash, confirmations: seq<nat>)
    | Look(task: nat)      // goes on to make the lists only if the block has none
    | SetBoth(task: nat)   // sets both lists, with no await in between
    | LookUp(task: nat)    // takes both lists, and calls them back
    | Forget(added: Hash, hash: Hash)   // a block added deletes both lists of another, with no await in between

  /** The modules, the block each hash stands for, and which calls throw. */
  datatype World = World(mods: seq<string>, blocks: Hash -> Block, throws: Throws)

  const INITIAL: State := State(map[], map[], [], [])

  predicate Enabled(w: World, s: State, step: Step) {
    match step
    case Confirm(_, _) => true
    case Look(t) => t < |s.tasks| && s.tasks[t].progress.Started?
    case SetBoth(t) => t < |s.tasks| && s.tasks[t].progress.Missing?
    case LookUp(t) => t < |s.tasks| && s.tasks[t].progress.Listed?
    case Forget(added, h) => Prunes(w.blocks(added)) && w.blocks(h).id == w.blocks(added).id - 5
  }

  function Zip(cs: seq<nat>, ixs: seq<nat>): seq<Pair>
    requires |cs| == |ixs|
  {
    seq(|cs|, k requires 0 <= k < |cs| => Pair(ixs[k], cs[k]))
  }

  /** Every call a block's confirmations ask for. */
  function AllCalls(w: World, hash: Hash, confirmations: seq<nat>): seq<Call> {
    if hash == EMPTY_HASH then []
    else CallsOfAll(hash, AffixedPairs(w, hash), w.blocks(hash).txs, confirmations, w.throws)
  }

  function AffixedPairs(w: World, hash: Hash): seq<Pair> {
    Affixed(w.mods, w.blocks(hash))
  }

  /** The calls made with the lists as they are now. */
  ghost function CallsNow(w: World, s: State, hash: Hash, confirmations: seq<nat>): seq<Call> {
    if hash == EMPTY_HASH || hash !in s.callbacks || hash !in s.indices
       || |s.callbacks[hash]| != |s.indices[hash]| then []
    else CallsOfAll(hash, Zip(s.callbacks[hash], s.indices[hash]), w.blocks(hash).txs, confirmations, w.throws)
  }

  function Move(s: State, t: nat, progress: Progress): State
    requires t < |s.tasks|
  {
    s.(tasks := s.tasks[t := s.tasks[t].(progress := progress)])
  }

  ghost function Apply(w: World, s: State, step: Step): State
    requires Enabled(w, s, step)
  {
    match step
    case Confirm(h, confirmations) => s.(tasks := s.tasks + [Task(h, confirmations, Started)])
    case Look(t) =>
      var at := |s.history|;
      Move(s, t, if s.tasks[t].hash in s.callbacks then Listed(at) else Missing(at))
    case SetBoth(t) =>
      var h := s.tasks[t].hash;
      Move(s, t, Listed(|s.history| + 1)).(
        callbacks := s.callbacks[h := CallbackList(AffixedPairs(w, h))],
        indices := s.indices[h := IndexList(AffixedPairs(w, h))],
        history := s.history + [WasSet(h)])
    case LookUp(t) =>
      var task := s.tasks[t];
      Move(s, t, Done(task.progress.at, |s.history|, CallsNow(w, s, task.hash, task.confirmations)))
    case Forget(_, h) =>
      s.(callbacks := s.callbacks - {h}, indices := s.indices - {h}, history := s.history + [Forgotten(h)])
  }

  ghost predicate Runs(w: World, s: State, steps: seq<Step>)
    decreases |steps|
  {
    steps == [] || (Enabled(w, s, steps[0]) && Runs(w, Apply(w, s, steps[0]), steps[1..]))
  }

  ghost function Run(w: World, s: State, steps: seq<Step>): State
    requires Runs(w, s, steps)
    decreases |steps|
  {
    if steps == [] then s else Run(w, Apply(w, s, steps[0]), steps[1..])
  }

  /** Same keys, and under every key the lists of that very block. */
  ghost predicate Agree(w: World, s: State) {
    && s.callbacks.Keys == s.indices.Keys
    && forall h :: h in s.callbacks ==>
         s.callbacks[h] == CallbackList(AffixedPairs(w, h)) && s.indices[h] == IndexList(AffixedPairs(w, h))
  }

  /** A deletion of the hash in this stretch of the history, with no setting after it. */
  ghost predicate Lost(history: seq<MapEvent>, from: nat, to: nat, h: Hash)
    requires to <= |history|
  {
    exists k :: from <= k < to && history[k] == Forgotten(h) && forall j :: k < j < to ==> history[j] != WasSet(h)
  }

  /** At this point of the history the hash has lists: they were set, and not deleted since. */
  ghost predicate Present(history: seq<MapEvent>, to: nat, h: Hash)
    requires to <= |history|
  {
    exists k :: 0 <= k < to && history[k] == WasSet(h) && forall j :: k < j < to ==> history[j] != Forgotten(h)
  }

  /** The maps hold what the history says. */
  ghost predicate Current(s: State) {
    forall h :: h in s.callbacks <==> Present(s.history, |s.history|, h)
  }

  /** What a task's progress says about the maps and the calls. */
  ghost predicate Accounted(w: World, s: State, task: Task) {
    match task.progress
    case Started => true
    case Missing(at) => at <= |s.history| && !Present(s.history, at, task.hash)
    case Listed(at) =>
      at <= |s.history| && (task.hash in s.callbacks <==> !Lost(s.history, at, |s.history|, task.hash))
    case Done(at, lookedUp, calls) =>
      && at <= lookedUp <= |s.history|
      && calls == if Lost(s.history, at, lookedUp, task.hash) then [] else AllCalls(w, task.hash, task.confirmations)
  }

  ghost predicate Inv(w: World, s: State) {
    Agree(w, s) && Current(s) && forall t :: 0 <= t < |s.tasks| ==> Accounted(w, s, s.tasks[t])
  }

  lemma ZipBack(ps: seq<Pair>)
    ensures Zip(CallbackList(ps), IndexList(ps)) == ps
  {
  }

  lemma CallsNowAre(w: World, s: State, hash: Hash, confirmations: seq<nat>)
    requires Agree(w, s)
    ensures CallsNow(w, s, hash, confirmations) == if hash in s.callbacks then AllCalls(w, hash, confirmations) else []
  {
    ZipBack(AffixedPairs(w, hash));
  }

  lemma LostBefore(history: seq<MapEvent>, e: MapEvent, from: nat, to: nat, h: Hash)
    requires to <= |history|
    ensures Lost(history + [e], from, to, h) == Lost(history, from, to, h)
  {
    var longer := history + [e];
    assert forall k :: 0 <= k < to ==> longer[k] == history[k];
    if k :| from <= k < to && history[k] == Forgotten(h) && forall j :: k < j < to ==> history[j] != WasSet(h) {
      assert longer[k] == Forgotten(h);
    }
    if k :| from <= k < to && longer[k] == Forgotten(h) && forall j :: k < j < to ==> longer[j] != WasSet(h) {
      assert history[k] == Forgotten(h);
    }
  }

  lemma LostNext(history: seq<MapEvent>, e: MapEvent, from: nat, h: Hash)
    requires from <= |history|
    ensures Lost(history + [e], from, |history| + 1, h)
            == if e == Forgotten(h) then true else if e == WasSet(h) then false else Lost(history, from, |history|, h)
  {
    var longer, n := history + [e], |history|;
    assert longer[n] == e && forall k :: 0 <= k < n ==> longer[k] == history[k];
    if k :| from <= k < n && history[k] == Forgotten(h) && forall j :: k < j < n ==> history[j] != WasSet(h) {
      assert longer[k] == Forgotten(h);
      assert e != WasSet(h) ==> forall j :: k < j < n + 1 ==> longer[j] != WasSet(h);
    }
    if k :| from <= k < n + 1 && longer[k] == Forgotten(h) && forall j :: k < j < n + 1 ==> longer[j] != WasSet(h) {
      assert longer[n] != WasSet(h) || k == n;
      assert k < n ==> history[k] == Forgotten(h);
    }
  }

  lemma PresentBefore(history: seq<MapEvent>, e: MapEvent, to: nat, h: Hash)
    requires to <= |history|
    ensures Present(history + [e], to, h) == Present(history, to, h)
  {
    var longer := history + [e];
    assert forall k :: 0 <= k < to ==> longer[k] == history[k];
    if k :| 0 <= k < to && history[k] == WasSet(h) && forall j :: k < j < to ==> history[j] != Forgotten(h) {
      assert longer[k] == WasSet(h);
    }
    if k :| 0 <= k < to && longer[k] == WasSet(h) && forall j :: k < j < to ==> longer[j] != Forgotten(h) {
      assert history[k] == WasSet(h);
    }
  }

  lemma PresentNext(history: seq<MapEvent>, e: MapEvent, h: Hash)
    ensures Present(history + [e], |history| + 1, h)
            == if e == WasSet(h) then true else if e == Forgotten(h) then false else Present(history, |history|, h)
  {
    var longer, n := history + [e], |history|;
    assert longer[n] == e && forall k :: 0 <= k < n ==> longer[k] == history[k];
    if k :| 0 <= k < n && history[k] == WasSet(h) && forall j :: k < j < n ==> history[j] != Forgotten(h) {
      assert longer[k] == WasSet(h);
      assert e != Forgotten(h) ==> forall j :: k < j < n + 1 ==> longer[j] != Forgotten(h);
    }
    if k :| 0 <= k < n + 1 && longer[k] == WasSet(h) && forall j :: k < j < n + 1 ==> longer[j] != Forgotten(h) {
      assert longer[n] != Forgotten(h) || k == n;
      assert k < n ==> history[k] == WasSet(h);
    }
  }

  lemma CurrentNext(s: State, s': State, e: MapEvent)
    requires Current(s) && s'.history == s.history + [e]
    requires forall h :: h in s'.callbacks <==> if h == e.hash then e.WasSet? else h in s.callbacks
    ensures Current(s')
  {
    forall h ensures h in s'.callbacks <==> Present(s'.history, |s'.history|, h) {
      PresentNext(s.history, e, h);
    }
  }

  lemma ChangeAccounted(w: World, s: State, s': State, e: MapEvent, task: Task)
    requires Accounted(w, s, task) && s'.history == s.history + [e]
    requires forall h :: h in s'.callbacks <==> if h == e.hash then e.WasSet? else h in s.callbacks
    ensures Accounted(w, s', task)
  {
    match task.progress {
      case Started => {}
      case Missing(at) => PresentBefore(s.history, e, at, task.hash);
      case Listed(at) => LostNext(s.history, e, at, task.hash);
      case Done(at, lookedUp, _) => LostBefore(s.history, e, at, lookedUp, task.hash);
    }
  }

  /** A change of the maps for one hash. */
  lemma ChangeKeeps(w: World, s: State, s': State, e: MapEvent)
    requires Inv(w, s) && Agree(w, s') && s'.tasks == s.tasks && s'.history == s.history + [e]
    requires forall h :: h in s'.callbacks <==> if h == e.hash then e.WasSet? else h in s.callbacks
    ensures Inv(w, s')
  {
    CurrentNext(s, s', e);
    forall t | 0 <= t < |s.tasks| ensures Accounted(w, s', s.tasks[t]) {
      ChangeAccounted(w, s, s', e, s.tasks[t]);
    }
  }

  /** One task goes on, the maps staying as they are. */
  lemma MoveKeeps(w: World, s: State, t: nat, progress: Progress)
    requires Inv(w, s) && t < |s.tasks| && Accounted(w, s, s.tasks[t].(progress := progress))
    ensures Inv(w, Move(s, t, progress))
  {
    var s' := Move(s, t, progress);
    forall u | 0 <= u < |s'.tasks| ensures Accounted(w, s', s'.tasks[u]) {
      assert u != t ==> Accounted(w, s, s.tasks[u]);
    }
  }

  /** The block's lists are set. */
  ghost function WithLists(w: World, s: State, h: Hash): State {
    s.(callbacks := s.callbacks[h := CallbackList(AffixedPairs(w, h))],
       indices := s.indices[h := IndexList(AffixedPairs(w, h))],
       history := s.history + [WasSet(h)])
  }

  lemma WithListsKeeps(w: World, s: State, h: Hash)
    requires Inv(w, s)
    ensures Inv(w, WithLists(w, s, h))
  {
    assert Agree(w, WithLists(w, s, h));
    ChangeKeeps(w, s, WithLists(w, s, h), WasSet(h));
  }

  lemma ListedNow(w: World, s: State, h: Hash, confirmations: seq<nat>)
    requires h in s.callbacks
    ensures Accounted(w, s, Task(h, confirmations, Listed(|s.history|)))
  {
  }

  lemma SetKeeps(w: World, s: State, t: nat)
    requires Inv(w, s) && Enabled(w, s, SetBoth(t))
    ensures Inv(w, Apply(w, s, SetBoth(t)))
  {
    var task := s.tasks[t];
    var s1 := WithLists(w, s, task.hash);
    WithListsKeeps(w, s, task.hash);
    ListedNow(w, s1, task.hash, task.confirmations);
    MoveKeeps(w, s1, t, Listed(|s1.history|));
    assert Apply(w, s, SetBoth(t)) == Move(s1, t, Listed(|s1.history|));
  }

  lemma LookUpKeeps(w: World, s: State, t: nat)
    requires Inv(w, s) && Enabled(w, s, LookUp(t))
    ensures Inv(w, Apply(w, s, LookUp(t)))
  {
    var task := s.tasks[t];
    assert Accounted(w, s, task);
    CallsNowAre(w, s, task.hash, task.confirmations);
    MoveKeeps(w, s, t, Done(task.progress.at, |s.history|, CallsNow(w, s, task.hash, task.confirmations)));
  }

  lemma StepInv(w: World, s: State, step: Step)
    requires Inv(w, s) && Enabled(w, s, step)
    ensures Inv(w, Apply(w, s, step))
  {
    match step {
      case Confirm(h, confirmations) =>
        var s' := Apply(w, s, step);
        forall t | 0 <= t < |s'.tasks| ensures Accounted(w, s', s'.tasks[t]) {
          assert t < |s.tasks| ==> Accounted(w, s, s.tasks[t]);
        }
      case Look(t) =>
        var at := |s.history|;
        MoveKeeps(w, s, t, if s.tasks[t].hash in s.callbacks then Listed(at) else Missing(at));
      case SetBoth(t) => SetKeeps(w, s, t);
      case LookUp(t) => LookUpKeeps(w, s, t);
      case Forget(_, h) => ChangeKeeps(w, s, Apply(w, s, step), Forgotten(h));
    }
  }

  /** However confirmations and deletions interleave, the maps agree at every await, and each task is accounted for. */
  lemma {:induction false} RunInv(w: World, s: State, steps: seq<Step>)
    requires Inv(w, s) && Runs(w, s, steps)
    ensures Inv(w, Run(w, s, steps))
    decreases |steps|
  {
    if steps != [] {
      StepInv(w, s, steps[0]);
      RunInv(w, Apply(w, s, steps[0]), steps[1..]);
    }
  }

  /**
   A confirmation makes all its calls, unless the block's lists were deleted between being affixed and
   being looked up, and not set again by another confirmation since; and then it makes none.
   */
  lemma CallsUnlessForgotten(w: World, steps: seq<Step>, t: nat)
    requires Runs(w, INITIAL, steps) && t < |Run(w, INITIAL, steps).tasks|
    requires Run(w, INITIAL, steps).tasks[t].progress.Done?
    ensures var s := Run(w, INITIAL, steps);
            var task := s.tasks[t];
            && task.progress.at <= task.progress.lookedUp <= |s.history|
            && task.progress.calls == if Lost(s.history, task.progress.at, task.progress.lookedUp, task.hash) then []
                                      else AllCalls(w, task.hash, task.confirmations)
  {
    RunInv(w, INITIAL, steps);
    assert Accounted(w, Run(w, INITIAL, steps), Run(w, INITIAL, steps).tasks[t]);
  }

  /** A confirmation makes the lists of a block only if it found it without. */
  lemma SetOnlyIfAbsent(w: World, steps: seq<Step>, t: nat)
    requires Runs(w, INITIAL, steps) && Enabled(w, Run(w, INITIAL, steps), SetBoth(t))
    ensures var s := Run(w, INITIAL, steps);
            s.tasks[t].progress.at <= |s.history| && !Present(s.history, s.tasks[t].progress.at, s.tasks[t].hash)
  {
    RunInv(w, INITIAL, steps);
    assert Accounted(w, Run(w, INITIAL, steps), Run(w, INITIAL, steps).tasks[t]);
  }

  lemma RunFirst(w: World, s: State, step: Step, rest: seq<Step>)
    requires Enabled(w, s, step) && Runs(w, Apply(w, s, step), rest)
    ensures Runs(w, s, [step] + rest) && Run(w, s, [step] + rest) == Run(w, Apply(w, s, step), rest)
  {
    assert ([step] + rest)[1..] == rest;
  }

  lemma Applied(w: World, s: State, step: Step) returns (s': State)
    requires Enabled(w, s, step)
    ensures s' == Apply(w, s, step)
  {
    s' := Apply(w, s, step);
  }

  /**
   It can happen with any block that another one is added five above: its lists are set, that one is added
   and deletes them, and the confirmation makes no call.
   */
  lemma ForgottenInBetween(w: World, h: Hash, added: Hash, confirmations: seq<nat>) returns (steps: seq<Step>)
    requires Prunes(w.blocks(added)) && w.blocks(h).id == w.blocks(added).id - 5
    ensures Runs(w, INITIAL, steps)
    ensures var s := Run(w, INITIAL, steps);
            s.tasks == [Task(h, confirmations, Done(1, 2, []))] && s.history == [WasSet(h), Forgotten(h)]
  {
    var s1 := Applied(w, INITIAL, Confirm(h, confirmations));
    var s2 := Applied(w, s1, Look(0));
    var s3 := Applied(w, s2, SetBoth(0));
    var s4 := Applied(w, s3, Forget(added, h));
    var s5 := Applied(w, s4, LookUp(0));
    assert s5.history == [WasSet(h), Forgotten(h)];
    assert Runs(w, s5, []) && Run(w, s5, []) == s5;
    RunFirst(w, s4, LookUp(0), []);
    RunFirst(w, s3, Forget(added, h), [LookUp(0)] + []);
    RunFirst(w, s2, SetBoth(0), [Forget(added, h)] + ([LookUp(0)] + []));
    steps := [SetBoth(0)] + ([Forget(added, h)] + ([LookUp(0)] + []));
    RunFirst(w, s1, Look(0), steps);
    RunFirst(w, INITIAL, Confirm(h, confirmations), [Look(0)] + steps);
    steps := [Confirm(h, confirmations)] + ([Look(0)] + steps);
  }
}

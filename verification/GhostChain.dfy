/**
 Ghost chains: the summary of the longest chain a full node sends to a lite client, and its replay,
 which recomputes every block hash from the pre-hashes alone.

 The hash function is a parameter, the block ring a map from id to hash, the blocks a map from hash
 to block; what the sync state, the chain and the reorganization do with what they are given is
 recorded as lists.
 */
module GhostChain {
  import opened Options

  type Hash = seq<bv8>
  type PublicKey = seq<bv8>

  /** The hash value that stands for "unknown". */
  function Zero(): Hash {
    seq(32, _ => 0)
  }

  datatype Block = Block(
    id: nat, hash: Hash, previous: Hash, preHash: Hash, timestamp: nat, goldenTicket: bool, keys: set<PublicKey>)

  datatype Chain = Chain(ring: map<nat, Hash>, blocks: map<Hash, Block>, genesisId: nat, latestId: nat)

  datatype Sync = Sync(
    start: Hash,
    preHashes: seq<Hash>,
    previousHashes: seq<Hash>,
    ids: seq<nat>,
    timestamps: seq<nat>,
    wanted: seq<bool>,
    goldenTickets: seq<bool>)

  // ----- generating -----

  function At(chain: Chain, id: nat): Option<Block> {
    if id in chain.ring && chain.ring[id] in chain.blocks then Some(chain.blocks[chain.ring[id]]) else None
  }

  /** The blocks of the longest chain with ids in lo..=hi, skipping ids with no block. */
  function Listed(chain: Chain, lo: nat, hi: nat): seq<Block>
    decreases hi
  {
    if hi < lo then []
    else
      (if hi == 0 then [] else Listed(chain, lo, hi - 1))
      + (if At(chain, hi).Some? then [At(chain, hi).value] else [])
  }

  predicate HasKeys(b: Block, keys: seq<PublicKey>) {
    exists k :: k in keys && k in b.keys
  }

  /** Where the summary starts: ancestor is the shared ancestor the chain finds for the request, 0 if none. */
  function SharedAncestor(chain: Chain, requested: nat, ancestor: nat): nat {
    var first := if requested == 0 || requested < chain.genesisId
                 then (if chain.latestId < 10 then 0 else chain.latestId - 10)
                 else ancestor;
    if first != 0 then first
    else if requested < chain.genesisId then chain.genesisId else requested
  }

  function AncestorHash(chain: Chain, ancestor: nat): Hash {
    if ancestor in chain.ring then chain.ring[ancestor] else Zero()
  }

  function Describe(start: Hash, bs: seq<Block>, keys: seq<PublicKey>): Sync {
    Sync(start,
         seq(|bs|, i requires 0 <= i < |bs| => bs[i].preHash),
         seq(|bs|, i requires 0 <= i < |bs| => bs[i].previous),
         seq(|bs|, i requires 0 <= i < |bs| => bs[i].id),
         seq(|bs|, i requires 0 <= i < |bs| => bs[i].timestamp),
         seq(|bs|, i requires 0 <= i < |bs| => HasKeys(bs[i], keys)),
         seq(|bs|, i requires 0 <= i < |bs| => bs[i].goldenTicket))
  }

  /** The start is repaired from the first block sent when the ancestor's hash is unknown. */
  function StartHash(known: Hash, bs: seq<Block>): Hash {
    if known == Zero() && bs != [] then bs[0].previous else known
  }

  /** The message for the part of the chain above a. */
  function Message(chain: Chain, a: nat, keys: seq<PublicKey>): Sync {
    var bs := Listed(chain, a + 1, chain.latestId);
    Describe(StartHash(AncestorHash(chain, a), bs), bs, keys)
  }

  /** What a peer is sent for its request. */
  function Generated(chain: Chain, requested: nat, ancestor: nat, keys: seq<PublicKey>): Sync {
    Message(chain, SharedAncestor(chain, requested, ancestor), keys)
  }

  method Generate(chain: Chain, requested: nat, ancestor: nat, keys: seq<PublicKey>) returns (sync: Sync)
    ensures sync == Generated(chain, requested, ancestor, keys)
  {
    var shared := SharedAncestor(chain, requested, ancestor);
    var start := AncestorHash(chain, shared);
    sync := Sync(start, [], [], [], [], [], []);
    var i := shared + 1;
    ghost var bs: seq<Block> := [];
    while i <= chain.latestId
      invariant shared + 1 <= i
      invariant i <= chain.latestId + 1 || i == shared + 1
      invariant bs == Listed(chain, shared + 1, i - 1)
      invariant sync == Describe(StartHash(start, bs), bs, keys)
    {
      if i in chain.ring && chain.ring[i] in chain.blocks {
        var block := chain.blocks[chain.ring[i]];
        if sync.start == Zero() && sync.goldenTickets == [] {
          sync := sync.(start := block.previous);
        }
        sync := sync.(
          goldenTickets := sync.goldenTickets + [block.goldenTicket],
          timestamps := sync.timestamps + [block.timestamp],
          preHashes := sync.preHashes + [block.preHash],
          previousHashes := sync.previousHashes + [block.previous],
          ids := sync.ids + [block.id],
          wanted := sync.wanted + [HasKeys(block, keys)]);
        bs := bs + [block];
      }
      i := i + 1;
    }
  }

  // ----- replaying -----

  /** The block hashes recomputed from a start: each is the hash of the one before it and its pre-hash. */
  function Hashes(hash: Hash -> Hash, start: Hash, preHashes: seq<Hash>): (hs: seq<Hash>)
    ensures |hs| == |preHashes|
    decreases |preHashes|
  {
    if preHashes == [] then []
    else
      var h := hash(start + preHashes[0]);
      [h] + Hashes(hash, h, preHashes[1..])
  }

  datatype Fetch = Fetch(hash: Hash, id: nat, peer: nat)

  datatype GhostBlock = GhostBlock(
    id: nat, previous: Hash, timestamp: nat, preHash: Hash, goldenTicket: bool, hash: Hash)

  datatype Target = Target(id: nat, hash: Hash)

  /** The lists reach far enough for the first n turns of the replay; where one does not, the original panics. */
  predicate Readable(sync: Sync, n: nat) {
    && n <= |sync.preHashes| && n <= |sync.wanted| && n <= |sync.ids|
    && forall i :: 0 <= i < n && !sync.wanted[i] ==>
         i < |sync.previousHashes| && i < |sync.timestamps| && i < |sync.goldenTickets|
  }

  /** The positions below n that are wanted (or not), in increasing order. */
  function Positions(wanted: seq<bool>, n: nat, want: bool): (ps: seq<nat>)
    requires n <= |wanted|
    ensures forall j :: 0 <= j < |ps| ==> ps[j] < n && wanted[ps[j]] == want
  {
    if n == 0 then [] else Positions(wanted, n - 1, want) + (if wanted[n - 1] == want then [n - 1] else [])
  }

  /** The length of the longest prefix of the first n entries in which nothing is wanted. */
  function Quiet(wanted: seq<bool>, n: nat): (k: nat)
    requires n <= |wanted|
    ensures k <= n && (forall i :: 0 <= i < k ==> !wanted[i]) && (k < n ==> wanted[k])
  {
    if n == 0 then 0
    else
      var k := Quiet(wanted, n - 1);
      if k == n - 1 && !wanted[n - 1] then n else k
  }

  function FetchesOf(sync: Sync, hs: seq<Hash>, n: nat, peer: nat): seq<Fetch>
    requires Readable(sync, n) && n <= |hs|
  {
    var ps := Positions(sync.wanted, n, true);
    seq(|ps|, j requires 0 <= j < |ps| => Fetch(hs[ps[j]], sync.ids[ps[j]], peer))
  }

  function GhostAt(sync: Sync, hs: seq<Hash>, i: nat): GhostBlock
    requires Readable(sync, i + 1) && i < |hs| && !sync.wanted[i]
  {
    GhostBlock(sync.ids[i], sync.previousHashes[i], sync.timestamps[i], sync.preHashes[i], sync.goldenTickets[i], hs[i])
  }

  function GhostsOf(sync: Sync, hs: seq<Hash>, n: nat): seq<GhostBlock>
    requires Readable(sync, n) && n <= |hs|
  {
    var ps := Positions(sync.wanted, n, false);
    seq(|ps|, j requires 0 <= j < |ps| => GhostAt(sync, hs, ps[j]))
  }

  /** The last entry of the quiet prefix of the first n, or nothing. */
  function LastQuiet(sync: Sync, hs: seq<Hash>, n: nat): Option<Target>
    requires Readable(sync, n) && n <= |hs|
  {
    var k := Quiet(sync.wanted, n);
    if k == 0 then None else Some(Target(sync.ids[k - 1], hs[k - 1]))
  }

  /** The block the chain is reorganized to: the last of the quiet prefix, unless its id is 0. */
  function Reorganization(last: Option<Target>): seq<Target> {
    if last.Some? && last.value.id != 0 then [last.value] else []
  }

  lemma NextFetch(sync: Sync, hs: seq<Hash>, n: nat, peer: nat)
    requires Readable(sync, n + 1) && n < |hs|
    ensures FetchesOf(sync, hs, n + 1, peer)
         == FetchesOf(sync, hs, n, peer) + (if sync.wanted[n] then [Fetch(hs[n], sync.ids[n], peer)] else [])
  {
  }

  lemma NextGhost(sync: Sync, hs: seq<Hash>, n: nat)
    requires Readable(sync, n + 1) && n < |hs|
    ensures GhostsOf(sync, hs, n + 1)
         == GhostsOf(sync, hs, n) + (if sync.wanted[n] then [] else [GhostAt(sync, hs, n)])
  {
  }

  lemma NextQuiet(sync: Sync, hs: seq<Hash>, n: nat)
    requires Readable(sync, n + 1) && n < |hs|
    ensures LastQuiet(sync, hs, n + 1)
         == if Quiet(sync.wanted, n) == n && !sync.wanted[n] then Some(Target(sync.ids[n], hs[n]))
            else LastQuiet(sync, hs, n)
  {
  }

  lemma {:induction false} HashesAt(hash: Hash -> Hash, start: Hash, preHashes: seq<Hash>, i: nat)
    requires i < |preHashes|
    ensures var hs := Hashes(hash, start, preHashes);
            hs[i] == hash((if i == 0 then start else hs[i - 1]) + preHashes[i])
    decreases i
  {
    if i > 0 {
      HashesAt(hash, hash(start + preHashes[0]), preHashes[1..], i - 1);
    }
  }

  class LiteClient {
    var fetches: seq<Fetch>            // entries given to the sync state, in order
    var ghosts: seq<GhostBlock>        // ghost blocks given to the chain, in order
    var reorganizations: seq<Target>
    var loadingCompleted: bool

    constructor ()
      ensures fetches == [] && ghosts == [] && reorganizations == [] && !loadingCompleted
    {
      fetches, ghosts, reorganizations, loadingCompleted := [], [], [], false;
    }

    /** One entry of a message; false when the original would have panicked on a list too short. */
    method ReplayEntry(sync: Sync, i: nat, blockHash: Hash, peer: nat) returns (ok: bool)
      requires i < |sync.preHashes| && Readable(sync, i)
      modifies this`fetches, this`ghosts
      ensures ok == Readable(sync, i + 1)
      ensures ok <==> && i < |sync.wanted| && i < |sync.ids|
                      && (sync.wanted[i]
                          || (i < |sync.previousHashes| && i < |sync.timestamps| && i < |sync.goldenTickets|))
      ensures ok && sync.wanted[i] ==>
        fetches == old(fetches) + [Fetch(blockHash, sync.ids[i], peer)] && ghosts == old(ghosts)
      ensures ok && !sync.wanted[i] ==>
        && fetches == old(fetches)
        && ghosts == old(ghosts) + [GhostBlock(sync.ids[i], sync.previousHashes[i], sync.timestamps[i],
                                               sync.preHashes[i], sync.goldenTickets[i], blockHash)]
    {
      if i >= |sync.wanted| || i >= |sync.ids| {
        return false;
      }
      if sync.wanted[i] {
        fetches := fetches + [Fetch(blockHash, sync.ids[i], peer)];
      } else {
        if i >= |sync.previousHashes| || i >= |sync.timestamps| || i >= |sync.goldenTickets| {
          return false;
        }
        ghosts := ghosts + [GhostBlock(sync.ids[i], sync.previousHashes[i], sync.timestamps[i],
                                       sync.preHashes[i], sync.goldenTickets[i], blockHash)];
      }
      ok := true;
    }

    /** The same, stated for what has been replayed so far, on top of what the lists held before. */
    method ReplayNext(sync: Sync, ghost hs: seq<Hash>, i: nat, blockHash: Hash, peer: nat,
                      ghost fetched: seq<Fetch>, ghost added: seq<GhostBlock>) returns (ok: bool)
      requires i < |sync.preHashes| == |hs| && Readable(sync, i) && blockHash == hs[i]
      requires fetches == fetched + FetchesOf(sync, hs, i, peer)
      requires ghosts == added + GhostsOf(sync, hs, i)
      modifies this`fetches, this`ghosts
      ensures ok == Readable(sync, i + 1)
      ensures ok ==> fetches == fetched + FetchesOf(sync, hs, i + 1, peer)
      ensures ok ==> ghosts == added + GhostsOf(sync, hs, i + 1)
    {
      ok := ReplayEntry(sync, i, blockHash, peer);
      if ok {
        NextFetch(sync, hs, i, peer);
        NextGhost(sync, hs, i);
      }
    }

    /** Replays a message; false when the original would have panicked. */
    method ProcessGhostChain(hash: Hash -> Hash, sync: Sync, peer: nat) returns (ok: bool)
      modifies this
      ensures ok == Readable(sync, |sync.preHashes|)
      ensures ok ==> var hs := Hashes(hash, sync.start, sync.preHashes);
        && fetches == old(fetches) + FetchesOf(sync, hs, |hs|, peer)
        && ghosts == old(ghosts) + GhostsOf(sync, hs, |hs|)
        && reorganizations == old(reorganizations) + Reorganization(LastQuiet(sync, hs, |hs|))
        && loadingCompleted
      ensures !ok ==> reorganizations == old(reorganizations) && loadingCompleted == old(loadingCompleted)
    {
      ghost var hs := Hashes(hash, sync.start, sync.preHashes);
      var previous := sync.start;
      var lowest := None;
      var needFetch := false;
      var i := 0;
      while i < |sync.preHashes|
        invariant 0 <= i <= |sync.preHashes| && Readable(sync, i)
        invariant previous == if i == 0 then sync.start else hs[i - 1]
        invariant fetches == old(fetches) + FetchesOf(sync, hs, i, peer)
        invariant ghosts == old(ghosts) + GhostsOf(sync, hs, i)
        invariant needFetch == (Quiet(sync.wanted, i) < i)
        invariant lowest == LastQuiet(sync, hs, i)
        invariant reorganizations == old(reorganizations) && loadingCompleted == old(loadingCompleted)
      {
        var blockHash := hash(previous + sync.preHashes[i]);
        HashesAt(hash, sync.start, sync.preHashes, i);
        ok := ReplayNext(sync, hs, i, blockHash, peer, old(fetches), old(ghosts));
        if !ok {
          return;
        }
        NextQuiet(sync, hs, i);
        if sync.wanted[i] {
          needFetch := true;
        } else if !needFetch {
          lowest := Some(Target(sync.ids[i], blockHash));
        }
        previous := blockHash;
        i := i + 1;
      }
      CompleteLoading(lowest);
      ok := true;
    }

    /** The one reorganization, if any, and the end of loading. */
    method CompleteLoading(lowest: Option<Target>)
      modifies this`reorganizations, this`loadingCompleted
      ensures reorganizations == old(reorganizations) + Reorganization(lowest) && loadingCompleted
      ensures reorganizations == old(reorganizations) + if lowest == None || lowest.value.id == 0 then []
                                                        else [lowest.value]
    {
      if lowest.Some? && lowest.value.id != 0 {
        reorganizations := reorganizations + [lowest.value];
      }
      loadingCompleted := true;
    }
  }
}

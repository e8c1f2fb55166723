/**
 Replaying a generated ghost chain recomputes every block hash, exactly when the longest chain has
 no gap between the shared ancestor and its last block; entries are split into fetches and ghosts.
 */
module GhostChainProofs {
  import opened Options
  import opened GhostChain

  // ----- what the replay does with the entries -----

  /** Every entry is either wanted or not, so it is in exactly one of the two lists of positions. */
  lemma {:induction false} PositionsSplit(wanted: seq<bool>, n: nat)
    requires n <= |wanted|
    ensures var yes, no := Positions(wanted, n, true), Positions(wanted, n, false);
            && |yes| + |no| == n
            && (forall i :: 0 <= i < n ==> (i in yes <==> i !in no))
            && (forall i, j :: 0 <= i < j < |yes| ==> yes[i] < yes[j])
            && (forall i, j :: 0 <= i < j < |no| ==> no[i] < no[j])
    decreases n
  {
    if n > 0 {
      PositionsSplit(wanted, n - 1);
    }
  }

  // ----- linked blocks -----

  function HashList(bs: seq<Block>): (hs: seq<Hash>)
    ensures |hs| == |bs|
  {
    seq(|bs|, i requires 0 <= i < |bs| => bs[i].hash)
  }

  function PreHashes(bs: seq<Block>): (hs: seq<Hash>)
    ensures |hs| == |bs|
  {
    seq(|bs|, i requires 0 <= i < |bs| => bs[i].preHash)
  }

  /** Each block names the one before it, and the first names the start. */
  ghost predicate Linked(start: Hash, bs: seq<Block>) {
    && (bs != [] ==> bs[0].previous == start)
    && (forall k {:trigger bs[k]} :: 0 < k < |bs| ==> bs[k].previous == bs[k - 1].hash)
  }

  ghost predicate Hashed(hash: Hash -> Hash, bs: seq<Block>) {
    forall k :: 0 <= k < |bs| ==> bs[k].hash == hash(bs[k].previous + bs[k].preHash)
  }

  lemma {:induction false} LinkedRecovers(hash: Hash -> Hash, start: Hash, bs: seq<Block>)
    requires Linked(start, bs) && Hashed(hash, bs)
    ensures Hashes(hash, start, PreHashes(bs)) == HashList(bs)
    decreases |bs|
  {
    if bs != [] {
      var b, rest := bs[0], bs[1..];
      assert b.previous == start && b.preHash == PreHashes(bs)[0];
      assert b.hash == hash(start + PreHashes(bs)[0]);
      assert PreHashes(bs)[1..] == PreHashes(rest);
      assert Linked(b.hash, rest) by {
        forall k | 0 <= k < |rest|
          ensures rest[k].previous == if k == 0 then b.hash else rest[k - 1].hash
        {
          assert rest[k] == bs[k + 1];
          if k > 0 {
            assert rest[k - 1] == bs[k];
          }
        }
      }
      LinkedRecovers(hash, b.hash, rest);
      assert HashList(bs) == [b.hash] + HashList(rest);
    }
  }

  /** A block's hash admits only its own parent: no other 32-byte value hashes to it with its pre-hash. */
  ghost predicate Binding(hash: Hash -> Hash, bs: seq<Block>) {
    forall k, p: Hash :: 0 <= k < |bs| && |p| == 32 && hash(p + bs[k].preHash) == bs[k].hash ==> p == bs[k].previous
  }

  lemma RecoversLinked(hash: Hash -> Hash, start: Hash, bs: seq<Block>)
    requires Binding(hash, bs) && |start| == 32 && forall b :: b in bs ==> |b.hash| == 32
    requires Hashes(hash, start, PreHashes(bs)) == HashList(bs)
    ensures Linked(start, bs)
  {
    if bs != [] {
      HashesAt(hash, start, PreHashes(bs), 0);
      assert hash(start + bs[0].preHash) == HashList(bs)[0];
    }
    forall k | 0 < k < |bs|
      ensures bs[k].previous == bs[k - 1].hash
    {
      HashesAt(hash, start, PreHashes(bs), k);
      assert hash(bs[k - 1].hash + bs[k].preHash) == HashList(bs)[k];
    }
  }

  // ----- the blocks listed from a chain -----

  /** The block after the ring's entry at id, if it is there, names that entry as its parent. */
  ghost predicate LinkAfter(chain: Chain, id: nat) {
    id in chain.ring && At(chain, id + 1).Some? ==> At(chain, id + 1).value.previous == chain.ring[id]
  }

  /** If the block at id names the ring's entry at i as its parent, i is the id just below. */
  ghost predicate ParentAt(chain: Chain, id: nat, i: nat) {
    At(chain, id).Some? && i in chain.ring && At(chain, id).value.previous == chain.ring[i] ==> id == i + 1
  }

  /** The longest chain as the block ring and the block store keep it. */
  ghost predicate ChainOk(chain: Chain, hash: Hash -> Hash) {
    && (forall h :: h in chain.blocks ==>
          chain.blocks[h].hash == h == hash(chain.blocks[h].previous + chain.blocks[h].preHash)
          && |h| == |chain.blocks[h].previous| == 32)
    && (forall id :: id in chain.ring ==> |chain.ring[id]| == 32)
    && (forall id :: id in chain.ring && chain.ring[id] in chain.blocks ==> chain.blocks[chain.ring[id]].id == id)
    && (forall id :: LinkAfter(chain, id))
  }

  ghost predicate ParentsBelow(chain: Chain) {
    forall id, i :: ParentAt(chain, id, i)
  }

  ghost predicate Has(chain: Chain, id: nat) {
    At(chain, id).Some?
  }

  /**
   No block is missing between two that are there, nor between an ancestor whose hash is known and
   the first block after it.
   */
  ghost predicate GapFree(chain: Chain, ancestor: nat) {
    && (forall i, j, k {:trigger Has(chain, i), Has(chain, j), Has(chain, k)} ::
          ancestor < i < j < k <= chain.latestId && Has(chain, i) && Has(chain, k) ==> Has(chain, j))
    && (AncestorHash(chain, ancestor) != Zero() ==>
          forall k {:trigger Has(chain, k)} ::
            ancestor < k <= chain.latestId && Has(chain, k) ==> Has(chain, ancestor + 1))
  }

  /** bs holds, in order of id, the blocks whose ids lie in lo..=hi. */
  ghost predicate Lists(chain: Chain, lo: nat, hi: nat, bs: seq<Block>) {
    && (forall k :: 0 <= k < |bs| ==> lo <= bs[k].id <= hi && At(chain, bs[k].id) == Some(bs[k]))
    && (forall i, j :: 0 <= i < j < |bs| ==> bs[i].id < bs[j].id)
    && (forall id :: lo <= id <= hi && At(chain, id).Some? ==> exists k :: 0 <= k < |bs| && bs[k].id == id)
  }

  lemma {:induction false} ListedLists(chain: Chain, hash: Hash -> Hash, lo: nat, hi: nat)
    requires ChainOk(chain, hash) && 0 < lo
    ensures Lists(chain, lo, hi, Listed(chain, lo, hi))
    decreases hi
  {
    if lo <= hi {
      ListedLists(chain, hash, lo, hi - 1);
      ListsNext(chain, lo, hi, Listed(chain, lo, hi - 1));
    }
  }

  lemma ListsNext(chain: Chain, lo: nat, hi: nat, bs: seq<Block>)
    requires 0 < lo <= hi && Lists(chain, lo, hi - 1, bs)
    requires At(chain, hi).Some? ==> At(chain, hi).value.id == hi
    ensures Lists(chain, lo, hi, bs + if At(chain, hi).Some? then [At(chain, hi).value] else [])
  {
    var longer := bs + if At(chain, hi).Some? then [At(chain, hi).value] else [];
    forall id | lo <= id <= hi && At(chain, id).Some?
      ensures exists k :: 0 <= k < |longer| && longer[k].id == id
    {
      if id < hi {
        var k :| 0 <= k < |bs| && bs[k].id == id;
        assert longer[k].id == id;
      } else {
        assert longer[|bs|].id == id;
      }
    }
  }

  // ----- exactly when the replay recovers the chain -----

  ghost predicate Consecutive(bs: seq<Block>) {
    forall k {:trigger bs[k]} :: 0 < k < |bs| ==> bs[k].id == bs[k - 1].id + 1
  }

  lemma GapFreeConsecutive(chain: Chain, a: nat, bs: seq<Block>)
    requires Lists(chain, a + 1, chain.latestId, bs) && GapFree(chain, a)
    ensures Consecutive(bs)
  {
    forall k | 0 < k < |bs|
      ensures bs[k].id == bs[k - 1].id + 1
    {
      var i, j := bs[k - 1].id, bs[k - 1].id + 1;
      assert Has(chain, i) && Has(chain, bs[k].id);
      if j < bs[k].id {
        assert Has(chain, j);
        var m := PositionOf(chain, a, bs, j);
        NothingBetween(bs, k, m);
      }
    }
  }

  lemma NothingBetween(bs: seq<Block>, k: nat, m: nat)
    requires 0 < k < |bs| && m < |bs|
    requires forall i, j :: 0 <= i < j < |bs| ==> bs[i].id < bs[j].id
    ensures !(bs[k - 1].id < bs[m].id < bs[k].id)
  {
  }

  lemma FirstAfterAncestor(chain: Chain, hash: Hash -> Hash, a: nat, bs: seq<Block>)
    requires ChainOk(chain, hash) && Lists(chain, a + 1, chain.latestId, bs) && GapFree(chain, a)
    requires bs != [] && AncestorHash(chain, a) != Zero()
    ensures bs[0].previous == AncestorHash(chain, a)
  {
    assert At(chain, bs[0].id) == Some(bs[0]);
    assert Has(chain, bs[0].id);
    assert Has(chain, a + 1);
    var m := PositionOf(chain, a, bs, a + 1);
    assert bs[0].id == a + 1 && LinkAfter(chain, a);
  }

  /** Without gaps the listed blocks are linked from the start the message carries. */
  lemma GapFreeLinked(chain: Chain, hash: Hash -> Hash, a: nat, bs: seq<Block>)
    requires ChainOk(chain, hash) && Lists(chain, a + 1, chain.latestId, bs) && GapFree(chain, a)
    ensures Linked(StartHash(AncestorHash(chain, a), bs), bs)
  {
    GapFreeConsecutive(chain, a, bs);
    forall k | 0 < k < |bs|
      ensures bs[k].previous == bs[k - 1].hash
    {
      assert At(chain, bs[k].id) == Some(bs[k]) && At(chain, bs[k - 1].id) == Some(bs[k - 1]);
      assert LinkAfter(chain, bs[k - 1].id);
    }
    if bs != [] && AncestorHash(chain, a) != Zero() {
      FirstAfterAncestor(chain, hash, a, bs);
    }
  }

  lemma LinkedConsecutive(chain: Chain, hash: Hash -> Hash, start: Hash, lo: nat, bs: seq<Block>)
    requires ChainOk(chain, hash) && ParentsBelow(chain) && Lists(chain, lo, chain.latestId, bs) && Linked(start, bs)
    ensures Consecutive(bs)
  {
    forall k | 0 < k < |bs|
      ensures bs[k].id == bs[k - 1].id + 1
    {
      assert At(chain, bs[k].id) == Some(bs[k]) && At(chain, bs[k - 1].id) == Some(bs[k - 1]);
      assert bs[k].previous == chain.ring[bs[k - 1].id] && ParentAt(chain, bs[k].id, bs[k - 1].id);
    }
  }

  /** Linked blocks have consecutive ids, so nothing is missing between them. */
  lemma LinkedGapFree(chain: Chain, hash: Hash -> Hash, a: nat, bs: seq<Block>)
    requires ChainOk(chain, hash) && ParentsBelow(chain) && Lists(chain, a + 1, chain.latestId, bs)
    requires Linked(StartHash(AncestorHash(chain, a), bs), bs)
    ensures GapFree(chain, a)
  {
    LinkedConsecutive(chain, hash, StartHash(AncestorHash(chain, a), bs), a + 1, bs);
    forall i, j, k | a < i < j < k <= chain.latestId && Has(chain, i) && Has(chain, k)
      ensures Has(chain, j)
    {
      NoneMissing(chain, a, bs, i, j, k);
    }
    forall k | AncestorHash(chain, a) != Zero() && a < k <= chain.latestId && Has(chain, k)
      ensures Has(chain, a + 1)
    {
      var m := PositionOf(chain, a, bs, k);
      NextAfterAncestor(chain, a, bs);
    }
  }

  lemma NextAfterAncestor(chain: Chain, a: nat, bs: seq<Block>)
    requires ParentsBelow(chain) && Lists(chain, a + 1, chain.latestId, bs) && bs != []
    requires AncestorHash(chain, a) != Zero() && bs[0].previous == AncestorHash(chain, a)
    ensures Has(chain, a + 1)
  {
    assert At(chain, bs[0].id) == Some(bs[0]);
    assert a in chain.ring && ParentAt(chain, bs[0].id, a);
  }

  lemma NoneMissing(chain: Chain, a: nat, bs: seq<Block>, i: nat, j: nat, k: nat)
    requires Lists(chain, a + 1, chain.latestId, bs) && Consecutive(bs)
    requires a < i < j < k <= chain.latestId && At(chain, i).Some? && At(chain, k).Some?
    ensures At(chain, j).Some?
  {
    var m := PositionOf(chain, a, bs, i);
    var n := PositionOf(chain, a, bs, k);
    PositionOrder(bs, m, n);
    Steady(bs, m, n);
    var p := m + (j - i);
    assert bs[n].id == bs[m].id + (n - m);
    assert bs[p].id == j && At(chain, bs[p].id).Some?;
  }

  lemma PositionOf(chain: Chain, a: nat, bs: seq<Block>, id: nat) returns (m: nat)
    requires Lists(chain, a + 1, chain.latestId, bs) && a < id <= chain.latestId && At(chain, id).Some?
    ensures m < |bs| && bs[m].id == id
  {
    m :| 0 <= m < |bs| && bs[m].id == id;
  }

  lemma PositionOrder(bs: seq<Block>, m: nat, n: nat)
    requires m < |bs| && n < |bs| && bs[m].id < bs[n].id
    requires forall i, j :: 0 <= i < j < |bs| ==> bs[i].id < bs[j].id
    ensures m < n
  {
  }

  /** Ids one apart step by step are as far apart as their positions. */
  lemma {:induction false} Steady(bs: seq<Block>, m: nat, n: nat)
    requires m <= n < |bs| && Consecutive(bs)
    ensures forall j :: m <= j <= n ==> bs[j].id == bs[m].id + (j - m)
    decreases n
  {
    if m < n {
      Steady(bs, m, n - 1);
      assert bs[n].id == bs[n - 1].id + 1;
    }
  }

  // ----- the main results -----

  /** In order of id, exactly the blocks present above a. */
  ghost predicate SendsAbove(chain: Chain, ids: seq<nat>, a: nat) {
    && (forall i, j :: 0 <= i < j < |ids| ==> ids[i] < ids[j])
    && (forall id :: id in ids <==> a < id <= chain.latestId && Has(chain, id))
  }

  lemma IdsPresent(chain: Chain, a: nat, bs: seq<Block>, ids: seq<nat>)
    requires Lists(chain, a + 1, chain.latestId, bs)
    requires |ids| == |bs| && forall k :: 0 <= k < |bs| ==> ids[k] == bs[k].id
    ensures SendsAbove(chain, ids, a)
  {
    forall id | a < id <= chain.latestId && Has(chain, id) ensures id in ids {
      var k :| 0 <= k < |bs| && bs[k].id == id;
      assert ids[k] == id;
    }
    forall id | id in ids ensures a < id <= chain.latestId && Has(chain, id) {
      var k :| 0 <= k < |ids| && ids[k] == id;
      assert At(chain, bs[k].id) == Some(bs[k]);
    }
  }

  lemma MessageSends(chain: Chain, hash: Hash -> Hash, a: nat, keys: seq<PublicKey>)
    requires ChainOk(chain, hash)
    ensures SendsAbove(chain, Message(chain, a, keys).ids, a)
  {
    var bs := Listed(chain, a + 1, chain.latestId);
    ListedLists(chain, hash, a + 1, chain.latestId);
    IdsPresent(chain, a, bs, Message(chain, a, keys).ids);
  }

  /**
   What a message holds. To a peer that starts from the beginning, of a chain of more than ten ids, the
   last ten are sent; where the chain finds a fork with the peer, what is above it; and otherwise what is
   above the peer's id or the first one the chain still has, whichever is larger.
   */
  lemma GeneratedSends(chain: Chain, hash: Hash -> Hash, requested: nat, ancestor: nat, keys: seq<PublicKey>)
    requires ChainOk(chain, hash)
    ensures var sync := Generated(chain, requested, ancestor, keys);
            var beginning := requested == 0 || requested < chain.genesisId;
            && (beginning && chain.latestId > 10 ==>
                  && SendsAbove(chain, sync.ids, chain.latestId - 10)
                  && sync == Message(chain, chain.latestId - 10, keys))
            && (!beginning && ancestor != 0 ==>
                  SendsAbove(chain, sync.ids, ancestor) && sync == Message(chain, ancestor, keys))
            && (if beginning then chain.latestId <= 10 else ancestor == 0) ==>
                  var from := if requested < chain.genesisId then chain.genesisId else requested;
                  SendsAbove(chain, sync.ids, from) && sync == Message(chain, from, keys)
  {
    MessageSends(chain, hash, SharedAncestor(chain, requested, ancestor), keys);
  }

  function Replayed(hash: Hash -> Hash, sync: Sync): seq<Hash> {
    Hashes(hash, sync.start, sync.preHashes)
  }

  lemma MessageParts(chain: Chain, hash: Hash -> Hash, a: nat, keys: seq<PublicKey>)
    returns (start: Hash, bs: seq<Block>)
    requires ChainOk(chain, hash)
    ensures bs == Listed(chain, a + 1, chain.latestId) && start == StartHash(AncestorHash(chain, a), bs)
    ensures Lists(chain, a + 1, chain.latestId, bs)
    ensures Message(chain, a, keys).start == start && Message(chain, a, keys).preHashes == PreHashes(bs)
    ensures Hashed(hash, bs)
    ensures forall b :: b in bs ==> |b.hash| == 32
  {
    bs := Listed(chain, a + 1, chain.latestId);
    start := StartHash(AncestorHash(chain, a), bs);
    ListedLists(chain, hash, a + 1, chain.latestId);
    assert forall k :: 0 <= k < |bs| ==> At(chain, bs[k].id) == Some(bs[k]);
  }

  lemma AncestorLength(chain: Chain, hash: Hash -> Hash, a: nat)
    requires ChainOk(chain, hash)
    ensures |AncestorHash(chain, a)| == 32
  {
  }

  /** Replaying the message of a chain without gaps recomputes exactly every block's hash, in order. */
  lemma GapFreeRecovers(chain: Chain, hash: Hash -> Hash, a: nat, keys: seq<PublicKey>)
    requires ChainOk(chain, hash) && GapFree(chain, a)
    ensures Replayed(hash, Message(chain, a, keys)) == HashList(Listed(chain, a + 1, chain.latestId))
  {
    var start, bs := MessageParts(chain, hash, a, keys);
    GapFreeLinked(chain, hash, a, bs);
    LinkedRecovers(hash, start, bs);
  }

  /** Where every hash binds its parent, only a chain without gaps is recovered. */
  lemma RecoveredGapFree(chain: Chain, hash: Hash -> Hash, a: nat, keys: seq<PublicKey>)
    requires ChainOk(chain, hash) && ParentsBelow(chain)
    requires Binding(hash, Listed(chain, a + 1, chain.latestId))
    requires Replayed(hash, Message(chain, a, keys)) == HashList(Listed(chain, a + 1, chain.latestId))
    ensures GapFree(chain, a)
  {
    var start, bs := MessageParts(chain, hash, a, keys);
    assert |start| == 32 by {
      AncestorLength(chain, hash, a);
      if bs != [] {
        assert At(chain, bs[0].id) == Some(bs[0]);
      }
    }
    RecoversLinked(hash, start, bs);
    LinkedGapFree(chain, hash, a, bs);
  }

  /** The replay recovers every hash exactly when the chain has no gap. */
  lemma RecoversExactlyGapFree(chain: Chain, hash: Hash -> Hash, a: nat, keys: seq<PublicKey>)
    requires ChainOk(chain, hash) && ParentsBelow(chain)
    requires Binding(hash, Listed(chain, a + 1, chain.latestId))
    ensures Replayed(hash, Message(chain, a, keys)) == HashList(Listed(chain, a + 1, chain.latestId))
            <==> GapFree(chain, a)
  {
    if GapFree(chain, a) {
      GapFreeRecovers(chain, hash, a, keys);
    } else if Replayed(hash, Message(chain, a, keys)) == HashList(Listed(chain, a + 1, chain.latestId)) {
      RecoveredGapFree(chain, hash, a, keys);
    }
  }

  function Filled(x: bv8): Hash {
    seq(32, _ => x)
  }

  /** A hash function without collisions on headers that differ in their parent only. */
  function NextBytes(header: Hash): Hash {
    if |header| < 32 then Zero() else seq(32, i requires 0 <= i < 32 => header[i] + 1)
  }

  /** A block with constant bytes for its hash and its parent's. */
  function Plain(id: nat, parent: bv8, own: bv8): Block {
    Block(id, Filled(own), Filled(parent), Filled(9), 0, false, {})
  }

  lemma NextBinds(bs: seq<Block>)
    requires forall k :: 0 <= k < |bs| ==>
               |bs[k].previous| == 32 && bs[k].hash == NextBytes(bs[k].previous + bs[k].preHash)
    ensures Binding(NextBytes, bs)
  {
    forall k, p: Hash | 0 <= k < |bs| && |p| == 32 && NextBytes(p + bs[k].preHash) == bs[k].hash
      ensures p == bs[k].previous
    {
      forall i | 0 <= i < 32 ensures p[i] == bs[k].previous[i] {
        assert NextBytes(p + bs[k].preHash)[i] == p[i] + 1;
        assert bs[k].hash[i] == bs[k].previous[i] + 1;
      }
    }
  }

  /** A chain that has lost the block with id 3. */
  function Gapped(): Chain {
    Chain(map[1 := Filled(1), 2 := Filled(2), 4 := Filled(4)],
          map[Filled(2) := Plain(2, 1, 2), Filled(4) := Plain(4, 3, 4)], 1, 4)
  }

  lemma FilledApart()
    ensures Filled(1) != Filled(2) && Filled(1) != Filled(3) && Filled(1) != Filled(4)
    ensures Filled(2) != Filled(3) && Filled(2) != Filled(4) && Filled(3) != Filled(4)
  {
    assert Filled(1)[0] == 1 && Filled(2)[0] == 2 && Filled(3)[0] == 3 && Filled(4)[0] == 4;
  }

  lemma PlainHash(parent: bv8)
    ensures NextBytes(Filled(parent) + Filled(9)) == Filled(parent + 1)
  {
  }

  lemma GappedOk()
    ensures ChainOk(Gapped(), NextBytes) && ParentsBelow(Gapped())
  {
    FilledApart();
    PlainHash(1);
    PlainHash(3);
  }

  lemma GappedBinds()
    ensures Binding(NextBytes, Listed(Gapped(), 2, 4))
  {
    GappedOk();
    ListedLists(Gapped(), NextBytes, 2, 4);
    NextBinds(Listed(Gapped(), 2, 4));
  }

  lemma GappedGap()
    ensures !GapFree(Gapped(), 1)
  {
    FilledApart();
    assert Has(Gapped(), 2) && !Has(Gapped(), 3) && Has(Gapped(), 4);
  }

  /** Whoever asks for it, the replay does not recover its hashes. */
  lemma GapNotRecovered(keys: seq<PublicKey>)
    ensures ChainOk(Gapped(), NextBytes) && ParentsBelow(Gapped()) && Binding(NextBytes, Listed(Gapped(), 2, 4))
    ensures !GapFree(Gapped(), 1)
    ensures Replayed(NextBytes, Message(Gapped(), 1, keys)) != HashList(Listed(Gapped(), 2, 4))
  {
    GappedOk();
    GappedBinds();
    GappedGap();
    RecoversExactlyGapFree(Gapped(), NextBytes, 1, keys);
  }

  /**
   What a client does with the message of a chain without gaps: it asks for exactly the blocks with
   transactions for it, by their own hash and id, and adds every other block as a ghost of itself.
   */
  lemma HonestReplay(chain: Chain, hash: Hash -> Hash, a: nat, keys: seq<PublicKey>, peer: nat)
    requires ChainOk(chain, hash) && GapFree(chain, a)
    ensures var bs := Listed(chain, a + 1, chain.latestId);
            var sync := Message(chain, a, keys);
            var hs := Replayed(hash, sync);
            && |hs| == |bs| == |sync.wanted| && Readable(sync, |bs|)
            && (var ps := Positions(sync.wanted, |bs|, true);
                FetchesOf(sync, hs, |bs|, peer)
                  == seq(|ps|, j requires 0 <= j < |ps| => Fetch(bs[ps[j]].hash, bs[ps[j]].id, peer)))
            && (var ps := Positions(sync.wanted, |bs|, false);
                GhostsOf(sync, hs, |bs|) == seq(|ps|, j requires 0 <= j < |ps| => GhostOf(bs[ps[j]])))
            && (forall k :: 0 <= k < |bs| ==> (sync.wanted[k] <==> !(bs[k].keys !! set key | key in keys)))
  {
    GapFreeRecovers(chain, hash, a, keys);
  }

  function GhostOf(b: Block): GhostBlock {
    GhostBlock(b.id, b.previous, b.timestamp, b.preHash, b.goldenTicket, b.hash)
  }

  /**
   The reorganization of a generated message: every id in it is above the ancestor, so the id-0 guard
   never hides a target, and there is a target exactly when the first block is not wanted.
   */
  lemma HonestTarget(chain: Chain, hash: Hash -> Hash, a: nat, keys: seq<PublicKey>)
    requires ChainOk(chain, hash) && GapFree(chain, a)
    ensures var bs := Listed(chain, a + 1, chain.latestId);
            var sync := Message(chain, a, keys);
            var hs := Replayed(hash, sync);
            && |hs| == |bs| == |sync.wanted| && Readable(sync, |bs|)
            && (var k := Quiet(sync.wanted, |bs|);
                Reorganization(LastQuiet(sync, hs, |bs|))
                == if k == 0 then [] else [Target(bs[k - 1].id, bs[k - 1].hash)])
  {
    GapFreeRecovers(chain, hash, a, keys);
    ListedLists(chain, hash, a + 1, chain.latestId);
  }
}

/** What the miner sends: the first attempt that passes, at most one ticket per block, each earned. */
module MiningProofs {
  import opened Mining

  // ----- what one timer event can do -----

  /** The key the miner has before the k-th attempt: its own, or else the first real one a wallet showed. */
  function KeyBefore(key: Key, attempts: seq<Attempt>, k: nat): Key
    requires k <= |attempts|
    decreases k
  {
    if key != NoKey() || k == 0 then key else KeyBefore(attempts[0].walletKey, attempts[1..], k - 1)
  }

  /** The key of the k-th attempt itself. */
  function KeyAt(key: Key, attempts: seq<Attempt>, k: nat): Key
    requires k < |attempts|
  {
    KeyBefore(key, attempts, k + 1)
  }

  function TicketAt(s: State, attempts: seq<Attempt>, k: nat): Ticket
    requires k < |attempts|
  {
    Ticket(s.target, attempts[k].random, KeyAt(s.key, attempts, k))
  }

  /** An attempt that has a key and yields a ticket that passes. */
  predicate Hits(test: Test, s: State, attempts: seq<Attempt>, k: nat)
    requires k < |attempts|
  {
    KeyAt(s.key, attempts, k) != NoKey() && test(TicketAt(s, attempts, k), s.difficulty)
  }

  lemma {:induction false} KnownKey(key: Key, attempts: seq<Attempt>, k: nat)
    requires key != NoKey() && k <= |attempts|
    ensures KeyBefore(key, attempts, k) == key
  {
  }

  /** After one attempt without a ticket, the next ones are numbered from there. */
  lemma HitsNext(test: Test, s: State, attempts: seq<Attempt>, k: nat)
    requires 0 < k < |attempts|
    ensures var s' := TryOnce(test, s, attempts[0]).0;
            && TicketAt(s', attempts[1..], k - 1) == TicketAt(s, attempts, k)
            && Hits(test, s', attempts[1..], k - 1) == Hits(test, s, attempts, k)
  {
    var s' := TryOnce(test, s, attempts[0]).0;
    if s.key != NoKey() {
      KnownKey(s.key, attempts, k + 1);
      KnownKey(s.key, attempts[1..], k);
    }
    assert KeyAt(s'.key, attempts[1..], k - 1) == KeyAt(s.key, attempts, k);
  }

  /**
   A timer event sends the first attempt that passes, if any, and then the miner rests; with none it
   stays active. Attempts without a key do not pass; a key the wallet gets in between is taken over.
   */
  lemma {:induction false} FirstHitIsSent(test: Test, s: State, attempts: seq<Attempt>)
    ensures var r := TryAll(test, s, attempts);
            || (r == s.(key := KeyBefore(s.key, attempts, |attempts|))
                && forall j :: 0 <= j < |attempts| ==> !Hits(test, s, attempts, j))
            || (exists k :: 0 <= k < |attempts| && Hits(test, s, attempts, k)
                            && r.sent == s.sent + [TicketAt(s, attempts, k)] && !r.active
                            && forall j :: 0 <= j < k ==> !Hits(test, s, attempts, j))
    decreases |attempts|
  {
    if attempts != [] {
      var (s', found) := TryOnce(test, s, attempts[0]);
      assert KeyAt(s.key, attempts, 0) == KeyFor(s, attempts[0]);
      if found.Some? {
        assert Hits(test, s, attempts, 0);
      } else {
        var rest, r := attempts[1..], TryAll(test, s', attempts[1..]);
        assert !Hits(test, s, attempts, 0);
        FirstHitIsSent(test, s', rest);
        if k :| 0 <= k < |rest| && Hits(test, s', rest, k) && r.sent == s'.sent + [TicketAt(s', rest, k)] && !r.active
                && forall j :: 0 <= j < k ==> !Hits(test, s', rest, j) {
          HitLater(test, s, attempts, k);
        } else {
          NoHitLater(test, s, attempts);
        }
      }
    }
  }

  lemma HitLater(test: Test, s: State, attempts: seq<Attempt>, k: nat)
    requires attempts != [] && !Hits(test, s, attempts, 0) && k < |attempts| - 1
    requires var s' := TryOnce(test, s, attempts[0]).0;
             Hits(test, s', attempts[1..], k) && forall j :: 0 <= j < k ==> !Hits(test, s', attempts[1..], j)
    ensures Hits(test, s, attempts, k + 1) && forall j :: 0 <= j < k + 1 ==> !Hits(test, s, attempts, j)
    ensures TicketAt(TryOnce(test, s, attempts[0]).0, attempts[1..], k) == TicketAt(s, attempts, k + 1)
  {
    HitsNext(test, s, attempts, k + 1);
    forall j | 0 <= j < k + 1 ensures !Hits(test, s, attempts, j) {
      if j > 0 {
        HitsNext(test, s, attempts, j);
      }
    }
  }

  lemma NoHitLater(test: Test, s: State, attempts: seq<Attempt>)
    requires attempts != [] && !Hits(test, s, attempts, 0)
    requires var s' := TryOnce(test, s, attempts[0]).0;
             forall j :: 0 <= j < |attempts| - 1 ==> !Hits(test, s', attempts[1..], j)
    ensures forall j :: 0 <= j < |attempts| ==> !Hits(test, s, attempts, j)
    ensures KeyBefore(TryOnce(test, s, attempts[0]).0.key, attempts[1..], |attempts| - 1)
            == KeyBefore(s.key, attempts, |attempts|)
  {
    forall j | 0 <= j < |attempts| ensures !Hits(test, s, attempts, j) {
      if j > 0 {
        HitsNext(test, s, attempts, j);
      }
    }
    if s.key != NoKey() {
      KnownKey(s.key, attempts, |attempts|);
      KnownKey(s.key, attempts[1..], |attempts| - 1);
    }
  }

  // ----- what every run keeps -----

  /** The blocks added during a run. */
  function Blocks(evs: seq<Event>): seq<Event> {
    if evs == [] then []
    else Blocks(evs[..|evs| - 1]) + if evs[|evs| - 1].Added? then [evs[|evs| - 1]] else []
  }

  /** A ticket sent after the n-th block targets that block, passes its difficulty and carries a real key. */
  ghost predicate Earned(test: Test, ticket: Ticket, n: nat, blocks: seq<Event>) {
    && 1 <= n <= |blocks| && blocks[n - 1].Added?
    && ticket.target == blocks[n - 1].hash && test(ticket, blocks[n - 1].difficulty) && ticket.key != NoKey()
  }

  ghost predicate Inv(test: Test, s: State, blocks: seq<Event>) {
    && s.mined == |s.sent| == |s.sentAfter|
    && s.handled == (if s.enabled then |blocks| else 0)
    && (forall k :: 0 <= k < |s.sent| ==> Earned(test, s.sent[k], s.sentAfter[k], blocks))
    && (forall j, k :: 0 <= j < k < |s.sentAfter| ==> s.sentAfter[j] < s.sentAfter[k])
    && (forall k :: 0 <= k < |s.sentAfter| ==> s.sentAfter[k] <= s.handled - if s.active then 1 else 0)
    && (s.active ==> s.handled > 0 && blocks[s.handled - 1] == Added(s.target, s.difficulty, s.targetId))
  }

  lemma {:induction false} TryAllInv(test: Test, s: State, attempts: seq<Attempt>, blocks: seq<Event>)
    requires Inv(test, s, blocks) && s.enabled && s.active
    ensures Inv(test, TryAll(test, s, attempts), blocks)
    decreases |attempts|
  {
    if attempts != [] {
      var (s', found) := TryOnce(test, s, attempts[0]);
      if found.Some? {
        assert Earned(test, found.value, s.handled, blocks);
      } else {
        TryAllInv(test, s', attempts[1..], blocks);
      }
    }
  }

  lemma AddedInv(test: Test, s: State, blocks: seq<Event>, b: Event)
    requires Inv(test, s, blocks) && b.Added?
    ensures Inv(test, Next(test, s, b), blocks + [b])
  {
    forall k | 0 <= k < |s.sent| ensures Earned(test, s.sent[k], s.sentAfter[k], blocks + [b]) {
      assert Earned(test, s.sent[k], s.sentAfter[k], blocks);
    }
  }

  /**
   Over any run from a fresh miner: the counter is the number of tickets sent, each ticket is earned
   on the block it was sent after, and later tickets were sent after later blocks, so at most one
   per block.
   */
  lemma {:induction false} TicketsEarned(test: Test, s0: State, evs: seq<Event>)
    requires !s0.active && s0.mined == 0 && s0.sent == [] && s0.sentAfter == [] && s0.handled == 0
    ensures var s, blocks := Run(test, s0, evs), Blocks(evs);
            && s.mined == |s.sent| == |s.sentAfter| <= |blocks|
            && (forall k :: 0 <= k < |s.sent| ==> Earned(test, s.sent[k], s.sentAfter[k], blocks))
            && (forall j, k :: 0 <= j < k < |s.sentAfter| ==> s.sentAfter[j] < s.sentAfter[k])
  {
    RunInv(test, s0, evs);
    Increasing(Run(test, s0, evs).sentAfter, |Blocks(evs)|);
  }

  lemma {:induction false} RunInv(test: Test, s0: State, evs: seq<Event>)
    requires !s0.active && s0.mined == 0 && s0.sent == [] && s0.sentAfter == [] && s0.handled == 0
    ensures Inv(test, Run(test, s0, evs), Blocks(evs)) && Run(test, s0, evs).enabled == s0.enabled
  {
    if evs != [] {
      var before, ev := evs[..|evs| - 1], evs[|evs| - 1];
      RunInv(test, s0, before);
      if ev.Added? {
        AddedInv(test, Run(test, s0, before), Blocks(before), ev);
      } else if s0.enabled && Run(test, s0, before).active {
        TryAllInv(test, Run(test, s0, before), ev.attempts, Blocks(before));
        TryAllEnabled(test, Run(test, s0, before), ev.attempts);
      }
    }
  }

  lemma {:induction false} TryAllEnabled(test: Test, s: State, attempts: seq<Attempt>)
    ensures TryAll(test, s, attempts).enabled == s.enabled
    decreases |attempts|
  {
    if attempts != [] {
      TryAllEnabled(test, TryOnce(test, s, attempts[0]).0, attempts[1..]);
    }
  }

  lemma {:induction false} Increasing(xs: seq<nat>, n: nat)
    requires forall j, k :: 0 <= j < k < |xs| ==> xs[j] < xs[k]
    requires forall k :: 0 <= k < |xs| ==> 1 <= xs[k] <= n
    ensures |xs| <= n
  {
    if xs != [] {
      Increasing(xs[..|xs| - 1], xs[|xs| - 1] - 1);
    }
  }

  // ----- a block is mined -----

  /** The ticket of the k-th attempt on a block, and whether it passes. */
  predicate Passes(test: Test, hash: Hash, difficulty: nat, key: Key, attempts: seq<Attempt>, k: nat)
    requires k < |attempts|
  {
    KeyAt(key, attempts, k) != NoKey() && test(Ticket(hash, attempts[k].random, KeyAt(key, attempts, k)), difficulty)
  }

  /**
   Told of a block, an enabled miner goes to work on it, whatever it did before: the next timer event sends
   the first ticket for that block that passes, and the one after that nothing.
   */
  lemma BlockIsMined(test: Test, s: State, hash: Hash, difficulty: nat, id: nat, attempts: seq<Attempt>, k: nat)
    requires s.enabled && k < |attempts| && Passes(test, hash, difficulty, s.key, attempts, k)
    requires forall j :: 0 <= j < k ==> !Passes(test, hash, difficulty, s.key, attempts, j)
    ensures var s' := Next(test, Next(test, s, Added(hash, difficulty, id)), Timer(attempts));
            && s'.sent == s.sent + [Ticket(hash, attempts[k].random, KeyAt(s.key, attempts, k))]
            && forall more :: Next(test, s', Timer(more)) == s'
  {
    var s1 := Next(test, s, Added(hash, difficulty, id));
    FirstHitIsSent(test, s1, attempts);
    forall j | 0 <= j < |attempts|
      ensures Hits(test, s1, attempts, j) == Passes(test, hash, difficulty, s.key, attempts, j)
    {
      assert TicketAt(s1, attempts, j) == Ticket(hash, attempts[j].random, KeyAt(s.key, attempts, j));
    }
    assert Hits(test, s1, attempts, k);
  }

  /** Without one that passes it sends nothing and goes on; a lite client's miner never does anything. */
  lemma NothingMined(test: Test, s: State, hash: Hash, difficulty: nat, id: nat, attempts: seq<Attempt>)
    requires forall j :: 0 <= j < |attempts| ==> !Passes(test, hash, difficulty, s.key, attempts, j)
    ensures var s' := Next(test, Next(test, s, Added(hash, difficulty, id)), Timer(attempts));
            if s.enabled then s'.sent == s.sent && s'.active && s'.target == hash && s'.difficulty == difficulty
            else s' == s
  {
    var s1 := Next(test, s, Added(hash, difficulty, id));
    FirstHitIsSent(test, s1, attempts);
    if s.enabled {
      forall j | 0 <= j < |attempts| ensures !Hits(test, s1, attempts, j) {
        assert !Passes(test, hash, difficulty, s.key, attempts, j);
        assert TicketAt(s1, attempts, j) == Ticket(hash, attempts[j].random, KeyAt(s.key, attempts, j));
      }
    }
  }
}

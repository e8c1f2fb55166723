/**
 The miner: activated by every block added to the longest chain, it tries random numbers on timer
 events until a golden ticket passes, and then rests until the next block.

 Randomness and the wallet's key are inputs of each attempt, the difficulty test is a function
 parameter, and the clock, used for a log message only, is left out.
 */
module Mining {
  import opened Options

  type Hash = seq<bv8>
  type Key = seq<bv8>

  /** The key of a wallet that is not initialized. */
  function NoKey(): Key {
    seq(33, _ => 0 as bv8)
  }

  datatype Ticket = Ticket(target: Hash, random: Hash, key: Key)

  type Test = (Ticket, nat) -> bool

  datatype Attempt = Attempt(walletKey: Key, random: Hash)

  datatype Event =
    | Added(hash: Hash, difficulty: nat, blockId: nat)
    | Timer(attempts: seq<Attempt>)

  /** Besides the miner's fields: how many blocks it was told of, and after which of them each ticket was sent. */
  datatype State = State(
    enabled: bool, active: bool, target: Hash, targetId: nat, difficulty: nat, key: Key, mined: nat,
    sent: seq<Ticket>, handled: nat, sentAfter: seq<nat>)

  /** The key an attempt works with: the miner's own, or else the wallet's. */
  function KeyFor(s: State, a: Attempt): Key {
    if s.key == NoKey() then a.walletKey else s.key
  }

  function TryOnce(test: Test, s: State, a: Attempt): (State, Option<Ticket>) {
    var key := KeyFor(s, a);
    var ticket := Ticket(s.target, a.random, key);
    if key == NoKey() then (s, None)
    else (s.(key := key), if test(ticket, s.difficulty) then Some(ticket) else None)
  }

  function TryAll(test: Test, s: State, attempts: seq<Attempt>): State
    decreases |attempts|
  {
    if attempts == [] then s
    else
      var (s', found) := TryOnce(test, s, attempts[0]);
      if found.Some? then
        s'.(active := false, mined := s.mined + 1, sent := s.sent + [found.value],
            sentAfter := s.sentAfter + [s.handled])
      else TryAll(test, s', attempts[1..])
  }

  function Next(test: Test, s: State, ev: Event): State {
    if !s.enabled then s
    else
      match ev
      case Added(hash, difficulty, blockId) =>
        s.(active := true, target := hash, targetId := blockId, difficulty := difficulty, handled := s.handled + 1)
      case Timer(attempts) => if s.active then TryAll(test, s, attempts) else s
  }

  function Run(test: Test, s: State, evs: seq<Event>): State {
    if evs == [] then s else Next(test, Run(test, s, evs[..|evs| - 1]), evs[|evs| - 1])
  }

  class MiningThread {
    const test: Test
    const miningIterations: nat
    var enabled: bool
    var minerActive: bool
    var target: Hash
    var targetId: nat
    var difficulty: nat
    var publicKey: Key
    var minedGoldenTickets: nat
    var sent: seq<Ticket>
    ghost var handled: nat
    ghost var sentAfter: seq<nat>

    ghost function View(): State
      reads this
    {
      State(enabled, minerActive, target, targetId, difficulty, publicKey, minedGoldenTickets, sent, handled, sentAfter)
    }

    /** A miner as its loop starts: off in a lite client, with the wallet's key if there is one. */
    constructor (test: Test, miningIterations: nat, spv: bool, walletKey: Key)
      ensures View() == State(!spv, false, seq(32, _ => 0), 0, 0, walletKey, 0, [], 0, [])
      ensures this.test == test && this.miningIterations == miningIterations
    {
      this.test, this.miningIterations := test, miningIterations;
      enabled, minerActive, minedGoldenTickets, sent, handled, sentAfter := !spv, false, 0, [], 0, [];
      target, targetId, difficulty, publicKey := seq(32, _ => 0), 0, 0, walletKey;
    }

    method Mine(a: Attempt) returns (found: Option<Ticket>)
      modifies this`publicKey
      ensures (View(), found) == TryOnce(test, old(View()), a)
    {
      if publicKey == NoKey() {
        if a.walletKey == NoKey() {
          return None;
        }
        publicKey := a.walletKey;
      }
      var ticket := Ticket(target, a.random, publicKey);
      if test(ticket, difficulty) {
        return Some(ticket);
      }
      return None;
    }

    method ProcessTimerEvent(attempts: seq<Attempt>) returns (workDone: bool)
      requires |attempts| == miningIterations
      modifies this
      ensures View() == Next(test, old(View()), Timer(attempts))
      ensures workDone == old(enabled && minerActive)
    {
      if !enabled {
        return false;
      }
      if enabled && minerActive {
        for i := 0 to miningIterations
          invariant enabled && minerActive
          invariant TryAll(test, View(), attempts[i..]) == TryAll(test, old(View()), attempts)
        {
          assert attempts[i..][0] == attempts[i] && attempts[i..][1..] == attempts[i + 1..];
          var found := Mine(attempts[i]);
          if found.Some? {
            minerActive := false;
            minedGoldenTickets := minedGoldenTickets + 1;
            sent, sentAfter := sent + [found.value], sentAfter + [handled];
            return true;
          }
        }
        assert attempts[miningIterations..] == [];
        return true;
      }
      return false;
    }

    method ProcessEvent(hash: Hash, newDifficulty: nat, blockId: nat) returns (workDone: bool)
      modifies this
      ensures View() == Next(test, old(View()), Added(hash, newDifficulty, blockId))
      ensures workDone == enabled
    {
      if !enabled {
        return false;
      }
      difficulty, target, targetId, minerActive := newDifficulty, hash, blockId, true;
      handled := handled + 1;
      return true;
    }
  }
}

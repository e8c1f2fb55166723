/**
 The keychain: a list of keys, an index of their public keys, and the list of watched keys pushed to
 the wallet whenever a digest of keys and groups has changed.

 The digest is a function parameter. The groups belong to the rest of the application and may change
 at any time; saving the options is the copy kept in them.
 */
module Keychain {
  import opened Options

  datatype Value = Text(text: string) | Flag(flag: bool) | Number(number: int)

  datatype Key = Key(publicKey: string, fields: map<string, Value>)

  type Groups = seq<Value>
  type Digest = seq<bv8>
  type Digester = (seq<Key>, Groups) -> Digest

  predicate Truthy(v: Value) {
    match v
    case Text(t) => t != ""
    case Flag(f) => f
    case Number(n) => n != 0
  }

  predicate IsWatched(key: Key) {
    "watched" in key.fields && Truthy(key.fields["watched"])
  }

  predicate IsScheduled(key: Key) {
    "type" in key.fields && key.fields["type"] == Text("scheduled_call")
  }

  /** The public keys of the watched keys, in order. */
  function Watched(keys: seq<Key>): seq<string> {
    if keys == [] then []
    else (if IsWatched(keys[0]) then [keys[0].publicKey] else []) + Watched(keys[1..])
  }

  function Names(keys: seq<Key>): (names: set<string>)
    ensures forall n :: n in names <==> exists k :: 0 <= k < |keys| && keys[k].publicKey == n
  {
    set k | 0 <= k < |keys| :: keys[k].publicKey
  }

  /** What was saved at some time, and the list the wallet had then. */
  datatype Snapshot = Snapshot(keys: seq<Key>, groups: Groups, wallet: seq<string>)

  datatype State = State(
    keys: seq<Key>, index: set<string>, groups: Groups,
    hash: Option<Digest>, pushed: seq<seq<string>>, saved: seq<Key>, saves: seq<Snapshot>)

  /** The list last pushed to the wallet. */
  function Wallet(pushed: seq<seq<string>>): seq<string> {
    if pushed == [] then [] else pushed[|pushed| - 1]
  }

  function Save(digest: Digester, s: State): State {
    var newHash := Some(digest(s.keys, s.groups));
    var pushed := if newHash == s.hash then s.pushed else s.pushed + [Watched(s.keys)];
    s.(saved := s.keys, hash := newHash, pushed := pushed,
       saves := s.saves + [Snapshot(s.keys, s.groups, Wallet(pushed))])
  }

  /** The first key with a name, or the number of keys. */
  function First(keys: seq<Key>, name: string): (k: nat)
    ensures k <= |keys| && (k < |keys| ==> keys[k].publicKey == name)
    ensures forall j :: 0 <= j < k ==> keys[j].publicKey != name
  {
    if keys == [] || keys[0].publicKey == name then 0 else 1 + First(keys[1..], name)
  }

  /** The last key with a name, or -1. */
  function Last(keys: seq<Key>, name: string): (k: int)
    ensures -1 <= k < |keys| && (k >= 0 ==> keys[k].publicKey == name)
    ensures forall j :: k < j < |keys| ==> keys[j].publicKey != name
  {
    if keys == [] then -1
    else if keys[|keys| - 1].publicKey == name then |keys| - 1
    else Last(keys[..|keys| - 1], name)
  }

  function Without(keys: seq<Key>, k: nat): seq<Key>
    requires k < |keys|
  {
    keys[..k] + keys[k + 1..]
  }

  /** A known key takes over the fields given; a new one is appended; without a name nothing happens. */
  function Add(digest: Digester, s: State, name: string, fields: map<string, Value>): State {
    var given := fields - {"publicKey"};
    var k := First(s.keys, name);
    if name == "" then s
    else if k < |s.keys| then
      Save(digest, s.(keys := s.keys[k := Key(s.keys[k].publicKey, s.keys[k].fields + given)]))
    else
      Save(digest, s.(keys := s.keys + [Key(name, given)], index := s.index + {name}))
  }

  /** The last key with the name goes. */
  function Remove(digest: Digester, s: State, name: string): State {
    var k := Last(s.keys, name);
    if k == -1 then s
    else Save(digest, s.(keys := Without(s.keys, k), index := s.index - {name}))
  }

  // ----- starting up -----

  /** Scheduled calls are removed while the list is being walked. */
  function SweepFrom(digest: Digester, s: State, i: nat): State
    decreases |s.keys| - i
  {
    if i >= |s.keys| then s
    else if IsScheduled(s.keys[i]) then SweepFrom(digest, Remove(digest, s, s.keys[i].publicKey), i + 1)
    else SweepFrom(digest, s, i + 1)
  }

  /** Which keys are events that ended more than a day ago. */
  type Over = Key -> bool

  function OverNames(keys: seq<Key>, over: Over): seq<string> {
    if keys == [] then [] else (if over(keys[0]) then [keys[0].publicKey] else []) + OverNames(keys[1..], over)
  }

  function RemoveAll(digest: Digester, s: State, names: seq<string>): State {
    if names == [] then s else Remove(digest, RemoveAll(digest, s, names[..|names| - 1]), names[|names| - 1])
  }

  function Loaded(stored: seq<Key>, groups: Groups): State {
    State(stored, Names(stored), groups, None, [], stored, [])
  }

  function Started(digest: Digester, stored: seq<Key>, groups: Groups, own: string, over: Over): State {
    var loaded := Loaded(stored, groups);
    var s := if stored == [] then Add(digest, loaded, own, map["watched" := Flag(true)]) else loaded;
    var swept := SweepFrom(digest, s, 0);
    Save(digest, RemoveAll(digest, swept, OverNames(swept.keys, over)))
  }

  class Chain {
    const digest: Digester
    var keys: seq<Key>
    var hmap: map<string, nat>
    var groups: Groups
    var hash: Option<Digest>
    var pushed: seq<seq<string>>
    var savedKeys: seq<Key>
    ghost var saves: seq<Snapshot>  // every save so far

    ghost function View(): State
      reads this
    {
      State(keys, hmap.Keys, groups, hash, pushed, savedKeys, saves)
    }

    constructor (digest: Digester)
      ensures this.digest == digest && View() == Loaded([], [])
    {
      this.digest, keys, hmap, groups, hash, pushed, savedKeys, saves := digest, [], map[], [], None, [], [], [];
    }

    method SaveKeys()
      modifies this`savedKeys, this`hash, this`pushed, this`saves
      ensures View() == Save(digest, old(View()))
    {
      savedKeys := keys;
      var newHash := digest(keys, groups);
      if Some(newHash) != hash {
        hash := Some(newHash);
        pushed := pushed + [Watched(keys)];
      }
      saves := saves + [Snapshot(keys, groups, Wallet(pushed))];
    }

    method AddKey(name: Option<string>, fields: map<string, Value>)
      modifies this
      ensures View() == if name == None then old(View()) else Add(digest, old(View()), name.value, fields)
    {
      if name == None || name.value == "" {
        return;
      }
      for i := 0 to |keys|
        invariant View() == old(View())
        invariant First(keys, name.value) == i + First(keys[i..], name.value)
      {
        assert keys[i..][1..] == keys[i + 1..];
        if keys[i].publicKey == name.value {
          keys := keys[i := Key(keys[i].publicKey, keys[i].fields + (fields - {"publicKey"}))];
          SaveKeys();
          return;
        }
      }
      keys := keys + [Key(name.value, fields - {"publicKey"})];
      hmap := hmap[name.value := 1];
      SaveKeys();
    }

    method FindLast(name: string) returns (x: int)
      ensures x == Last(keys, name)
    {
      x := |keys| - 1;
      while x >= 0
        invariant -1 <= x < |keys| && Last(keys, name) == Last(keys[..x + 1], name)
        decreases x
      {
        assert keys[..x + 1][..x] == keys[..x];
        if keys[x].publicKey == name {
          return;
        }
        x := x - 1;
      }
    }

    method RemoveKey(name: Option<string>)
      modifies this
      ensures View() == if name == None then old(View()) else Remove(digest, old(View()), name.value)
    {
      if name == None {
        return;
      }
      var x := FindLast(name.value);
      if x >= 0 {
        keys := keys[..x] + keys[x + 1..];
        hmap := hmap - {name.value};
        SaveKeys();
      }
    }

    method SweepScheduled()
      modifies this
      ensures View() == SweepFrom(digest, old(View()), 0)
    {
      var i: nat := 0;
      while i < |keys|
        invariant SweepFrom(digest, View(), i) == SweepFrom(digest, old(View()), 0)
        decreases |keys| - i
      {
        if IsScheduled(keys[i]) {
          RemoveKey(Some(keys[i].publicKey));
        }
        i := i + 1;
      }
    }

    method RemoveOver(over: Over)
      modifies this
      ensures View() == RemoveAll(digest, old(View()), OverNames(old(keys), over))
    {
      var names := OverNames(keys, over);
      for i := 0 to |names|
        invariant View() == RemoveAll(digest, old(View()), names[..i])
      {
        assert names[..i + 1][..i] == names[..i];
        RemoveKey(Some(names[i]));
      }
      assert names[..|names|] == names;
    }

    method Initialize(stored: Option<seq<Key>>, storedGroups: Option<Groups>, own: string, over: Over)
      requires View() == Loaded([], [])
      modifies this
      ensures View() == Started(digest, if stored.Some? then stored.value else [],
                                if storedGroups.Some? then storedGroups.value else [], own, over)
    {
      var ks := if stored.Some? then stored.value else [];
      savedKeys := ks;
      for i := 0 to |ks|
        invariant View() == Loaded([], []).(keys := ks[..i], index := Names(ks[..i]), saved := ks)
      {
        assert ks[..i + 1] == ks[..i] + [ks[i]];
        NamesNext(ks[..i], ks[i]);
        keys := keys + [ks[i]];
        hmap := hmap[ks[i].publicKey := 1];
      }
      assert ks[..|ks|] == ks;
      groups := if storedGroups.Some? then storedGroups.value else [];
      if |ks| == 0 {
        AddKey(Some(own), map["watched" := Flag(true)]);
      }
      SweepScheduled();
      RemoveOver(over);
      SaveKeys();
      hash := Some(digest(keys, groups));
    }
  }

  lemma NamesNext(keys: seq<Key>, key: Key)
    ensures Names(keys + [key]) == Names(keys) + {key.publicKey}
  {
    var all := keys + [key];
    forall n ensures n in Names(all) <==> n in Names(keys) || n == key.publicKey {
      if n in Names(keys) {
        var k :| 0 <= k < |keys| && keys[k].publicKey == n;
        assert all[k].publicKey == n;
      }
      assert all[|keys|] == key;
    }
  }
}

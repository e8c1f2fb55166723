/** What start-up removes from the keychain, what every run keeps, and when the wallet is right. */
module KeychainProofs {
  import opened Options
  import opened Keychain

  // ----- what start-up removes -----

  predicate Distinct(keys: seq<Key>) {
    forall i, j :: 0 <= i < j < |keys| ==> keys[i].publicKey != keys[j].publicKey
  }

  /** Walking a list while removing from it: whatever follows a removed call is passed over. */
  function Skim(keys: seq<Key>): seq<Key> {
    if keys == [] then []
    else if !IsScheduled(keys[0]) then [keys[0]] + Skim(keys[1..])
    else if |keys| == 1 then []
    else [keys[1]] + Skim(keys[2..])
  }

  lemma LastAt(keys: seq<Key>, k: nat)
    requires Distinct(keys) && k < |keys|
    ensures Last(keys, keys[k].publicKey) == k
  {
  }

  lemma SkimAt(keys: seq<Key>, i: nat)
    requires i < |keys|
    ensures !IsScheduled(keys[i]) ==> keys[..i] + Skim(keys[i..]) == keys[..i + 1] + Skim(keys[i + 1..])
    ensures IsScheduled(keys[i]) && i + 1 < |keys| ==>
              keys[..i] + Skim(keys[i..]) == keys[..i] + [keys[i + 1]] + Skim(keys[i + 2..])
    ensures IsScheduled(keys[i]) && i + 1 == |keys| ==> keys[..i] + Skim(keys[i..]) == keys[..i]
  {
    var rest := keys[i..];
    assert rest[0] == keys[i] && rest[1..] == keys[i + 1..];
    if !IsScheduled(keys[i]) {
      assert keys[..i] + ([keys[i]] + Skim(rest[1..])) == keys[..i + 1] + Skim(rest[1..]);
    } else if i + 1 < |keys| {
      assert rest[1] == keys[i + 1] && rest[2..] == keys[i + 2..];
      assert keys[..i] + ([rest[1]] + Skim(rest[2..])) == keys[..i] + [rest[1]] + Skim(rest[2..]);
    }
  }

  lemma WithoutParts(keys: seq<Key>, i: nat)
    requires i + 1 < |keys|
    ensures Without(keys, i)[..i + 1] == keys[..i] + [keys[i + 1]]
    ensures Without(keys, i)[i + 1..] == keys[i + 2..]
  {
  }

  lemma {:induction false} SweepSkims(digest: Digester, s: State, i: nat)
    requires Distinct(s.keys) && i <= |s.keys|
    ensures SweepFrom(digest, s, i).keys == s.keys[..i] + Skim(s.keys[i..])
    decreases |s.keys| - i
  {
    if i == |s.keys| {
      assert s.keys[..i] + [] == s.keys;
    } else {
      SkimAt(s.keys, i);
      if !IsScheduled(s.keys[i]) {
        SweepSkims(digest, s, i + 1);
      } else {
        LastAt(s.keys, i);
        NamesWithout(s.keys, i);
        var s' := Remove(digest, s, s.keys[i].publicKey);
        assert s'.keys == Without(s.keys, i);
        if i + 1 < |s.keys| {
          WithoutParts(s.keys, i);
          SweepSkims(digest, s', i + 1);
        } else {
          assert s'.keys == s.keys[..i];
        }
      }
    }
  }

  predicate NoneScheduled(keys: seq<Key>) {
    forall k :: 0 <= k < |keys| ==> !IsScheduled(keys[k])
  }

  predicate NoTwoInARow(keys: seq<Key>) {
    forall k :: 0 <= k < |keys| - 1 ==> !(IsScheduled(keys[k]) && IsScheduled(keys[k + 1]))
  }

  lemma NoneFirst(key: Key, rest: seq<Key>)
    ensures NoneScheduled([key] + rest) <==> !IsScheduled(key) && NoneScheduled(rest)
  {
    var all := [key] + rest;
    assert all[0] == key && forall k :: 0 <= k < |rest| ==> all[k + 1] == rest[k];
    assert forall k :: 1 <= k < |all| ==> all[k] == rest[k - 1];
  }

  lemma NoTwoFirst(keys: seq<Key>)
    requires keys != []
    ensures NoTwoInARow(keys) <==>
            NoTwoInARow(keys[1..]) && (|keys| > 1 ==> !(IsScheduled(keys[0]) && IsScheduled(keys[1])))
  {
    var rest := keys[1..];
    if NoTwoInARow(keys) {
      forall k | 0 <= k < |rest| - 1 ensures !(IsScheduled(rest[k]) && IsScheduled(rest[k + 1])) {
        assert rest[k] == keys[k + 1] && rest[k + 1] == keys[(k + 1) + 1];
      }
    }
    if NoTwoInARow(rest) && (|keys| > 1 ==> !(IsScheduled(keys[0]) && IsScheduled(keys[1]))) {
      forall k | 0 <= k < |keys| - 1 ensures !(IsScheduled(keys[k]) && IsScheduled(keys[k + 1])) {
        if k > 0 {
          assert keys[k] == rest[k - 1] && keys[k + 1] == rest[(k - 1) + 1];
        }
      }
    }
  }

  lemma {:induction false} SkimComplete(keys: seq<Key>)
    ensures NoneScheduled(Skim(keys)) <==> NoTwoInARow(keys)
  {
    if |keys| >= 2 && IsScheduled(keys[0]) {
      SkimComplete(keys[2..]);
      NoneFirst(keys[1], Skim(keys[2..]));
      NoTwoFirst(keys);
      NoTwoFirst(keys[1..]);
      assert keys[1..][1..] == keys[2..];
    } else if keys != [] {
      SkimComplete(keys[1..]);
      NoneFirst(keys[0], Skim(keys[1..]));
      NoTwoFirst(keys);
    }
  }

  /**
   The start-up sweep does not remove every scheduled call: it does exactly if no two stand next to
   each other in the list.
   */
  lemma SweepComplete(digest: Digester, s: State)
    requires Distinct(s.keys)
    ensures (forall key :: key in SweepFrom(digest, s, 0).keys ==>
               !("type" in key.fields && key.fields["type"] == Text("scheduled_call"))) <==> NoTwoInARow(s.keys)
  {
    SweepSkims(digest, s, 0);
    SkimComplete(s.keys);
    assert s.keys[0..] == s.keys && s.keys[..0] + Skim(s.keys) == Skim(s.keys);
  }

  lemma {:induction false} OverNamesExactly(keys: seq<Key>, over: Over, name: string)
    ensures name in OverNames(keys, over) <==> exists k :: 0 <= k < |keys| && keys[k].publicKey == name && over(keys[k])
  {
    if keys != [] {
      var rest := keys[1..];
      OverNamesExactly(rest, over, name);
      if k :| 0 <= k < |rest| && rest[k].publicKey == name && over(rest[k]) {
        assert keys[k + 1] == rest[k];
      }
      if k :| 0 <= k < |keys| && keys[k].publicKey == name && over(keys[k]) && k > 0 {
        assert rest[k - 1] == keys[k];
      }
    }
  }

  lemma RemoveExactly(digest: Digester, s: State, name: string, key: Key)
    requires Distinct(s.keys)
    ensures Distinct(Remove(digest, s, name).keys)
    ensures key in Remove(digest, s, name).keys <==> key in s.keys && key.publicKey != name
  {
    var k := Last(s.keys, name);
    if k != -1 {
      NamesWithout(s.keys, k);
      KeyWithout(s.keys, k, key);
      assert Remove(digest, s, name).keys == Without(s.keys, k);
    }
  }

  lemma {:induction false} RemoveAllExactly(digest: Digester, s: State, names: seq<string>, key: Key)
    requires Distinct(s.keys)
    ensures Distinct(RemoveAll(digest, s, names).keys)
    ensures key in RemoveAll(digest, s, names).keys <==> key in s.keys && key.publicKey !in names
  {
    if names != [] {
      var n := |names| - 1;
      RemoveAllExactly(digest, s, names[..n], key);
      RemoveExactly(digest, RemoveAll(digest, s, names[..n]), names[n], key);
      InFrontOrLast(names, key.publicKey);
    }
  }

  lemma InFrontOrLast(names: seq<string>, name: string)
    requires names != []
    ensures name in names <==> name in names[..|names| - 1] || name == names[|names| - 1]
  {
    assert names == names[..|names| - 1] + [names[|names| - 1]];
  }

  lemma KeyWithout(keys: seq<Key>, k: nat, key: Key)
    requires Distinct(keys) && k < |keys|
    ensures key in Without(keys, k) <==> key in keys && key.publicKey != keys[k].publicKey
  {
    var rest := Without(keys, k);
    if key in rest {
      var j :| 0 <= j < |rest| && rest[j] == key;
      assert rest[j] == keys[if j < k then j else j + 1];
    }
    if key in keys && key.publicKey != keys[k].publicKey {
      var j :| 0 <= j < |keys| && keys[j] == key;
      assert rest[if j < k then j else j - 1] == key;
    }
  }

  /** Removing the events that are over works on a copy of the list, so it does remove them all and nothing else. */
  lemma OverRemoved(digest: Digester, s: State, over: Over, key: Key)
    requires Distinct(s.keys)
    ensures key in RemoveAll(digest, s, OverNames(s.keys, over)).keys <==> key in s.keys && !over(key)
  {
    RemoveAllExactly(digest, s, OverNames(s.keys, over), key);
    OverNamesExactly(s.keys, over, key.publicKey);
  }

  // ----- what every run keeps -----

  ghost predicate Indexed(s: State) {
    Distinct(s.keys) && s.index == Names(s.keys)
  }

  predicate SameDigest(digest: Digester, a: Snapshot, b: Snapshot) {
    digest(a.keys, a.groups) == digest(b.keys, b.groups)
  }

  /** What the saves so far say about hash and wallet. */
  ghost predicate Traced(digest: Digester, s: State) {
    && (s.saves == [] ==> s.hash == None)
    && (s.saves != [] ==>
          var last := s.saves[|s.saves| - 1];
          s.hash == Some(digest(last.keys, last.groups)) && s.pushed != [] && last.wallet == Wallet(s.pushed))
    && (forall k :: 0 <= k < |s.saves| ==> Follows(digest, s.saves, k))
  }

  /** A save pushes unless its digest is that of the save before it. */
  predicate Follows(digest: Digester, saves: seq<Snapshot>, k: nat)
    requires k < |saves|
  {
    saves[k].wallet
    == if k > 0 && SameDigest(digest, saves[k], saves[k - 1]) then saves[k - 1].wallet else Watched(saves[k].keys)
  }

  lemma SaveTraced(digest: Digester, s: State)
    requires Traced(digest, s)
    ensures Traced(digest, Save(digest, s))
  {
    var saves := Save(digest, s).saves;
    forall k | 0 <= k < |saves| ensures Follows(digest, saves, k) {
      if k < |s.saves| {
        assert Follows(digest, s.saves, k);
      }
    }
  }

  /** The list of keys is the one last saved. */
  predicate Current(s: State) {
    s.saves != [] && s.saves[|s.saves| - 1].keys == s.keys
  }

  lemma NamesWithout(keys: seq<Key>, k: nat)
    requires Distinct(keys) && k < |keys|
    ensures Distinct(Without(keys, k)) && Names(Without(keys, k)) == Names(keys) - {keys[k].publicKey}
  {
    var rest := Without(keys, k);
    forall n ensures n in Names(rest) <==> n in Names(keys) && n != keys[k].publicKey {
      if n in Names(keys) && n != keys[k].publicKey {
        var j :| 0 <= j < |keys| && keys[j].publicKey == n;
        assert rest[if j < k then j else j - 1] == keys[j];
      }
      if n in Names(rest) {
        var j :| 0 <= j < |rest| && rest[j].publicKey == n;
        assert rest[j] == keys[if j < k then j else j + 1];
      }
    }
  }

  /** What a step from s to s' keeps, each on its own. */
  ghost predicate Keeps(digest: Digester, s: State, s': State) {
    (Indexed(s) ==> Indexed(s')) && (Traced(digest, s) ==> Traced(digest, s'))
  }

  lemma AddKeeps(digest: Digester, s: State, name: string, fields: map<string, Value>)
    ensures Keeps(digest, s, Add(digest, s, name, fields))
  {
    var given, k := fields - {"publicKey"}, First(s.keys, name);
    if name != "" && k < |s.keys| {
      var s1 := s.(keys := s.keys[k := Key(s.keys[k].publicKey, s.keys[k].fields + given)]);
      assert forall j :: 0 <= j < |s.keys| ==> s1.keys[j].publicKey == s.keys[j].publicKey;
      SaveKeeps(digest, s, s1);
    } else if name != "" {
      NamesNext(s.keys, Key(name, given));
      SaveKeeps(digest, s, s.(keys := s.keys + [Key(name, given)], index := s.index + {name}));
    }
  }

  lemma RemoveKeeps(digest: Digester, s: State, name: string)
    ensures Keeps(digest, s, Remove(digest, s, name))
  {
    var k := Last(s.keys, name);
    if k != -1 {
      if Distinct(s.keys) {
        NamesWithout(s.keys, k);
      }
      SaveKeeps(digest, s, s.(keys := Without(s.keys, k), index := s.index - {name}));
    }
  }

  /** Saving after a change of the keys. */
  lemma SaveKeeps(digest: Digester, s: State, s1: State)
    requires Indexed(s) ==> Indexed(s1)
    requires s1.hash == s.hash && s1.pushed == s.pushed && s1.saves == s.saves
    ensures Keeps(digest, s, Save(digest, s1))
  {
    if Traced(digest, s) {
      SaveTraced(digest, s1);
    }
  }

  lemma {:induction false} SweepKeeps(digest: Digester, s: State, i: nat)
    ensures Keeps(digest, s, SweepFrom(digest, s, i))
    decreases |s.keys| - i
  {
    if i < |s.keys| {
      if IsScheduled(s.keys[i]) {
        RemoveKeeps(digest, s, s.keys[i].publicKey);
        SweepKeeps(digest, Remove(digest, s, s.keys[i].publicKey), i + 1);
      } else {
        SweepKeeps(digest, s, i + 1);
      }
    }
  }

  lemma {:induction false} RemoveAllKeeps(digest: Digester, s: State, names: seq<string>)
    ensures Keeps(digest, s, RemoveAll(digest, s, names))
  {
    if names != [] {
      var n := |names| - 1;
      RemoveAllKeeps(digest, s, names[..n]);
      RemoveKeeps(digest, RemoveAll(digest, s, names[..n]), names[n]);
    }
  }

  lemma StartedKeeps(digest: Digester, stored: seq<Key>, groups: Groups, own: string, over: Over)
    ensures var s := Started(digest, stored, groups, own, over);
            && s.saved == s.keys && Current(s) && Traced(digest, s) && (Distinct(stored) ==> Indexed(s))
  {
    var loaded := Loaded(stored, groups);
    AddKeeps(digest, loaded, own, map["watched" := Flag(true)]);
    var s := if stored == [] then Add(digest, loaded, own, map["watched" := Flag(true)]) else loaded;
    SweepKeeps(digest, s, 0);
    var swept := SweepFrom(digest, s, 0);
    var cleared := RemoveAll(digest, swept, OverNames(swept.keys, over));
    RemoveAllKeeps(digest, swept, OverNames(swept.keys, over));
    SaveKeeps(digest, cleared, cleared);
  }

  datatype Event =
    | AddEvent(name: string, fields: map<string, Value>)
    | RemoveEvent(name: string)
    | GroupsEvent(groups: Groups)

  function Next(digest: Digester, s: State, ev: Event): State {
    match ev
    case AddEvent(name, fields) => Add(digest, s, name, fields)
    case RemoveEvent(name) => Remove(digest, s, name)
    case GroupsEvent(groups) => s.(groups := groups)
  }

  function Run(digest: Digester, s: State, evs: seq<Event>): State
    decreases |evs|
  {
    if evs == [] then s else Run(digest, Next(digest, s, evs[0]), evs[1..])
  }

  lemma NextKeeps(digest: Digester, s: State, ev: Event)
    requires s.saved == s.keys && Current(s)
    ensures var s' := Next(digest, s, ev); Keeps(digest, s, s') && s'.saved == s'.keys && Current(s')
  {
    match ev {
      case AddEvent(name, fields) => AddKeeps(digest, s, name, fields);
      case RemoveEvent(name) => RemoveKeeps(digest, s, name);
      case GroupsEvent(_) => {}
    }
  }

  lemma {:induction false} RunKeeps(digest: Digester, s: State, evs: seq<Event>)
    requires s.saved == s.keys && Current(s)
    ensures var s' := Run(digest, s, evs); Keeps(digest, s, s') && s'.saved == s'.keys && Current(s')
    decreases |evs|
  {
    if evs != [] {
      NextKeeps(digest, s, evs[0]);
      RunKeeps(digest, Next(digest, s, evs[0]), evs[1..]);
    }
  }

  /**
   From distinct stored keys, after start-up and any run of additions and removals, keys are distinct,
   the index holds exactly them and the options hold a copy, whatever the digest.
   */
  lemma KeysStayDistinct(digest: Digester, stored: seq<Key>, groups: Groups, own: string, over: Over, evs: seq<Event>)
    requires Distinct(stored)
    ensures var s := Run(digest, Started(digest, stored, groups, own, over), evs);
            Distinct(s.keys) && s.index == Names(s.keys) && s.saved == s.keys
  {
    StartedKeeps(digest, stored, groups, own, over);
    RunKeeps(digest, Started(digest, stored, groups, own, over), evs);
  }

  // ----- when the wallet is right -----

  /** After every save the wallet had the watched keys, in order. */
  predicate AlwaysRight(saves: seq<Snapshot>) {
    forall k :: 0 <= k < |saves| ==> saves[k].wallet == Watched(saves[k].keys)
  }

  /** Two saves in a row have the same digest only if they have the same watched keys. */
  predicate NoMiss(digest: Digester, saves: seq<Snapshot>) {
    forall k :: 0 < k < |saves| ==> NoMissAt(digest, saves, k)
  }

  predicate NoMissAt(digest: Digester, saves: seq<Snapshot>, k: nat)
    requires 0 < k < |saves|
  {
    SameDigest(digest, saves[k], saves[k - 1]) ==> Watched(saves[k].keys) == Watched(saves[k - 1].keys)
  }

  lemma {:induction false} RightUpTo(digest: Digester, s: State, k: nat)
    requires Traced(digest, s) && NoMiss(digest, s.saves) && k < |s.saves|
    ensures s.saves[k].wallet == Watched(s.saves[k].keys)
  {
    assert Follows(digest, s.saves, k);
    if k > 0 {
      assert NoMissAt(digest, s.saves, k);
      RightUpTo(digest, s, k - 1);
    }
  }

  /**
   The wallet has been right after every save of a run exactly if no two saves in a row collided with
   different watched keys; and then it has the present watched keys, in order.
   */
  lemma WalletRightExactly(digest: Digester, stored: seq<Key>, groups: Groups, own: string, over: Over, evs: seq<Event>)
    ensures var s := Run(digest, Started(digest, stored, groups, own, over), evs);
            && (AlwaysRight(s.saves) <==> NoMiss(digest, s.saves))
            && (AlwaysRight(s.saves) ==> s.pushed != [] && s.pushed[|s.pushed| - 1] == Watched(s.keys))
  {
    var s := Run(digest, Started(digest, stored, groups, own, over), evs);
    StartedKeeps(digest, stored, groups, own, over);
    RunKeeps(digest, Started(digest, stored, groups, own, over), evs);
    if NoMiss(digest, s.saves) {
      forall k | 0 <= k < |s.saves| ensures s.saves[k].wallet == Watched(s.saves[k].keys) {
        RightUpTo(digest, s, k);
      }
    }
    if AlwaysRight(s.saves) {
      forall k | 0 < k < |s.saves| ensures NoMissAt(digest, s.saves, k) {
        assert Follows(digest, s.saves, k);
        assert s.saves[k].wallet == Watched(s.saves[k].keys) && s.saves[k - 1].wallet == Watched(s.saves[k - 1].keys);
      }
    }
  }

  /** A digest without collisions never misses, so then the wallet is always right. */
  lemma InjectiveNeverMisses(
    digest: Digester, stored: seq<Key>, groups: Groups, own: string, over: Over, evs: seq<Event>)
    requires forall ks, gs, ks', gs' :: digest(ks, gs) == digest(ks', gs') ==> ks == ks' && gs == gs'
    ensures var s := Run(digest, Started(digest, stored, groups, own, over), evs);
            AlwaysRight(s.saves) && s.pushed != [] && s.pushed[|s.pushed| - 1] == Watched(s.keys)
  {
    WalletRightExactly(digest, stored, groups, own, over, evs);
  }

  // ----- what a key has -----

  /** A field is among those given to a key, its name apart. */
  predicate Given(fields: map<string, Value>, f: string) {
    f in fields && f != "publicKey"
  }

  /** A known key takes over what is given and keeps the rest; no other key changes. */
  lemma KnownKeyUpdated(digest: Digester, s: State, name: string, fields: map<string, Value>, k: nat, f: string)
    requires name != "" && k < |s.keys| && s.keys[k].publicKey == name
    requires forall j :: 0 <= j < k ==> s.keys[j].publicKey != name
    ensures var s' := Add(digest, s, name, fields);
            && |s'.keys| == |s.keys| && s'.index == s.index && s'.groups == s.groups
            && (forall j :: 0 <= j < |s.keys| && j != k ==> s'.keys[j] == s.keys[j])
            && s'.keys[k].publicKey == name
            && (f in s'.keys[k].fields <==> f in s.keys[k].fields || Given(fields, f))
            && (f in s'.keys[k].fields ==>
                  s'.keys[k].fields[f] == if Given(fields, f) then fields[f] else s.keys[k].fields[f])
  {
    assert First(s.keys, name) == k;
  }

  /** An unknown one is appended, with what is given. */
  lemma NewKeyAppended(digest: Digester, s: State, name: string, fields: map<string, Value>, f: string)
    requires name != "" && forall j :: 0 <= j < |s.keys| ==> s.keys[j].publicKey != name
    ensures var s' := Add(digest, s, name, fields);
            && |s'.keys| == |s.keys| + 1 && s'.keys[..|s.keys|] == s.keys && s'.groups == s.groups
            && s'.index == s.index + {name} && s'.keys[|s.keys|].publicKey == name
            && (f in s'.keys[|s.keys|].fields <==> Given(fields, f))
            && (Given(fields, f) ==> s'.keys[|s.keys|].fields[f] == fields[f])
  {
    assert First(s.keys, name) == |s.keys|;
  }

  /** The last key of a name goes, and the others keep their order. */
  lemma LastKeyRemoved(digest: Digester, s: State, name: string, k: nat)
    requires k < |s.keys| && s.keys[k].publicKey == name
    requires forall j :: k < j < |s.keys| ==> s.keys[j].publicKey != name
    ensures var s' := Remove(digest, s, name);
            s'.keys == s.keys[..k] + s.keys[k + 1..] && s'.index == s.index - {name} && s'.groups == s.groups
  {
    assert Last(s.keys, name) == k;
  }

  /** The watched keys are those with a true value in that field, in order. */
  lemma {:induction false} WatchedExactly(keys: seq<Key>, key: Key)
    ensures Watched(keys + [key])
            == Watched(keys)
               + if "watched" in key.fields && key.fields["watched"] !in {Text(""), Flag(false), Number(0)}
                 then [key.publicKey] else []
  {
    var all := keys + [key];
    if keys == [] {
      assert all[1..] == [];
    } else {
      assert all[0] == keys[0] && all[1..] == keys[1..] + [key];
      WatchedExactly(keys[1..], key);
    }
  }

  /**
   What is there after start-up from distinct keys: of the keys stored, or of the own key alone if none are,
   those that the sweep of scheduled calls leaves and that are not over.
   */
  lemma StartedExactly(digest: Digester, stored: seq<Key>, groups: Groups, own: string, over: Over, key: Key)
    requires Distinct(stored)
    ensures var first := if stored != [] then stored
                         else if own == "" then [] else [Key(own, map["watched" := Flag(true)])];
            key in Started(digest, stored, groups, own, over).keys <==> key in Skim(first) && !over(key)
    ensures Started(digest, stored, groups, own, over).groups == groups
  {
    var loaded := Loaded(stored, groups);
    var s := if stored == [] then Add(digest, loaded, own, map["watched" := Flag(true)]) else loaded;
    OwnKey(digest, groups, own);
    SweepSkims(digest, s, 0);
    assert s.keys[0..] == s.keys && s.keys[..0] + Skim(s.keys) == Skim(s.keys);
    var swept := SweepFrom(digest, s, 0);
    SweepKeeps(digest, s, 0);
    SweepDistinct(digest, s);
    OverRemoved(digest, swept, over, key);
    SweepGroups(digest, s, 0);
    RemoveGroups(digest, swept, OverNames(swept.keys, over));
  }

  lemma OwnKey(digest: Digester, groups: Groups, own: string)
    ensures Add(digest, Loaded([], groups), own, map["watched" := Flag(true)]).keys
            == if own == "" then [] else [Key(own, map["watched" := Flag(true)])]
    ensures Add(digest, Loaded([], groups), own, map["watched" := Flag(true)]).groups == groups
  {
    var fields: map<string, Value> := map["watched" := Flag(true)];
    assert fields - {"publicKey"} == fields;
  }

  lemma {:induction false} SkimDistinct(keys: seq<Key>)
    requires Distinct(keys)
    ensures Distinct(Skim(keys)) && forall e :: e in Skim(keys) ==> e in keys
  {
    if keys != [] && !IsScheduled(keys[0]) {
      SkimDistinct(keys[1..]);
      HeadDistinct(keys[0], Skim(keys[1..]), keys[1..]);
    } else if |keys| > 1 {
      SkimDistinct(keys[2..]);
      HeadDistinct(keys[1], Skim(keys[2..]), keys[2..]);
    }
  }

  lemma HeadDistinct(key: Key, some: seq<Key>, rest: seq<Key>)
    requires Distinct(some) && (forall e :: e in some ==> e in rest)
    requires forall k :: 0 <= k < |rest| ==> rest[k].publicKey != key.publicKey
    ensures Distinct([key] + some)
  {
    forall k | 0 <= k < |some| ensures some[k].publicKey != key.publicKey {
      assert some[k] in rest;
    }
  }

  lemma SweepDistinct(digest: Digester, s: State)
    requires Distinct(s.keys)
    ensures Distinct(SweepFrom(digest, s, 0).keys)
  {
    SweepSkims(digest, s, 0);
    SkimDistinct(s.keys);
    assert s.keys[0..] == s.keys && s.keys[..0] + Skim(s.keys) == Skim(s.keys);
  }

  lemma {:induction false} SweepGroups(digest: Digester, s: State, i: nat)
    ensures SweepFrom(digest, s, i).groups == s.groups
    decreases |s.keys| - i
  {
    if i < |s.keys| {
      SweepGroups(digest, if IsScheduled(s.keys[i]) then Remove(digest, s, s.keys[i].publicKey) else s, i + 1);
    }
  }

  lemma {:induction false} RemoveGroups(digest: Digester, s: State, names: seq<string>)
    ensures RemoveAll(digest, s, names).groups == s.groups
  {
    if names != [] {
      RemoveGroups(digest, s, names[..|names| - 1]);
    }
  }
}

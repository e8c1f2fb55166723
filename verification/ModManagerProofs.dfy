/** What reconciling modules with the saved options comes to when names are distinct. */
module ModManagerProofs {
  import opened Options
  import opened ModManager

  predicate DistinctMods(mods: seq<string>) {
    forall i, j :: 0 <= i < j < |mods| ==> mods[i] != mods[j]
  }

  predicate DistinctNames(os: seq<Entry>) {
    forall i, j :: 0 <= i < j < |os| ==> os[i].name != os[j].name
  }

  function Lookup(os: seq<Entry>, name: string): Option<Entry> {
    var k := Last(os, name);
    if k == -1 then None else Some(os[k])
  }

  lemma LookupAt(os: seq<Entry>, k: nat)
    requires DistinctNames(os) && k < |os|
    ensures Lookup(os, os[k].name) == Some(os[k])
  {
  }

  lemma LookupSame(os: seq<Entry>, os': seq<Entry>, name: string)
    requires DistinctNames(os) && DistinctNames(os')
    requires forall e: Entry :: e.name == name ==> (e in os <==> e in os')
    ensures Lookup(os, name) == Lookup(os', name)
  {
    if Lookup(os, name).Some? {
      assert os[Last(os, name)] in os';
    }
    if Lookup(os', name).Some? {
      assert os'[Last(os', name)] in os;
    }
  }

  // ----- the sweep is two filters -----

  predicate Stopped(os: seq<Entry>, name: string) {
    exists k :: 0 <= k < |os| && os[k].name == name && os[k].active.Zero?
  }

  predicate AllHere(os: seq<Entry>, mods: seq<string>) {
    forall k :: 0 <= k < |os| ==> os[k].name in mods
  }

  function KeepEntries(os: seq<Entry>, mods: seq<string>): seq<Entry> {
    if os == [] then [] else (if os[0].name in mods then [os[0]] else []) + KeepEntries(os[1..], mods)
  }

  function KeepMods(mods: seq<string>, os: seq<Entry>): seq<string> {
    if mods == [] then []
    else (if Stopped(os, mods[0]) then [] else [mods[0]]) + KeepMods(mods[1..], os)
  }

  lemma {:induction false} KeepModsSame(mods: seq<string>, os: seq<Entry>, os': seq<Entry>)
    requires forall k :: 0 <= k < |mods| ==> Stopped(os, mods[k]) == Stopped(os', mods[k])
    ensures KeepMods(mods, os) == KeepMods(mods, os')
  {
    if mods != [] {
      KeepModsSame(mods[1..], os, os');
    }
  }

  lemma {:induction false} KeepModsMember(mods: seq<string>, os: seq<Entry>, m: string)
    ensures m in KeepMods(mods, os) <==> m in mods && !Stopped(os, m)
  {
    if mods != [] {
      KeepModsMember(mods[1..], os, m);
      assert mods == [mods[0]] + mods[1..];
    }
  }

  lemma {:induction false} KeepModsDistinct(mods: seq<string>, os: seq<Entry>)
    requires DistinctMods(mods)
    ensures DistinctMods(KeepMods(mods, os))
  {
    if mods != [] {
      var rest := KeepMods(mods[1..], os);
      KeepModsDistinct(mods[1..], os);
      forall k | 0 <= k < |rest| ensures rest[k] != mods[0] {
        KeepModsMember(mods[1..], os, rest[k]);
        assert rest[k] in rest;
      }
    }
  }

  lemma {:induction false} KeepEntriesMember(os: seq<Entry>, mods: seq<string>, e: Entry)
    ensures e in KeepEntries(os, mods) <==> e in os && e.name in mods
  {
    if os != [] {
      KeepEntriesMember(os[1..], mods, e);
      assert os == [os[0]] + os[1..];
    }
  }

  lemma {:induction false} KeepEntriesDistinct(os: seq<Entry>, mods: seq<string>)
    requires DistinctNames(os)
    ensures DistinctNames(KeepEntries(os, mods))
  {
    if os != [] {
      var rest := KeepEntries(os[1..], mods);
      KeepEntriesDistinct(os[1..], mods);
      forall k | 0 <= k < |rest| ensures rest[k].name != os[0].name {
        KeepEntriesMember(os[1..], mods, rest[k]);
        assert rest[k] in rest;
      }
    }
  }

  lemma {:induction false} KeepEntriesAll(os: seq<Entry>, mods: seq<string>)
    requires AllHere(os, mods)
    ensures KeepEntries(os, mods) == os
  {
    if os != [] {
      KeepEntriesAll(os[1..], mods);
    }
  }

  // ----- the sweep, with names that may repeat -----

  /** The entries the sweep keeps: those with a module and no stopped entry of the same name after them. */
  function KeepLive(os: seq<Entry>, mods: seq<string>): seq<Entry> {
    if os == [] then []
    else (if os[0].name in mods && !Stopped(os[1..], os[0].name) then [os[0]] else []) + KeepLive(os[1..], mods)
  }

  lemma StoppedCons(e: Entry, os: seq<Entry>, name: string)
    ensures Stopped([e] + os, name) <==> Stopped(os, name) || (e.active.Zero? && e.name == name)
  {
    var all := [e] + os;
    if Stopped(os, name) {
      var k :| 0 <= k < |os| && os[k].name == name && os[k].active.Zero?;
      assert all[k + 1] == os[k];
    }
    if e.active.Zero? && e.name == name {
      assert all[0] == e;
    }
    if Stopped(all, name) {
      var k :| 0 <= k < |all| && all[k].name == name && all[k].active.Zero?;
      assert k > 0 ==> all[k] == os[k - 1];
    }
  }

  lemma {:induction false} KeepLiveLength(a: seq<Entry>, b: seq<Entry>, mods: seq<string>)
    ensures |KeepLive(a + b, mods)| <= |a| + |KeepLive(b, mods)|
  {
    if a == [] {
      assert a + b == b;
    } else {
      assert (a + b)[1..] == a[1..] + b;
      KeepLiveLength(a[1..], b, mods);
    }
  }

  function Minus(mods: seq<string>, name: string): seq<string> {
    if mods == [] then [] else (if mods[0] == name then [] else [mods[0]]) + Minus(mods[1..], name)
  }

  lemma {:induction false} MinusAbsent(mods: seq<string>, name: string)
    requires forall k :: 0 <= k < |mods| ==> mods[k] != name
    ensures Minus(mods, name) == mods
  {
    if mods != [] {
      MinusAbsent(mods[1..], name);
    }
  }

  lemma WithoutHead(mods: seq<string>)
    requires mods != []
    ensures Without(mods, 0) == mods[1..]
  {
  }

  lemma WithoutLater(mods: seq<string>, z: nat)
    requires 0 < z < |mods|
    ensures Without(mods, z) == [mods[0]] + Without(mods[1..], z - 1)
  {
  }

  /** Taking out the first of distinct modules with a name takes out the name. */
  lemma {:induction false} WithoutIsMinus(mods: seq<string>, name: string)
    requires DistinctMods(mods) && First(mods, name) < |mods|
    ensures Without(mods, First(mods, name)) == Minus(mods, name)
  {
    if mods[0] == name {
      WithoutHead(mods);
      MinusAbsent(mods[1..], name);
    } else {
      WithoutIsMinus(mods[1..], name);
      WithoutLater(mods, First(mods, name));
    }
  }

  lemma {:induction false} StopIsMinus(mods: seq<string>, e: Entry, tail: seq<Entry>)
    requires e.active.Zero?
    ensures KeepMods(mods, [e] + tail) == Minus(KeepMods(mods, tail), e.name)
  {
    if mods != [] {
      var left := KeepMods(mods[1..], tail);
      StoppedCons(e, tail, mods[0]);
      StopIsMinus(mods[1..], e, tail);
      assert ([mods[0]] + left)[1..] == left;
      assert [] + left == left;
    }
  }

  /** Stopping a module takes it out of those left. */
  lemma StopTakesOut(mods: seq<string>, e: Entry, tail: seq<Entry>)
    requires DistinctMods(mods) && e.active.Zero? && e.name in KeepMods(mods, tail)
    ensures KeepMods(mods, [e] + tail) == Without(KeepMods(mods, tail), First(KeepMods(mods, tail), e.name))
  {
    KeepModsDistinct(mods, tail);
    WithoutIsMinus(KeepMods(mods, tail), e.name);
    StopIsMinus(mods, e, tail);
  }

  lemma NotLive(mods: seq<string>, e: Entry, tail: seq<Entry>)
    requires e.name !in mods || Stopped(tail, e.name) || !e.active.Zero?
    ensures KeepMods(mods, [e] + tail) == KeepMods(mods, tail)
  {
    forall k | 0 <= k < |mods| ensures Stopped([e] + tail, mods[k]) == Stopped(tail, mods[k]) {
      StoppedCons(e, tail, mods[k]);
    }
    KeepModsSame(mods, [e] + tail, tail);
  }

  /** One turn of the sweep, what lies behind it being swept already: the entry stays. */
  lemma TurnKeeps(mods: seq<string>, front: seq<Entry>, e: Entry, tail: seq<Entry>)
    requires DistinctMods(mods) && e.name in KeepMods(mods, tail)
    ensures SweepOne(KeepMods(mods, tail), front + [e] + KeepLive(tail, mods), |front|)
         == Swept(KeepMods(mods, [e] + tail), front + ([e] + KeepLive(tail, mods)), false)
  {
    var os, left := front + [e] + KeepLive(tail, mods), KeepMods(mods, tail);
    if e.active.Zero? {
      StopTakesOut(mods, e, tail);
    } else {
      NotLive(mods, e, tail);
    }
    assert os == front + ([e] + KeepLive(tail, mods)) && os[|front|] == e;
    FoundTurn(left, KeepMods(mods, [e] + tail), os, |front|);
  }

  lemma FoundTurn(left: seq<string>, left': seq<string>, os: seq<Entry>, i: nat)
    requires i < |os| && os[i].name in left
    requires left' == if os[i].active.Zero? then Without(left, First(left, os[i].name)) else left
    ensures SweepOne(left, os, i) == Swept(left', os, false)
  {
  }

  /** Or goes. */
  lemma TurnDrops(mods: seq<string>, front: seq<Entry>, e: Entry, tail: seq<Entry>)
    requires e.name !in KeepMods(mods, tail)
    ensures SweepOne(KeepMods(mods, tail), front + [e] + KeepLive(tail, mods), |front|)
         == Swept(KeepMods(mods, [e] + tail), front + KeepLive(tail, mods), true)
  {
    var os := front + [e] + KeepLive(tail, mods);
    assert os[|front|] == e && Without(os, |front|) == front + KeepLive(tail, mods);
    KeepModsMember(mods, tail, e.name);
    NotLive(mods, e, tail);
  }

  lemma SweepTurn(mods: seq<string>, front: seq<Entry>, e: Entry, tail: seq<Entry>)
    requires DistinctMods(mods)
    ensures SweepOne(KeepMods(mods, tail), front + [e] + KeepLive(tail, mods), |front|)
         == Swept(KeepMods(mods, [e] + tail), front + KeepLive([e] + tail, mods),
                  |KeepLive([e] + tail, mods)| == |KeepLive(tail, mods)|)
  {
    assert ([e] + tail)[1..] == tail;
    KeepModsMember(mods, tail, e.name);
    if e.name in KeepMods(mods, tail) {
      TurnKeeps(mods, front, e, tail);
    } else {
      TurnDrops(mods, front, e, tail);
      assert [] + KeepLive(tail, mods) == KeepLive(tail, mods);
    }
  }

  lemma {:induction false} SweepLive(mods: seq<string>, pre: seq<Entry>, tail: seq<Entry>, removed: bool)
    requires DistinctMods(mods)
    ensures Sweep(KeepMods(mods, tail), pre + KeepLive(tail, mods), |pre|, removed)
         == Swept(KeepMods(mods, pre + tail), KeepLive(pre + tail, mods),
                  removed || |KeepLive(pre + tail, mods)| < |pre| + |KeepLive(tail, mods)|)
    decreases |pre|
  {
    if pre == [] {
      assert pre + KeepLive(tail, mods) == KeepLive(tail, mods) && pre + tail == tail;
    } else {
      var n := |pre| - 1;
      var front, e := pre[..n], pre[n];
      assert pre == front + [e] && pre + tail == front + ([e] + tail);
      SweepTurn(mods, front, e, tail);
      KeepLiveLength(front, [e] + tail, mods);
      assert ([e] + tail)[1..] == tail;
      SweepLive(mods, front, [e] + tail, removed || |KeepLive([e] + tail, mods)| == |KeepLive(tail, mods)|);
    }
  }

  /** The whole sweep: modules not stopped and live entries are left. */
  lemma SweepExactly(mods: seq<string>, os: seq<Entry>)
    requires DistinctMods(mods)
    ensures Sweep(mods, os, |os|, false) == Swept(KeepMods(mods, os), KeepLive(os, mods), |KeepLive(os, mods)| < |os|)
  {
    NoneStopped(mods);
    SweepLive(mods, os, [], false);
    assert os + [] == os && os + KeepLive([], mods) == os;
  }

  lemma {:induction false} LiveDistinct(os: seq<Entry>, mods: seq<string>)
    requires DistinctNames(os)
    ensures KeepLive(os, mods) == KeepEntries(os, mods)
  {
    if os != [] {
      forall k | 0 <= k < |os[1..]| ensures os[1..][k].name != os[0].name {
        assert os[1..][k] == os[k + 1];
      }
      LiveDistinct(os[1..], mods);
    }
  }

  /** With distinct names every entry with a module is live. */
  lemma SweepAll(mods: seq<string>, os: seq<Entry>)
    requires DistinctMods(mods) && DistinctNames(os)
    ensures Sweep(mods, os, |os|, false) == Swept(KeepMods(mods, os), KeepEntries(os, mods), !AllHere(os, mods))
  {
    SweepExactly(mods, os);
    LiveDistinct(os, mods);
    KeepAllIff(os, mods);
  }

  lemma {:induction false} KeepAllIff(os: seq<Entry>, mods: seq<string>)
    ensures |KeepEntries(os, mods)| <= |os|
    ensures |KeepEntries(os, mods)| < |os| <==> !AllHere(os, mods)
  {
    if os != [] {
      KeepAllIff(os[1..], mods);
      assert os == [os[0]] + os[1..];
    }
  }

  lemma {:induction false} NoneStopped(mods: seq<string>)
    ensures KeepMods(mods, []) == mods
  {
    if mods != [] {
      NoneStopped(mods[1..]);
    }
  }

  // ----- installing, name by name -----

  /** What installing makes of the entry found for a module. */
  function After(found: Option<Entry>, name: string): Entry {
    if found == None then Entry(name, On, true, "")
    else if found.value.installed then found.value
    else found.value.(installed := true, active := On)
  }

  lemma InstallOneLookup(os: seq<Entry>, m: string, name: string)
    requires DistinctNames(os)
    ensures DistinctNames(InstallOne(os, m))
    ensures Lookup(InstallOne(os, m), name) == if name == m then Some(After(Lookup(os, m), m)) else Lookup(os, name)
  {
    var os', k, j := InstallOne(os, m), Last(os, m), Last(os, name);
    if k >= 0 {
      LookupAt(os, k);
    }
    if !IsInstalled(os, m) && k == -1 {
      assert os'[|os|].name == m && os'[..|os|] == os;
    } else if !IsInstalled(os, m) {
      LookupAt(os', k);
      if j >= 0 {
        LookupAt(os', j);
      }
    }
  }

  lemma {:induction false} InstallAllLookup(os: seq<Entry>, mods: seq<string>, name: string)
    requires DistinctNames(os)
    ensures DistinctNames(InstallAll(os, mods))
    ensures Lookup(InstallAll(os, mods), name)
            == if name in mods then Some(After(Lookup(os, name), name)) else Lookup(os, name)
  {
    if mods != [] {
      var n := |mods| - 1;
      InstallAllLookup(os, mods[..n], name);
      InstallOneLookup(InstallAll(os, mods[..n]), mods[n], name);
      InFrontOrLast(mods, name);
    }
  }

  lemma InFrontOrLast(mods: seq<string>, name: string)
    requires mods != []
    ensures name in mods <==> name in mods[..|mods| - 1] || name == mods[|mods| - 1]
  {
    assert mods == mods[..|mods| - 1] + [mods[|mods| - 1]];
  }

  lemma InstalledByLookup(os: seq<Entry>, name: string)
    requires DistinctNames(os)
    ensures IsInstalled(os, name) <==> Lookup(os, name).Some? && Lookup(os, name).value.installed
    ensures Stopped(os, name) <==> Lookup(os, name).Some? && Lookup(os, name).value.active.Zero?
  {
  }

  function NotInstalled(mods: seq<string>, os: seq<Entry>): seq<string> {
    if mods == [] then []
    else
      var n := |mods| - 1;
      NotInstalled(mods[..n], os) + if IsInstalled(os, mods[n]) then [] else [mods[n]]
  }

  lemma {:induction false} NewlyExactly(os: seq<Entry>, mods: seq<string>)
    requires DistinctMods(mods) && DistinctNames(os)
    ensures Newly(os, mods) == NotInstalled(mods, os)
  {
    if mods != [] {
      var n := |mods| - 1;
      var before := InstallAll(os, mods[..n]);
      NewlyExactly(os, mods[..n]);
      InstallAllLookup(os, mods[..n], mods[n]);
      InstalledByLookup(os, mods[n]);
      InstalledByLookup(before, mods[n]);
    }
  }

  lemma {:induction false} NothingToInstall(os: seq<Entry>, mods: seq<string>)
    requires forall k :: 0 <= k < |mods| ==> IsInstalled(os, mods[k])
    ensures InstallAll(os, mods) == os && Newly(os, mods) == [] && NotInstalled(mods, os) == []
  {
    if mods != [] {
      NothingToInstall(os, mods[..|mods| - 1]);
    }
  }

  lemma {:induction false} SortDistinct(lower: LowerCase, os: seq<Entry>)
    requires DistinctNames(os)
    ensures DistinctNames(Sort(lower, os))
  {
    if os != [] {
      SortDistinct(lower, os[1..]);
      SortSorts(lower, os[1..]);
      forall e | e in Sort(lower, os[1..]) ensures e.name != os[0].name {
        assert e in multiset(os[1..]);
      }
      InsertDistinct(lower, os[0], Sort(lower, os[1..]));
    }
  }

  lemma {:induction false} InsertDistinct(lower: LowerCase, e: Entry, os: seq<Entry>)
    requires DistinctNames(os) && forall f :: f in os ==> f.name != e.name
    ensures DistinctNames(Insert(lower, e, os))
  {
    if os != [] && Less(lower, os[0], e) {
      var rest := Insert(lower, e, os[1..]);
      InsertDistinct(lower, e, os[1..]);
      InsertMembers(lower, e, os[1..]);
      forall k | 0 <= k < |rest| ensures rest[k].name != os[0].name {
        assert rest[k] in multiset(rest);
        assert rest[k] == e || rest[k] in os[1..];
      }
    }
  }

  lemma SortLookup(lower: LowerCase, os: seq<Entry>, name: string)
    requires DistinctNames(os)
    ensures DistinctNames(Sort(lower, os)) && Lookup(Sort(lower, os), name) == Lookup(os, name)
  {
    SortDistinct(lower, os);
    SortSorts(lower, os);
    forall e: Entry ensures e in Sort(lower, os) <==> e in os {
      assert e in multiset(os) <==> e in os;
      assert e in multiset(Sort(lower, os)) <==> e in Sort(lower, os);
    }
    LookupSame(os, Sort(lower, os), name);
  }

  // ----- what one run does -----

  /** The entry a name ends up with: none without a module, a stopped one as it was, all others installed. */
  function Outcome(mods: seq<string>, os: seq<Entry>, name: string): Option<Entry> {
    var found := Lookup(os, name);
    if name !in mods then None
    else if found.Some? && found.value.active.Zero? then found
    else Some(After(found, name))
  }

  lemma KeptLookup(os: seq<Entry>, mods: seq<string>, name: string)
    requires DistinctNames(os)
    ensures DistinctNames(KeepEntries(os, mods))
    ensures Lookup(KeepEntries(os, mods), name) == if name in mods then Lookup(os, name) else None
  {
    var kept := KeepEntries(os, mods);
    KeepEntriesDistinct(os, mods);
    forall e: Entry ensures e in kept <==> e in os && e.name in mods {
      KeepEntriesMember(os, mods, e);
    }
    if name in mods {
      LookupSame(os, kept, name);
    } else {
      forall k | 0 <= k < |kept| ensures kept[k].name != name {
        assert kept[k] in kept;
      }
    }
  }

  /**
   With distinct names a run leaves a sorted list with exactly one entry per module, and the entry
   says what became of the old one; the modules left are those not stopped; those of them not
   installed before are installed, in order; and the options are saved exactly if one was installed
   or an entry had no module.
   */
  lemma Reconciled(lower: LowerCase, mods: seq<string>, os: seq<Entry>)
    requires DistinctMods(mods) && DistinctNames(os)
    ensures var r := Reconcile(lower, mods, os);
            && DistinctNames(r.os) && Sorted(lower, r.os)
            && (forall name :: Lookup(r.os, name) == Outcome(mods, os, name))
            && r.mods == KeepMods(mods, os)
            && r.installed == NotInstalled(r.mods, KeepEntries(os, mods))
            && (r.saved <==> r.installed != [] || !AllHere(os, mods))
  {
    var kept, left := KeepEntries(os, mods), KeepMods(mods, os);
    SweepAll(mods, os);
    KeepEntriesDistinct(os, mods);
    KeepModsDistinct(mods, os);
    NewlyExactly(kept, left);
    SortSorts(lower, InstallAll(kept, left));
    InstallAllLookup(kept, left, "");
    SortDistinct(lower, InstallAll(kept, left));
    forall name ensures Lookup(Sort(lower, InstallAll(kept, left)), name) == Outcome(mods, os, name) {
      ReconciledName(lower, mods, os, name);
    }
  }

  lemma ReconciledName(lower: LowerCase, mods: seq<string>, os: seq<Entry>, name: string)
    requires DistinctNames(os)
    ensures Lookup(Sort(lower, InstallAll(KeepEntries(os, mods), KeepMods(mods, os))), name) == Outcome(mods, os, name)
  {
    var kept, left := KeepEntries(os, mods), KeepMods(mods, os);
    KeptLookup(os, mods, name);
    InstallAllLookup(kept, left, name);
    SortLookup(lower, InstallAll(kept, left), name);
    KeepModsMember(mods, os, name);
    InstalledByLookup(os, name);
  }

  lemma InstallOneInstalls(os: seq<Entry>, m: string, name: string)
    requires name == m || IsInstalled(os, name)
    ensures IsInstalled(InstallOne(os, m), name)
  {
    var os', k := InstallOne(os, m), Last(os, m);
    if IsInstalled(os, name) {
      var j :| 0 <= j < |os| && os[j].name == name && os[j].installed;
      assert os'[j].name == name && os'[j].installed;
    } else {
      assert os'[if k == -1 then |os| else k].installed;
    }
  }

  lemma {:induction false} InstallAllInstalls(os: seq<Entry>, mods: seq<string>, name: string)
    requires name in mods
    ensures IsInstalled(InstallAll(os, mods), name)
  {
    var n := |mods| - 1;
    assert mods == mods[..n] + [mods[n]];
    if name in mods[..n] {
      InstallAllInstalls(os, mods[..n], name);
    }
    InstallOneInstalls(InstallAll(os, mods[..n]), mods[n], name);
  }

  /** Every module left has an installed entry, whatever the names. */
  lemma LeftAreInstalled(lower: LowerCase, mods: seq<string>, os: seq<Entry>)
    ensures var r := Reconcile(lower, mods, os);
            forall k :: 0 <= k < |r.mods| ==> IsInstalled(r.os, r.mods[k])
  {
    var swept := Sweep(mods, os, |os|, false);
    var installed := InstallAll(swept.os, swept.mods);
    SortSorts(lower, installed);
    forall k | 0 <= k < |swept.mods| ensures IsInstalled(Sort(lower, installed), swept.mods[k]) {
      InstallAllInstalls(swept.os, swept.mods, swept.mods[k]);
      var j :| 0 <= j < |installed| && installed[j].name == swept.mods[k] && installed[j].installed;
      assert installed[j] in multiset(Sort(lower, installed));
    }
  }

  // ----- a second run -----

  lemma StoppedStays(lower: LowerCase, mods: seq<string>, os: seq<Entry>)
    requires DistinctMods(mods) && DistinctNames(os)
    ensures var r := Reconcile(lower, mods, os);
            && AllHere(r.os, mods)
            && (forall k :: 0 <= k < |mods| ==> Stopped(r.os, mods[k]) == Stopped(os, mods[k]))
  {
    var r := Reconcile(lower, mods, os);
    Reconciled(lower, mods, os);
    forall k | 0 <= k < |r.os| ensures r.os[k].name in mods {
      LookupAt(r.os, k);
      assert Lookup(r.os, r.os[k].name) == Outcome(mods, os, r.os[k].name);
    }
    forall k | 0 <= k < |mods| ensures Stopped(r.os, mods[k]) == Stopped(os, mods[k]) {
      InstalledByLookup(os, mods[k]);
      InstalledByLookup(r.os, mods[k]);
      assert Lookup(r.os, mods[k]) == Outcome(mods, os, mods[k]);
    }
  }

  lemma {:induction false} KeepSorted(lower: LowerCase, os: seq<Entry>, mods: seq<string>)
    requires Sorted(lower, os)
    ensures Sorted(lower, KeepEntries(os, mods))
  {
    if os != [] {
      var rest := KeepEntries(os[1..], mods);
      KeepSorted(lower, os[1..], mods);
      forall k | 0 <= k < |rest| ensures !Less(lower, rest[k], os[0]) {
        KeepEntriesMember(os[1..], mods, rest[k]);
        assert rest[k] in rest && rest[k] in os[1..];
      }
    }
  }

  /**
   Running again on the modules left, rather than on those the node was built with, drops the stopped
   entries: the list stays the same exactly if no entry with a module was stopped.
   */
  lemma AgainOnTheModulesLeft(lower: LowerCase, mods: seq<string>, os: seq<Entry>)
    requires DistinctMods(mods) && DistinctNames(os)
    ensures var r := Reconcile(lower, mods, os);
            && Reconcile(lower, r.mods, r.os).os == KeepEntries(r.os, r.mods)
            && (Reconcile(lower, r.mods, r.os).os == r.os <==> forall k :: 0 <= k < |mods| ==> !Stopped(os, mods[k]))
  {
    var r := Reconcile(lower, mods, os);
    var kept := KeepEntries(r.os, r.mods);
    Reconciled(lower, mods, os);
    KeepModsDistinct(mods, os);
    SweepAll(r.mods, r.os);
    var left := KeepMods(r.mods, r.os);
    forall k | 0 <= k < |left| ensures IsInstalled(kept, left[k]) {
      StillInstalled(lower, mods, os, left[k]);
    }
    NothingToInstall(kept, left);
    KeepSorted(lower, r.os, r.mods);
    SortedStays(lower, kept);
    UnchangedIff(lower, mods, os);
  }

  lemma StillInstalled(lower: LowerCase, mods: seq<string>, os: seq<Entry>, m: string)
    requires DistinctMods(mods) && DistinctNames(os)
    requires var r := Reconcile(lower, mods, os); m in KeepMods(r.mods, r.os)
    ensures var r := Reconcile(lower, mods, os); IsInstalled(KeepEntries(r.os, r.mods), m)
  {
    var r := Reconcile(lower, mods, os);
    KeepModsMember(r.mods, r.os, m);
    LeftAreInstalled(lower, mods, os);
    Reconciled(lower, mods, os);
    KeptLookup(r.os, r.mods, m);
    InstalledByLookup(r.os, m);
    InstalledByLookup(KeepEntries(r.os, r.mods), m);
  }

  lemma UnchangedIff(lower: LowerCase, mods: seq<string>, os: seq<Entry>)
    requires DistinctMods(mods) && DistinctNames(os)
    ensures var r := Reconcile(lower, mods, os);
            KeepEntries(r.os, r.mods) == r.os <==> forall k :: 0 <= k < |mods| ==> !Stopped(os, mods[k])
  {
    var r := Reconcile(lower, mods, os);
    Reconciled(lower, mods, os);
    StoppedStays(lower, mods, os);
    if k :| 0 <= k < |mods| && Stopped(os, mods[k]) {
      KeepModsMember(mods, os, mods[k]);
      InstalledByLookup(r.os, mods[k]);
      var e := Lookup(r.os, mods[k]).value;
      KeepEntriesMember(r.os, r.mods, e);
      assert e in r.os;
    } else {
      forall j | 0 <= j < |r.os| ensures r.os[j].name in r.mods {
        KeepModsMember(mods, os, r.os[j].name);
        var k :| 0 <= k < |mods| && mods[k] == r.os[j].name;
      }
      KeepEntriesAll(r.os, r.mods);
    }
  }

  // ----- the order of the list -----

  /** The strings agree up to somewhere, and there a has ended or has the smaller character. */
  predicate Precedes(a: string, b: string) {
    exists k :: 0 <= k <= |a| && k < |b| && a[..k] == b[..k] && (k == |a| || a[k] < b[k])
  }

  lemma {:induction false} LtExactly(a: string, b: string)
    ensures Lt(a, b) <==> Precedes(a, b)
    ensures !Lt(a, b) && !Lt(b, a) ==> a == b
  {
    if a == [] || b == [] || a[0] != b[0] {
      DiffersAtOnce(a, b);
    } else {
      LtExactly(a[1..], b[1..]);
      PrecedesLater(a, b);
      assert a == [a[0]] + a[1..] && b == [b[0]] + b[1..];
    }
  }

  lemma DiffersAtOnce(a: string, b: string)
    requires a == [] || b == [] || a[0] != b[0]
    ensures Precedes(a, b) <==> b != [] && (a == [] || a[0] < b[0])
  {
    if b != [] && (a == [] || a[0] < b[0]) {
      assert a[..0] == b[..0];
    }
    if k :| 0 <= k <= |a| && k < |b| && a[..k] == b[..k] && (k == |a| || a[k] < b[k]) && k > 0 {
      assert a[..k][0] == b[..k][0];
    }
  }

  lemma PrecedesLater(a: string, b: string)
    requires a != [] && b != [] && a[0] == b[0]
    ensures Precedes(a, b) <==> Precedes(a[1..], b[1..])
  {
    var a', b' := a[1..], b[1..];
    if k :| 0 <= k <= |a'| && k < |b'| && a'[..k] == b'[..k] && (k == |a'| || a'[k] < b'[k]) {
      assert a[..k + 1] == [a[0]] + a'[..k] && b[..k + 1] == [b[0]] + b'[..k];
    }
    if k :| 0 <= k <= |a| && k < |b| && a[..k] == b[..k] && (k == |a| || a[k] < b[k]) {
      assert a'[..k - 1] == a[..k][1..] && b'[..k - 1] == b[..k][1..];
    }
  }

  /** In the list that a run leaves, active entries come first, and within both parts lower-case names ascend. */
  lemma ActiveFirstThenNames(lower: LowerCase, mods: seq<string>, os: seq<Entry>, i: nat, j: nat)
    requires i < j < |Reconcile(lower, mods, os).os|
    ensures var a, b := Reconcile(lower, mods, os).os[i], Reconcile(lower, mods, os).os[j];
            && (b.active.On? ==> a.active.On?)
            && (a.active.On? == b.active.On? ==>
                  lower(a.name) == lower(b.name) || Precedes(lower(a.name), lower(b.name)))
  {
    var swept := Sweep(mods, os, |os|, false);
    SortSorts(lower, InstallAll(swept.os, swept.mods));
    var a, b := Reconcile(lower, mods, os).os[i], Reconcile(lower, mods, os).os[j];
    assert !Less(lower, b, a);
    LtExactly(lower(a.name), lower(b.name));
  }
}

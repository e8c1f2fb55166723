/**
 When a second reconciliation from the same modules changes nothing: names may repeat in the options
 list, and the answer is exact.
 */
module ModManagerRepeats {
  import opened ModManager
  import opened ModManagerProofs

  /**
   An active entry of some module stands after the last stopped entry of that module. The sweep keeps
   both, and the sort moves the active one to the front, where the next sweep drops it.
   */
  predicate LateOn(os: seq<Entry>, mods: seq<string>) {
    exists i, k :: 0 <= i < k < |os| && os[k].name in mods && os[i].name == os[k].name
                   && os[i].active.Zero? && os[k].active.On? && !Stopped(os[k + 1..], os[k].name)
  }

  // ----- live entries -----

  predicate LiveAt(os: seq<Entry>, mods: seq<string>, k: nat)
    requires k < |os|
  {
    os[k].name in mods && !Stopped(os[k + 1..], os[k].name)
  }

  lemma LiveAtCons(os: seq<Entry>, mods: seq<string>, k: nat)
    requires 0 < k < |os|
    ensures LiveAt(os, mods, k) == LiveAt(os[1..], mods, k - 1)
  {
    assert os[1..][k..] == os[k + 1..];
  }

  predicate AllLive(os: seq<Entry>, mods: seq<string>) {
    forall k :: 0 <= k < |os| ==> LiveAt(os, mods, k)
  }

  lemma {:induction false} KeepLiveMember(os: seq<Entry>, mods: seq<string>, e: Entry)
    ensures e in KeepLive(os, mods) <==> exists k :: 0 <= k < |os| && os[k] == e && LiveAt(os, mods, k)
  {
    if os != [] {
      var rest := os[1..];
      KeepLiveMember(rest, mods, e);
      if k :| 0 <= k < |rest| && rest[k] == e && LiveAt(rest, mods, k) {
        LiveAtCons(os, mods, k + 1);
        assert os[k + 1] == e;
      }
      if k :| 0 <= k < |os| && os[k] == e && LiveAt(os, mods, k) {
        if k > 0 {
          LiveAtCons(os, mods, k);
          assert rest[k - 1] == e;
        }
      }
    }
  }

  lemma {:induction false} KeepLiveAll(os: seq<Entry>, mods: seq<string>)
    ensures |KeepLive(os, mods)| <= |os|
    ensures AllLive(os, mods) <==> |KeepLive(os, mods)| == |os|
    ensures AllLive(os, mods) ==> KeepLive(os, mods) == os
  {
    if os != [] {
      var rest := os[1..];
      KeepLiveAll(rest, mods);
      forall k | 0 < k < |os| ensures LiveAt(os, mods, k) == LiveAt(rest, mods, k - 1) {
        LiveAtCons(os, mods, k);
      }
      AllLiveCons(os, mods);
    }
  }

  lemma AllLiveCons(os: seq<Entry>, mods: seq<string>)
    requires os != []
    ensures AllLive(os, mods) <==> LiveAt(os, mods, 0) && AllLive(os[1..], mods)
  {
    if AllLive(os, mods) {
      forall k | 0 <= k < |os[1..]| ensures LiveAt(os[1..], mods, k) {
        LiveAtCons(os, mods, k + 1);
      }
    }
    if LiveAt(os, mods, 0) && AllLive(os[1..], mods) {
      forall k | 0 <= k < |os| ensures LiveAt(os, mods, k) {
        if k > 0 {
          LiveAtCons(os, mods, k);
        }
      }
    }
  }

  /** The sweep keeps the last stopped entry of a module. */
  lemma {:induction false} StoppedKept(os: seq<Entry>, mods: seq<string>, m: string)
    requires m in mods
    ensures Stopped(KeepLive(os, mods), m) == Stopped(os, m)
  {
    if os != [] {
      var e, rest, live := os[0], os[1..], KeepLive(os[1..], mods);
      StoppedKept(rest, mods, m);
      assert os == [e] + rest;
      StoppedCons(e, rest, m);
      StoppedCons(e, live, m);
      assert [] + live == live;
    }
  }

  // ----- the entries of one module that are not active -----

  function Inactive(os: seq<Entry>, m: string): seq<Entry> {
    if os == [] then []
    else (if os[0].name == m && !os[0].active.On? then [os[0]] else []) + Inactive(os[1..], m)
  }

  lemma {:induction false} InactiveJoin(a: seq<Entry>, b: seq<Entry>, m: string)
    ensures Inactive(a + b, m) == Inactive(a, m) + Inactive(b, m)
  {
    if a == [] {
      assert a + b == b;
    } else {
      assert (a + b)[1..] == a[1..] + b;
      InactiveJoin(a[1..], b, m);
    }
  }

  /** Only the first of a module's inactive live entries is a stop. */
  predicate StopFirstOnly(os: seq<Entry>) {
    forall k :: 0 < k < |os| ==> !os[k].active.Zero?
  }

  lemma {:induction false} InactiveNoStop(os: seq<Entry>, mods: seq<string>, m: string)
    requires !Stopped(os, m)
    ensures forall k :: 0 <= k < |Inactive(KeepLive(os, mods), m)| ==> !Inactive(KeepLive(os, mods), m)[k].active.Zero?
  {
    if os != [] {
      assert os == [os[0]] + os[1..];
      StoppedCons(os[0], os[1..], m);
      InactiveNoStop(os[1..], mods, m);
      InactiveLiveCons(os, mods, m);
    }
  }

  lemma InactiveLiveCons(os: seq<Entry>, mods: seq<string>, m: string)
    requires os != []
    ensures var rest := Inactive(KeepLive(os[1..], mods), m);
            Inactive(KeepLive(os, mods), m)
            == if LiveAt(os, mods, 0) && os[0].name == m && !os[0].active.On? then [os[0]] + rest else rest
  {
    var live := KeepLive(os[1..], mods);
    if LiveAt(os, mods, 0) {
      assert ([os[0]] + live)[1..] == live;
    } else {
      assert [] + live == live;
    }
  }

  lemma {:induction false} LiveStopFirst(os: seq<Entry>, mods: seq<string>, m: string)
    ensures StopFirstOnly(Inactive(KeepLive(os, mods), m))
  {
    if os != [] {
      LiveStopFirst(os[1..], mods, m);
      InactiveLiveCons(os, mods, m);
      if LiveAt(os, mods, 0) && os[0].name == m {
        InactiveNoStop(os[1..], mods, m);
      }
    }
  }

  /** Installing other modules leaves a module's entries alone. */
  lemma InactiveInstallOne(os: seq<Entry>, n: string, m: string)
    requires n != m
    ensures Inactive(InstallOne(os, n), m) == Inactive(os, m)
    ensures forall e: Entry :: e.name == m ==> (e in InstallOne(os, n) <==> e in os)
  {
    var k := Last(os, n);
    if !IsInstalled(os, n) && k == -1 {
      InactiveJoin(os, [Entry(n, On, true, "")], m);
    } else if !IsInstalled(os, n) {
      var e := os[k].(installed := true, active := On);
      assert os == os[..k] + [os[k]] + os[k + 1..] && InstallOne(os, n) == os[..k] + [e] + os[k + 1..];
      InactiveJoin(os[..k] + [os[k]], os[k + 1..], m);
      InactiveJoin(os[..k] + [e], os[k + 1..], m);
      InactiveJoin(os[..k], [os[k]], m);
      InactiveJoin(os[..k], [e], m);
    }
  }

  lemma {:induction false} InactiveInstall(os: seq<Entry>, mods: seq<string>, m: string)
    requires m !in mods
    ensures Inactive(InstallAll(os, mods), m) == Inactive(os, m)
    ensures forall e: Entry :: e.name == m ==> (e in InstallAll(os, mods) <==> e in os)
  {
    if mods != [] {
      var n := |mods| - 1;
      InFrontOrLast(mods, m);
      InactiveInstall(os, mods[..n], m);
      InactiveInstallOne(InstallAll(os, mods[..n]), mods[n], m);
    }
  }

  lemma {:induction false} InactiveInsert(lower: LowerCase, e: Entry, os: seq<Entry>, m: string)
    ensures Inactive(Insert(lower, e, os), m) == Inactive([e] + os, m)
  {
    if os != [] && Less(lower, os[0], e) {
      var rest := Insert(lower, e, os[1..]);
      InactiveInsert(lower, e, os[1..], m);
      assert ([os[0]] + rest)[1..] == rest;
      assert ([e] + os[1..])[1..] == os[1..] && ([e] + os)[1..] == os;
      if os[0].name == m == e.name && !os[0].active.On? && !e.active.On? {
        LtIrreflexive(lower(m));
      }
    }
  }

  lemma LtIrreflexive(a: string)
    ensures !Lt(a, a)
  {
    if Lt(a, a) {
      LtAsymmetric(a, a);
    }
  }

  /** Sorting keeps the order of a module's inactive entries. */
  lemma {:induction false} InactiveSort(lower: LowerCase, os: seq<Entry>, m: string)
    ensures Inactive(Sort(lower, os), m) == Inactive(os, m)
  {
    if os != [] {
      InactiveSort(lower, os[1..], m);
      InactiveInsert(lower, os[0], Sort(lower, os[1..]), m);
      assert ([os[0]] + Sort(lower, os[1..]))[1..] == Sort(lower, os[1..]);
    }
  }

  /** Two inactive entries of a module stand in the filtered list as they stand in the whole. */
  lemma InactivePair(os: seq<Entry>, m: string, i: nat, j: nat)
    requires i < j < |os| && os[i].name == m == os[j].name && !os[i].active.On? && os[j].active.Zero?
    ensures !StopFirstOnly(Inactive(os, m))
  {
    var a, b, c := os[..i], os[i..j], os[j..];
    assert os == a + b + c;
    InactiveJoin(a + b, c, m);
    InactiveJoin(a, b, m);
    assert b[0] == os[i] && c[0] == os[j];
    var front := Inactive(a, m) + Inactive(b, m);
    assert |Inactive(b, m)| > 0 && Inactive(c, m)[0] == os[j];
    assert Inactive(os, m)[|front|] == os[j];
  }

  // ----- the list a run leaves -----

  lemma {:induction false} InstallKeepsUnstopped(os: seq<Entry>, mods: seq<string>, m: string)
    requires !Stopped(os, m)
    ensures !Stopped(InstallAll(os, mods), m)
  {
    if mods != [] {
      var n := |mods| - 1;
      InstallKeepsUnstopped(os, mods[..n], m);
      var before := InstallAll(os, mods[..n]);
      var after := InstallOne(before, mods[n]);
      forall k | 0 <= k < |after| ensures !(after[k].name == m && after[k].active.Zero?) {
        assert k < |before| ==> after[k] == before[k] || after[k].active.On?;
      }
    }
  }

  lemma SameMembersStopped(os: seq<Entry>, os': seq<Entry>, m: string)
    requires forall e: Entry :: e.name == m ==> (e in os <==> e in os')
    ensures Stopped(os, m) == Stopped(os', m)
  {
    if k :| 0 <= k < |os| && os[k].name == m && os[k].active.Zero? {
      assert os[k] in os';
    }
    if k :| 0 <= k < |os'| && os'[k].name == m && os'[k].active.Zero? {
      assert os'[k] in os;
    }
  }

  lemma SortMembers(lower: LowerCase, os: seq<Entry>)
    ensures forall e: Entry :: e in Sort(lower, os) <==> e in os
  {
    SortSorts(lower, os);
    forall e: Entry ensures e in Sort(lower, os) <==> e in os {
      assert e in multiset(os) <==> e in os;
      assert e in multiset(Sort(lower, os)) <==> e in Sort(lower, os);
    }
  }

  /** A module is stopped in the list left exactly if it was before. */
  lemma StoppedAfter(lower: LowerCase, mods: seq<string>, os: seq<Entry>, m: string)
    requires DistinctMods(mods) && m in mods
    ensures Stopped(Reconcile(lower, mods, os).os, m) == Stopped(os, m)
  {
    var kept, left := KeepLive(os, mods), KeepMods(mods, os);
    SweepExactly(mods, os);
    StoppedKept(os, mods, m);
    KeepModsMember(mods, os, m);
    var installed := InstallAll(kept, left);
    SortMembers(lower, installed);
    SameMembersStopped(installed, Sort(lower, installed), m);
    if Stopped(os, m) {
      InactiveInstall(kept, left, m);
      SameMembersStopped(kept, installed, m);
    } else {
      InstallKeepsUnstopped(kept, left, m);
    }
  }

  /** The entries of a stopped module are the live ones of the list before. */
  lemma EntriesOfStopped(lower: LowerCase, mods: seq<string>, os: seq<Entry>, m: string)
    requires DistinctMods(mods) && m in mods && Stopped(os, m)
    ensures var r := Reconcile(lower, mods, os);
            && (forall e: Entry :: e.name == m ==> (e in r.os <==> e in KeepLive(os, mods)))
            && StopFirstOnly(Inactive(r.os, m))
  {
    var kept, left := KeepLive(os, mods), KeepMods(mods, os);
    SweepExactly(mods, os);
    KeepModsMember(mods, os, m);
    InactiveInstall(kept, left, m);
    SortMembers(lower, InstallAll(kept, left));
    InactiveSort(lower, InstallAll(kept, left), m);
    LiveStopFirst(os, mods, m);
  }

  lemma {:induction false} InstalledNames(os: seq<Entry>, left: seq<string>, mods: seq<string>)
    requires (forall e :: e in os ==> e.name in mods) && (forall m :: m in left ==> m in mods)
    ensures forall e :: e in InstallAll(os, left) ==> e.name in mods
  {
    if left != [] {
      var n := |left| - 1;
      assert forall m :: m in left[..n] ==> m in left;
      InstalledNames(os, left[..n], mods);
      assert left[n] in left;
    }
  }

  lemma NamesHaveModules(lower: LowerCase, mods: seq<string>, os: seq<Entry>)
    requires DistinctMods(mods)
    ensures forall e :: e in Reconcile(lower, mods, os).os ==> e.name in mods
  {
    var kept, left := KeepLive(os, mods), KeepMods(mods, os);
    SweepExactly(mods, os);
    forall e | e in kept ensures e.name in mods {
      KeepLiveMember(os, mods, e);
    }
    forall m | m in left ensures m in mods {
      KeepModsMember(mods, os, m);
    }
    InstalledNames(kept, left, mods);
    SortMembers(lower, InstallAll(kept, left));
  }

  lemma OnKeptIsLate(mods: seq<string>, os: seq<Entry>, e: Entry)
    requires e in KeepLive(os, mods) && e.active.On? && Stopped(os, e.name)
    ensures LateOn(os, mods)
  {
    KeepLiveMember(os, mods, e);
    var k :| 0 <= k < |os| && os[k] == e && LiveAt(os, mods, k);
    var i :| 0 <= i < |os| && os[i].name == e.name && os[i].active.Zero?;
    NoneBehind(os, k, e.name);
    assert i < k;
  }

  lemma NoneBehind(os: seq<Entry>, k: nat, name: string)
    requires k < |os| && !Stopped(os[k + 1..], name)
    ensures forall i :: k < i < |os| ==> !(os[i].name == name && os[i].active.Zero?)
  {
    forall i | k < i < |os| ensures !(os[i].name == name && os[i].active.Zero?) {
      assert os[k + 1..][i - k - 1] == os[i];
    }
  }

  /** Without a late active entry every entry left is live, so the next sweep keeps them all. */
  lemma LiveIfNotLate(lower: LowerCase, mods: seq<string>, os: seq<Entry>)
    requires DistinctMods(mods) && !LateOn(os, mods)
    ensures AllLive(Reconcile(lower, mods, os).os, mods)
  {
    var after := Reconcile(lower, mods, os).os;
    NamesHaveModules(lower, mods, os);
    forall k | 0 <= k < |after| ensures LiveAt(after, mods, k) {
      var m := after[k].name;
      assert after[k] in after;
      if Stopped(after[k + 1..], m) {
        var d :| 0 <= d < |after[k + 1..]| && after[k + 1..][d].name == m && after[k + 1..][d].active.Zero?;
        StoppedByLater(lower, mods, os, k, k + 1 + d);
      }
    }
  }

  lemma StoppedByLater(lower: LowerCase, mods: seq<string>, os: seq<Entry>, k: nat, j: nat)
    requires DistinctMods(mods)
    requires var after := Reconcile(lower, mods, os).os;
             && k < j < |after| && after[k].name in mods && after[k].name == after[j].name && after[j].active.Zero?
    ensures LateOn(os, mods)
  {
    var after := Reconcile(lower, mods, os).os;
    var m := after[k].name;
    assert Stopped(after, m);
    StoppedAfter(lower, mods, os, m);
    EntriesOfStopped(lower, mods, os, m);
    if !after[k].active.On? {
      InactivePair(after, m, k, j);
    }
    assert after[k] in after;
    OnKeptIsLate(mods, os, after[k]);
  }

  lemma LateIsKept(lower: LowerCase, mods: seq<string>, os: seq<Entry>) returns (e: Entry)
    requires DistinctMods(mods) && LateOn(os, mods)
    ensures e.active.On? && e.name in mods && Stopped(os, e.name) && e in KeepLive(os, mods)
  {
    var i, k :| 0 <= i < k < |os| && os[k].name in mods && os[i].name == os[k].name
                && os[i].active.Zero? && os[k].active.On? && !Stopped(os[k + 1..], os[k].name);
    e := os[k];
    assert LiveAt(os, mods, k);
    KeepLiveMember(os, mods, e);
  }

  /** In a sorted list an active entry stands before a stop of the same name. */
  lemma OnBeforeStop(lower: LowerCase, os: seq<Entry>, mods: seq<string>, p: nat, q: nat)
    requires Sorted(lower, os) && p < |os| && q < |os|
    requires os[p].active.On? && os[q].active.Zero? && os[p].name == os[q].name
    ensures !LiveAt(os, mods, p)
  {
    assert Less(lower, os[p], os[q]);
    assert p < q;
    assert os[p + 1..][q - p - 1] == os[q];
  }

  lemma AfterSorted(lower: LowerCase, mods: seq<string>, os: seq<Entry>)
    ensures Sorted(lower, Reconcile(lower, mods, os).os)
  {
    var swept := Sweep(mods, os, |os|, false);
    SortSorts(lower, InstallAll(swept.os, swept.mods));
  }

  /** A late active entry is moved in front of the stop, and is live no more. */
  lemma DeadIfLate(lower: LowerCase, mods: seq<string>, os: seq<Entry>)
    requires DistinctMods(mods) && LateOn(os, mods)
    ensures !AllLive(Reconcile(lower, mods, os).os, mods)
  {
    var after := Reconcile(lower, mods, os).os;
    var e := LateIsKept(lower, mods, os);
    EntriesOfStopped(lower, mods, os, e.name);
    StoppedAfter(lower, mods, os, e.name);
    AfterSorted(lower, mods, os);
    var p :| 0 <= p < |after| && after[p] == e;
    var q :| 0 <= q < |after| && after[q].name == e.name && after[q].active.Zero?;
    OnBeforeStop(lower, after, mods, p, q);
  }

  /**
   Starting again from the same modules changes, installs and saves nothing exactly if no active entry
   of a module comes after the last stopped entry of that module.
   */
  lemma IdempotentExactly(lower: LowerCase, mods: seq<string>, os: seq<Entry>)
    requires DistinctMods(mods)
    ensures var r := Reconcile(lower, mods, os);
            Reconcile(lower, mods, r.os) == Result(r.mods, r.os, [], false) <==> !LateOn(os, mods)
  {
    var r := Reconcile(lower, mods, os);
    SweepExactly(mods, r.os);
    KeepLiveAll(r.os, mods);
    if LateOn(os, mods) {
      DeadIfLate(lower, mods, os);
    } else {
      LiveIfNotLate(lower, mods, os);
      SweepExactly(mods, os);
      forall k | 0 <= k < |mods| ensures Stopped(r.os, mods[k]) == Stopped(os, mods[k]) {
        StoppedAfter(lower, mods, os, mods[k]);
      }
      KeepModsSame(mods, r.os, os);
      LeftAreInstalled(lower, mods, os);
      NothingToInstall(r.os, r.mods);
      AfterSorted(lower, mods, os);
      SortedStays(lower, r.os);
    }
  }

  /** So with distinct names in the options a second run never changes anything. */
  lemma Idempotent(lower: LowerCase, mods: seq<string>, os: seq<Entry>)
    requires DistinctMods(mods) && DistinctNames(os)
    ensures var r := Reconcile(lower, mods, os);
            Reconcile(lower, mods, r.os) == Result(r.mods, r.os, [], false)
  {
    IdempotentExactly(lower, mods, os);
  }

  /** With one name twice a second run can drop an entry the first run kept. */
  lemma DuplicateNamesBreakIt(lower: LowerCase)
    ensures var os := [Entry("A", Zero, true, ""), Entry("A", On, true, "")];
            var r := Reconcile(lower, ["A"], os);
            Reconcile(lower, ["A"], r.os) != Result(r.mods, r.os, [], false)
  {
    var os := [Entry("A", Zero, true, ""), Entry("A", On, true, "")];
    assert os[0].name == os[1].name && os[2..] == [] && "A" in ["A"];
    assert LateOn(os, ["A"]);
    IdempotentExactly(lower, ["A"], os);
  }
}

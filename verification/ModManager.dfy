/**
 Reconciling the modules a node is built with and the list of modules in its saved options.

 A module is its name. The lower-casing of names is a function parameter; names compare
 lexicographically. Installing a module is the fact that it happened. The version and publisher of an
 entry are kept in one field.
 */
module ModManager {
  import opened Options

  /** An entry is stopped only by a zero; a missing flag does not stop it, but sorts like a zero. */
  datatype Active = Missing | Zero | On

  datatype Entry = Entry(name: string, active: Active, installed: bool, details: string)

  type LowerCase = string -> string

  // ----- the order of the options list -----

  predicate Lt(a: string, b: string) {
    if b == [] then false
    else if a == [] then true
    else if a[0] != b[0] then a[0] < b[0]
    else Lt(a[1..], b[1..])
  }

  /** Active entries come first, then lower-case names decide. */
  predicate Less(lower: LowerCase, a: Entry, b: Entry) {
    if a.active.On? && !b.active.On? then true
    else if b.active.On? && !a.active.On? then false
    else Lt(lower(a.name), lower(b.name))
  }

  lemma {:induction false} LtAsymmetric(a: string, b: string)
    requires Lt(a, b)
    ensures !Lt(b, a)
  {
    if a != [] && a[0] == b[0] {
      LtAsymmetric(a[1..], b[1..]);
    }
  }

  lemma {:induction false} LtNegative(a: string, b: string, c: string)
    requires !Lt(b, a) && !Lt(c, b)
    ensures !Lt(c, a)
  {
    if a != [] && b != [] && c != [] && a[0] == b[0] == c[0] {
      LtNegative(a[1..], b[1..], c[1..]);
    }
  }

  lemma LessAsymmetric(lower: LowerCase, a: Entry, b: Entry)
    requires Less(lower, a, b)
    ensures !Less(lower, b, a)
  {
    if a.active.On? == b.active.On? {
      LtAsymmetric(lower(a.name), lower(b.name));
    }
  }

  lemma LessNegative(lower: LowerCase, a: Entry, b: Entry, c: Entry)
    requires !Less(lower, b, a) && !Less(lower, c, b)
    ensures !Less(lower, c, a)
  {
    if a.active.On? == b.active.On? == c.active.On? {
      LtNegative(lower(a.name), lower(b.name), lower(c.name));
    }
  }

  predicate Sorted(lower: LowerCase, os: seq<Entry>) {
    forall i, j :: 0 <= i < j < |os| ==> !Less(lower, os[j], os[i])
  }

  /** The stable sort. */
  function Sort(lower: LowerCase, os: seq<Entry>): seq<Entry> {
    if os == [] then [] else Insert(lower, os[0], Sort(lower, os[1..]))
  }

  function Insert(lower: LowerCase, e: Entry, os: seq<Entry>): seq<Entry> {
    if os == [] then [e]
    else if Less(lower, os[0], e) then [os[0]] + Insert(lower, e, os[1..])
    else [e] + os
  }

  lemma {:induction false} InsertMembers(lower: LowerCase, e: Entry, os: seq<Entry>)
    ensures multiset(Insert(lower, e, os)) == multiset(os) + multiset{e}
  {
    if os != [] && Less(lower, os[0], e) {
      assert os == [os[0]] + os[1..];
      InsertMembers(lower, e, os[1..]);
    }
  }

  lemma {:induction false} InsertSorted(lower: LowerCase, e: Entry, os: seq<Entry>)
    requires Sorted(lower, os)
    ensures Sorted(lower, Insert(lower, e, os))
  {
    if os != [] && Less(lower, os[0], e) {
      InsertSorted(lower, e, os[1..]);
      InsertMembers(lower, e, os[1..]);
      LessAsymmetric(lower, os[0], e);
      HeadSorted(lower, os[0], Insert(lower, e, os[1..]), os[1..], e);
    } else {
      forall j | 0 <= j < |os| ensures !Less(lower, os[j], e) {
        if j > 0 {
          LessNegative(lower, e, os[0], os[j]);
        }
      }
    }
  }

  lemma HeadSorted(lower: LowerCase, head: Entry, rest: seq<Entry>, os: seq<Entry>, e: Entry)
    requires Sorted(lower, rest) && multiset(rest) == multiset(os) + multiset{e}
    requires !Less(lower, e, head) && forall k :: 0 <= k < |os| ==> !Less(lower, os[k], head)
    ensures Sorted(lower, [head] + rest)
  {
    forall k | 0 <= k < |rest| ensures !Less(lower, rest[k], head) {
      assert rest[k] in multiset(rest);
      assert rest[k] == e || rest[k] in os;
    }
  }

  lemma {:induction false} SortSorts(lower: LowerCase, os: seq<Entry>)
    ensures Sorted(lower, Sort(lower, os)) && multiset(Sort(lower, os)) == multiset(os)
  {
    if os != [] {
      SortSorts(lower, os[1..]);
      InsertSorted(lower, os[0], Sort(lower, os[1..]));
      InsertMembers(lower, os[0], Sort(lower, os[1..]));
      assert os == [os[0]] + os[1..];
    }
  }

  lemma {:induction false} SortedStays(lower: LowerCase, os: seq<Entry>)
    requires Sorted(lower, os)
    ensures Sort(lower, os) == os
  {
    if os != [] {
      SortedStays(lower, os[1..]);
      assert os == [os[0]] + os[1..];
    }
  }

  /** The entries that compare equal to a given one. */
  function Ties(lower: LowerCase, os: seq<Entry>, x: Entry): seq<Entry> {
    if os == [] then []
    else (if Less(lower, os[0], x) || Less(lower, x, os[0]) then [] else [os[0]]) + Ties(lower, os[1..], x)
  }

  lemma {:induction false} InsertStable(lower: LowerCase, e: Entry, os: seq<Entry>, x: Entry)
    ensures Ties(lower, Insert(lower, e, os), x) == Ties(lower, [e] + os, x)
  {
    if os != [] && Less(lower, os[0], e) {
      var rest := Insert(lower, e, os[1..]);
      InsertStable(lower, e, os[1..], x);
      assert ([os[0]] + rest)[1..] == rest;
      assert ([e] + os[1..])[1..] == os[1..] && ([e] + os)[1..] == os;
      if !Less(lower, os[0], x) && !Less(lower, e, x) && !Less(lower, x, os[0]) && !Less(lower, x, e) {
        LessNegative(lower, e, x, os[0]);
      }
    }
  }

  /** Entries that compare equal keep their order. */
  lemma {:induction false} SortStable(lower: LowerCase, os: seq<Entry>, x: Entry)
    ensures Ties(lower, Sort(lower, os), x) == Ties(lower, os, x)
  {
    if os != [] {
      SortStable(lower, os[1..], x);
      InsertStable(lower, os[0], Sort(lower, os[1..]), x);
      assert ([os[0]] + Sort(lower, os[1..]))[1..] == Sort(lower, os[1..]);
    }
  }

  // ----- the sweep over the options, last entry first -----

  /** Where the first module with a name is, or the number of modules. */
  function First(mods: seq<string>, name: string): (z: nat)
    ensures z <= |mods| && (z < |mods| ==> mods[z] == name) && (z < |mods| <==> name in mods)
    ensures name !in mods[..z]
  {
    if mods == [] || mods[0] == name then 0
    else
      assert mods == [mods[0]] + mods[1..];
      1 + First(mods[1..], name)
  }

  function Without<T>(s: seq<T>, z: nat): seq<T>
    requires z < |s|
  {
    s[..z] + s[z + 1..]
  }

  datatype Swept = Swept(mods: seq<string>, os: seq<Entry>, removed: bool)

  /** A stopped entry takes its module out, an entry without a module is dropped. */
  function SweepOne(mods: seq<string>, os: seq<Entry>, i: nat): (s: Swept)
    requires i < |os|
    ensures |s.os| >= i
  {
    var e, z := os[i], First(mods, os[i].name);
    if z == |mods| then Swept(mods, Without(os, i), true)
    else Swept(if e.active.Zero? then Without(mods, z) else mods, os, false)
  }

  /** Entries i - 1 down to 0. */
  function Sweep(mods: seq<string>, os: seq<Entry>, i: nat, removed: bool): Swept
    requires i <= |os|
    decreases i
  {
    if i == 0 then Swept(mods, os, removed)
    else
      var one := SweepOne(mods, os, i - 1);
      Sweep(one.mods, one.os, i - 1, removed || one.removed)
  }

  // ----- installing -----

  predicate IsInstalled(os: seq<Entry>, name: string) {
    exists k :: 0 <= k < |os| && os[k].name == name && os[k].installed
  }

  /** Where the last entry with a name is, or -1. */
  function Last(os: seq<Entry>, name: string): (k: int)
    ensures -1 <= k < |os| && (k >= 0 ==> os[k].name == name)
    ensures forall j :: k < j < |os| ==> os[j].name != name
  {
    if os == [] then -1
    else if os[|os| - 1].name == name then |os| - 1
    else Last(os[..|os| - 1], name)
  }

  function InstallOne(os: seq<Entry>, name: string): seq<Entry> {
    var k := Last(os, name);
    if IsInstalled(os, name) then os
    else if k == -1 then os + [Entry(name, On, true, "")]
    else os[k := os[k].(installed := true, active := On)]
  }

  function InstallAll(os: seq<Entry>, mods: seq<string>): seq<Entry> {
    if mods == [] then os else InstallOne(InstallAll(os, mods[..|mods| - 1]), mods[|mods| - 1])
  }

  /** The modules newly installed. */
  function Newly(os: seq<Entry>, mods: seq<string>): seq<string> {
    if mods == [] then []
    else
      var before := InstallAll(os, mods[..|mods| - 1]);
      Newly(os, mods[..|mods| - 1]) + if IsInstalled(before, mods[|mods| - 1]) then [] else [mods[|mods| - 1]]
  }

  // ----- the whole -----

  datatype Result = Result(mods: seq<string>, os: seq<Entry>, installed: seq<string>, saved: bool)

  function Reconcile(lower: LowerCase, mods: seq<string>, os: seq<Entry>): Result {
    var swept := Sweep(mods, os, |os|, false);
    var newly := Newly(swept.os, swept.mods);
    Result(swept.mods, Sort(lower, InstallAll(swept.os, swept.mods)), newly, newly != [] || swept.removed)
  }

  class Manager {
    const lower: LowerCase
    var mods: seq<string>
    var modules: Option<seq<Entry>>     // the list in the options, which may be absent
    var installCalls: seq<string>
    var saves: nat

    constructor (lower: LowerCase, mods: seq<string>, modules: Option<seq<Entry>>)
      ensures this.lower == lower && this.mods == mods && this.modules == modules && installCalls == [] && saves == 0
    {
      this.lower, this.mods, this.modules, installCalls, saves := lower, mods, modules, [], 0;
    }

    method FindModule(name: string) returns (found: bool, z: nat)
      ensures z == First(mods, name) && found == (z < |mods|)
    {
      found, z := false, 0;
      while z < |mods|
        invariant z <= |mods| && First(mods, name) == z + First(mods[z..], name)
      {
        if mods[z] == name {
          return true, z;
        }
        assert mods[z..][1..] == mods[z + 1..];
        z := z + 1;
      }
    }

    method SweepEntry(i: nat, removed: bool) returns (moduleRemoved: bool)
      requires modules.Some? && i < |modules.value|
      modifies this`mods, this`modules
      ensures var one := SweepOne(old(mods), old(modules.value), i);
              mods == one.mods && modules == Some(one.os) && moduleRemoved == (removed || one.removed)
    {
      moduleRemoved := removed;
      var found, z := FindModule(modules.value[i].name);
      if found && modules.value[i].active.Zero? {
        mods := mods[..z] + mods[z + 1..];
      }
      if !found {
        moduleRemoved := true;
        modules := Some(modules.value[..i] + modules.value[i + 1..]);
      }
    }

    method SweepOptions() returns (moduleRemoved: bool)
      requires modules.Some?
      modifies this`mods, this`modules
      ensures modules.Some?
      ensures Swept(mods, modules.value, moduleRemoved)
              == Sweep(old(mods), old(modules.value), |old(modules.value)|, false)
    {
      moduleRemoved := false;
      var i: nat := |modules.value|;
      while i > 0
        invariant modules.Some? && i <= |modules.value|
        invariant Sweep(mods, modules.value, i, moduleRemoved)
                  == Sweep(old(mods), old(modules.value), |old(modules.value)|, false)
        decreases i
      {
        i := i - 1;
        moduleRemoved := SweepEntry(i, moduleRemoved);
      }
    }

    method InspectOptions(name: string) returns (installThisModule: bool, miIndex: int)
      requires modules.Some?
      ensures installThisModule == !IsInstalled(modules.value, name) && miIndex == Last(modules.value, name)
    {
      installThisModule, miIndex := true, -1;
      var os := modules.value;
      for j := 0 to |os|
        invariant installThisModule == !IsInstalled(os[..j], name)
      {
        assert os[..j + 1] == os[..j] + [os[j]];
        if name == os[j].name && os[j].installed {
          assert os[..j + 1][j] == os[j];
          installThisModule := false;
        } else {
          assert forall k :: 0 <= k < j ==> os[..j + 1][k] == os[..j][k];
        }
      }
      assert os[..|os|] == os;
      for j := 0 to |os|
        invariant miIndex == Last(os[..j], name)
      {
        assert os[..j + 1][..j] == os[..j];
        if name == os[j].name {
          miIndex := j;
        }
      }
    }

    method InstallModules() returns (newModsInstalled: nat)
      requires modules.Some?
      modifies this`modules, this`installCalls
      ensures modules == Some(InstallAll(old(modules.value), mods))
      ensures installCalls == old(installCalls) + Newly(old(modules.value), mods)
      ensures newModsInstalled == |Newly(old(modules.value), mods)|
    {
      newModsInstalled := 0;
      for n := 0 to |mods|
        invariant modules == Some(InstallAll(old(modules.value), mods[..n]))
        invariant installCalls == old(installCalls) + Newly(old(modules.value), mods[..n])
        invariant newModsInstalled == |Newly(old(modules.value), mods[..n])|
      {
        assert mods[..n + 1][..n] == mods[..n];
        var installThisModule, miIndex := InspectOptions(mods[n]);
        if installThisModule {
          newModsInstalled := newModsInstalled + 1;
          installCalls := installCalls + [mods[n]];
          if miIndex != -1 {
            modules := Some(modules.value[miIndex := modules.value[miIndex].(installed := true, active := On)]);
          } else {
            modules := Some(modules.value + [Entry(mods[n], On, true, "")]);
          }
        }
      }
      assert mods[..|mods|] == mods;
    }

    method Initialize()
      modifies this
      ensures var os := if old(modules).Some? then old(modules.value) else [];
              var r := Reconcile(lower, old(mods), os);
              && mods == r.mods && modules == Some(r.os)
              && installCalls == old(installCalls) + r.installed
              && saves == old(saves) + if r.saved then 1 else 0
    {
      var moduleRemoved := false;
      if modules.Some? {
        moduleRemoved := SweepOptions();
      }
      if modules == None {
        modules := Some([]);
      }
      var newModsInstalled := InstallModules();
      modules := Some(Sort(lower, modules.value));
      if newModsInstalled > 0 || moduleRemoved {
        saves := saves + 1;
      }
    }
  }
}

/**
 Turning the UTXO set into an issuance file: loading the blocks page by page, and writing one line per
 large balance and one for all small ones together.

 Block loading is the list of names loaded. The balances come in some order of a hash map; amounts
 are unbounded.
 */
module Issuance {

  type Key = string

  const PAGE_SIZE: nat := 100
  const PROJECT_PUBLIC_KEY: Key := "q6TTBeSStCLXEPoS5TUVAxNiGGnRDZQenpvAXXAfTmtA"

  datatype Balance = Balance(key: Key, value: nat)

  /** A line of the file; its slip type is always Normal. */
  datatype Line = Line(value: nat, key: Key)

  // ----- paging -----

  function Flat<T>(pages: seq<seq<T>>): seq<T> {
    if pages == [] then [] else Flat(pages[..|pages| - 1]) + pages[|pages| - 1]
  }

  /** Loads full pages only: the names after the last full page are not loaded. */
  method LoadPages(names: seq<string>) returns (loaded: seq<seq<string>>)
    ensures |loaded| == |names| / PAGE_SIZE
    ensures forall p :: 0 <= p < |loaded| ==> |loaded[p]| == PAGE_SIZE
    ensures Flat(loaded) == names[..PAGE_SIZE * (|names| / PAGE_SIZE)]
  {
    loaded := [];
    var pages := |names| / PAGE_SIZE;
    for currentPage := 0 to pages
      invariant |loaded| == currentPage && Flat(loaded) == names[..currentPage * PAGE_SIZE]
      invariant forall p :: 0 <= p < |loaded| ==> |loaded[p]| == PAGE_SIZE
    {
      var start := currentPage * PAGE_SIZE;
      var end := if start + PAGE_SIZE < |names| then start + PAGE_SIZE else |names|;
      ghost var before := loaded;
      loaded := loaded + [names[start..end]];
      assert loaded[..|loaded| - 1] == before;
      assert names[..start] + names[start..end] == names[..end];
    }
  }

  /** All names are loaded exactly if their number is a multiple of the page size. */
  lemma AllLoadedIff(names: seq<string>)
    ensures names[..PAGE_SIZE * (|names| / PAGE_SIZE)] == names <==> |names| % PAGE_SIZE == 0
  {
    assert |names| == PAGE_SIZE * (|names| / PAGE_SIZE) + |names| % PAGE_SIZE;
  }

  // ----- the lines -----

  function Total(data: seq<Balance>): nat {
    if data == [] then 0 else Total(data[..|data| - 1]) + data[|data| - 1].value
  }

  function Small(data: seq<Balance>, threshold: nat): nat {
    if data == [] then 0
    else
      var last := data[|data| - 1];
      Small(data[..|data| - 1], threshold) + if last.value < threshold then last.value else 0
  }

  function Large(data: seq<Balance>, threshold: nat): seq<Line> {
    if data == [] then []
    else
      var last := data[|data| - 1];
      Large(data[..|data| - 1], threshold) + if last.value < threshold then [] else [Line(last.value, last.key)]
  }

  function LineSum(lines: seq<Line>): nat {
    if lines == [] then 0 else LineSum(lines[..|lines| - 1]) + lines[|lines| - 1].value
  }

  function Lines(data: seq<Balance>, threshold: nat): seq<Line> {
    var small := Small(data, threshold);
    Large(data, threshold) + if small > 0 then [Line(small, PROJECT_PUBLIC_KEY)] else []
  }

  method WriteIssuance(data: seq<Balance>, threshold: nat) returns (file: seq<Line>, sum: nat, totalWrittenLines: nat)
    ensures file == Lines(data, threshold) && totalWrittenLines == |file|
    ensures sum == LineSum(file) == Total(data)
  {
    file, sum, totalWrittenLines := [], 0, 0;
    var aggregatedValue := 0;
    for i := 0 to |data|
      invariant file == Large(data[..i], threshold) && aggregatedValue == Small(data[..i], threshold)
      invariant totalWrittenLines == |file| && sum == LineSum(file)
      invariant sum + aggregatedValue == Total(data[..i])
    {
      assert data[..i + 1][..i] == data[..i];
      if data[i].value < threshold {
        aggregatedValue := aggregatedValue + data[i].value;
      } else {
        sum := sum + data[i].value;
        totalWrittenLines := totalWrittenLines + 1;
        LineSumNext(file, Line(data[i].value, data[i].key));
        file := file + [Line(data[i].value, data[i].key)];
      }
    }
    assert data[..|data|] == data;
    if aggregatedValue > 0 {
      sum := sum + aggregatedValue;
      totalWrittenLines := totalWrittenLines + 1;
      LineSumNext(file, Line(aggregatedValue, PROJECT_PUBLIC_KEY));
      file := file + [Line(aggregatedValue, PROJECT_PUBLIC_KEY)];
    }
  }

  lemma LineSumNext(lines: seq<Line>, line: Line)
    ensures LineSum(lines + [line]) == LineSum(lines) + line.value
  {
    assert (lines + [line])[..|lines|] == lines;
  }

  // ----- who gets a line -----

  predicate DistinctKeys(data: seq<Balance>) {
    forall i, j :: 0 <= i < j < |data| ==> data[i].key != data[j].key
  }

  /** How many lines name a key. */
  function LinesFor(lines: seq<Line>, key: Key): nat {
    if lines == [] then 0
    else LinesFor(lines[..|lines| - 1], key) + if lines[|lines| - 1].key == key then 1 else 0
  }

  predicate IsLarge(data: seq<Balance>, threshold: nat, key: Key) {
    exists k :: 0 <= k < |data| && data[k].key == key && data[k].value >= threshold
  }

  lemma LinesForNext(lines: seq<Line>, line: Line, key: Key)
    ensures LinesFor(lines + [line], key) == LinesFor(lines, key) + if line.key == key then 1 else 0
  {
    assert (lines + [line])[..|lines|] == lines;
  }

  lemma IsLargeLast(data: seq<Balance>, threshold: nat, key: Key)
    requires DistinctKeys(data) && data != []
    ensures var n := |data| - 1;
            && (IsLarge(data, threshold, key) <==>
                  IsLarge(data[..n], threshold, key) || (data[n].key == key && data[n].value >= threshold))
            && (data[n].key == key ==> !IsLarge(data[..n], threshold, key))
  {
    var n := |data| - 1;
    if IsLarge(data, threshold, key) {
      var k :| 0 <= k < |data| && data[k].key == key && data[k].value >= threshold;
      assert k < n ==> data[..n][k] == data[k];
    }
    if IsLarge(data[..n], threshold, key) {
      var k :| 0 <= k < n && data[..n][k].key == key && data[..n][k].value >= threshold;
      assert data[k].key == key;
    }
  }

  lemma {:induction false} LargeExactly(data: seq<Balance>, threshold: nat, key: Key)
    requires DistinctKeys(data)
    ensures LinesFor(Large(data, threshold), key) == if IsLarge(data, threshold, key) then 1 else 0
  {
    if data != [] {
      var last, older := data[|data| - 1], Large(data[..|data| - 1], threshold);
      LargeExactly(data[..|data| - 1], threshold, key);
      IsLargeLast(data, threshold, key);
      if last.value >= threshold {
        LinesForNext(older, Line(last.value, last.key), key);
      } else {
        assert Large(data, threshold) == older;
      }
    }
  }

  lemma {:induction false} LargeHas(data: seq<Balance>, threshold: nat, k: nat)
    requires k < |data| && data[k].value >= threshold
    ensures Line(data[k].value, data[k].key) in Large(data, threshold)
  {
    if k < |data| - 1 {
      LargeHas(data[..|data| - 1], threshold, k);
    }
  }

  /**
   Every key at or above the threshold has exactly one line, with its value; every other key has none;
   the project's key has one more if the rest amounts to anything.
   */
  lemma OneLineEach(data: seq<Balance>, threshold: nat, key: Key)
    requires DistinctKeys(data)
    ensures LinesFor(Lines(data, threshold), key)
            == (if IsLarge(data, threshold, key) then 1 else 0)
             + (if key == PROJECT_PUBLIC_KEY && Small(data, threshold) > 0 then 1 else 0)
    ensures forall k :: 0 <= k < |data| && data[k].value >= threshold ==>
              Line(data[k].value, data[k].key) in Lines(data, threshold)
  {
    LargeExactly(data, threshold, key);
    forall k | 0 <= k < |data| && data[k].value >= threshold
      ensures Line(data[k].value, data[k].key) in Lines(data, threshold)
    {
      LargeHas(data, threshold, k);
    }
    var small := Small(data, threshold);
    if small > 0 {
      LinesForNext(Large(data, threshold), Line(small, PROJECT_PUBLIC_KEY), key);
    } else {
      assert Lines(data, threshold) == Large(data, threshold);
    }
  }

  // ----- the order of the map does not matter -----

  lemma {:induction false} Join(a: seq<Balance>, b: seq<Balance>, threshold: nat)
    ensures Large(a + b, threshold) == Large(a, threshold) + Large(b, threshold)
    ensures Small(a + b, threshold) == Small(a, threshold) + Small(b, threshold)
  {
    if b == [] {
      assert a + b == a;
    } else {
      var n := |b| - 1;
      assert (a + b)[..|a| + n] == a + b[..n];
      Join(a, b[..n], threshold);
    }
  }

  /** Taking an entry out of the middle. */
  lemma TakeOut(a: seq<Balance>, x: Balance, b: seq<Balance>, threshold: nat)
    ensures multiset(Large(a + [x] + b, threshold))
            == multiset(Large(a + b, threshold)) + multiset(Large([x], threshold))
    ensures Small(a + [x] + b, threshold) == Small(a + b, threshold) + Small([x], threshold)
  {
    Join(a + [x], b, threshold);
    Join(a, [x], threshold);
    Join(a, b, threshold);
  }

  lemma Bag(a: seq<Balance>, x: Balance, b: seq<Balance>)
    ensures multiset(a + [x] + b) == multiset(a + b) + multiset{x}
  {
  }

  lemma Cancel(m: multiset<Balance>, m': multiset<Balance>, x: Balance)
    requires m + multiset{x} == m' + multiset{x}
    ensures m == m'
  {
    assert m == (m + multiset{x}) - multiset{x};
  }

  /** Whatever order the map is walked in, the file holds the same lines, and the same aggregate. */
  lemma {:induction false} OrderIrrelevant(data: seq<Balance>, data': seq<Balance>, threshold: nat)
    requires multiset(data) == multiset(data')
    ensures multiset(Large(data, threshold)) == multiset(Large(data', threshold))
    ensures Small(data, threshold) == Small(data', threshold)
    decreases |data|
  {
    if data == [] {
      assert data' == [] by {
        assert |multiset(data')| == 0;
      }
    } else {
      var x, rest := data[0], data[1..];
      assert data == [] + [x] + rest && [] + rest == rest;
      assert x in multiset(data');
      var k :| 0 <= k < |data'| && data'[k] == x;
      Reordered(rest, x, data'[..k], data'[k + 1..], data');
      OrderIrrelevant(rest, data'[..k] + data'[k + 1..], threshold);
      TakeOut([], x, rest, threshold);
      TakeOut(data'[..k], x, data'[k + 1..], threshold);
    }
  }

  lemma Reordered(rest: seq<Balance>, x: Balance, a: seq<Balance>, b: seq<Balance>, data': seq<Balance>)
    requires |data'| == |a| + 1 + |b| && data'[..|a|] == a && data'[|a|] == x && data'[|a| + 1..] == b
    requires multiset([] + [x] + rest) == multiset(data')
    ensures data' == a + [x] + b && multiset(rest) == multiset(a + b)
  {
    assert data' == a + [x] + b;
    assert [] + rest == rest;
    Bag([], x, rest);
    Bag(a, x, b);
    Cancel(multiset(rest), multiset(a + b), x);
  }
}

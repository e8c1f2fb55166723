/**
 The CRC-32 of the codec worker: the 256-entry table, the byte loop that uses it, and the object
 the worker keeps per task. Crc32Proofs shows that this computes a polynomial remainder.

 Register values are 32-bit patterns (bv32); the original reads the same patterns as signed numbers.
 */
module Crc32 {
  const POLYNOMIAL: bv32 := 0xEDB8_8320
  const INITIAL: bv32 := 0xFFFF_FFFF

  /** Addition over GF(2); named so that proofs can treat it as a symbol. */
  function Sum(a: bv32, b: bv32): bv32 {
    a ^ b
  }

  /** One turn of the inner table-building loop. */
  function Step(t: bv32): bv32 {
    if t & 1 != 0 then Sum(t >> 1, POLYNOMIAL) else t >> 1
  }

  function Steps(t: bv32, n: nat): bv32
    decreases n, t
  {
    if n == 0 then t else Steps(Step(t), n - 1)
  }

  function Mix(crc: bv32, entry: bv32): bv32 {
    Sum(crc >> 8, entry)
  }

  function Index(crc: bv32, d: bv32): bv32 {
    Sum(crc, d) & 0xFF
  }

  /** One turn of the byte loop, with the table entry written as the steps that produce it. */
  function UpdateByte(crc: bv32, d: bv32): bv32 {
    Mix(crc, Steps(Index(crc, d), 8))
  }

  function Feed(crc: bv32, data: seq<bv8>): bv32
    decreases |data|
  {
    if data == [] then crc else Feed(UpdateByte(crc, data[0] as bv32), data[1..])
  }

  /** The value read out of a register. */
  function Final(crc: bv32): bv32 {
    !crc
  }

  function Checksum(data: seq<bv8>): bv32 {
    Final(Feed(INITIAL, data))
  }

  // ----- chunking -----

  lemma {:induction false} FeedAppend(crc: bv32, a: seq<bv8>, b: seq<bv8>)
    ensures Feed(crc, a + b) == Feed(Feed(crc, a), b)
    decreases |a|
  {
    if a == [] {
      assert a + b == b;
    } else {
      assert (a + b)[1..] == a[1..] + b;
      FeedAppend(UpdateByte(crc, a[0] as bv32), a[1..], b);
    }
  }

  // ----- the object the worker keeps per task -----

  /** A table holds, for every byte value, the eight steps of that byte. */
  ghost predicate IsTable(table: seq<bv32>) {
    && |table| == 256
    && forall i :: 0 <= i < 256 ==> table[i] == Steps(i as bv32, 8)
  }

  method BuildTable() returns (table: seq<bv32>)
    ensures IsTable(table)
  {
    table := [];
    for i := 0 to 256
      invariant |table| == i
      invariant forall k :: 0 <= k < i ==> table[k] == Steps(k as bv32, 8)
    {
      var t := TableEntry(i as bv32);
      table := table + [t];
    }
  }

  method TableEntry(i: bv32) returns (t: bv32)
    ensures t == Steps(i, 8)
  {
    t := i;
    for j := 0 to 8
      invariant Steps(t, 8 - j) == Steps(i, 8)
    {
      if t & 1 != 0 {
        t := Sum(t >> 1, POLYNOMIAL);
      } else {
        t := t >> 1;
      }
    }
  }

  lemma IndexInTable(c: bv32, d: bv32)
    ensures Index(c, d) as int < 256 && (Index(c, d) as int) as bv32 == Index(c, d)
  {
    IndexRange(Sum(c, d));
    IndexRoundTrip(Index(c, d));
  }

  lemma IndexRange(w: bv32)
    ensures w & 0xFF <= 0xFF
  {
  }

  lemma IndexRoundTrip(k: bv32)
    requires k <= 0xFF
    ensures k as int < 256 && (k as int) as bv32 == k
  {
  }

  /** One turn of the byte loop against a table. */
  method Update(table: seq<bv32>, c: bv32, d: bv32) returns (u: bv32)
    requires IsTable(table)
    ensures u == UpdateByte(c, d)
  {
    IndexInTable(c, d);
    u := Mix(c, table[Index(c, d) as int]);
  }

  class Digest {
    const table: seq<bv32>
    var crc: bv32

    constructor (table: seq<bv32>)
      ensures this.table == table && crc == INITIAL
    {
      this.table := table;
      crc := INITIAL;
    }

    method Append(data: seq<bv8>)
      requires IsTable(table)
      modifies this
      ensures crc == Feed(old(crc), data)
    {
      var c := crc;
      var offset := 0;
      assert data[offset..] == data;
      while offset < |data|
        invariant 0 <= offset <= |data|
        invariant Feed(c, data[offset..]) == Feed(old(crc), data)
      {
        assert data[offset..][1..] == data[offset + 1..];
        c := Update(table, c, data[offset] as bv32);
        offset := offset + 1;
      }
      assert data[offset..] == [];
      crc := c;
    }

    method Get() returns (sum: bv32)
      ensures sum == Final(crc)
      ensures forall data | crc == Feed(INITIAL, data) :: sum == Checksum(data)
    {
      sum := Final(crc);
    }
  }
}

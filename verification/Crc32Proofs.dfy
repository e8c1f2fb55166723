/**
 The checksum of the codec worker is the remainder of polynomial long division, and it tells apart
 any two equal-length messages that differ within four consecutive bytes.
 */
module Crc32Proofs {
  import Gf2
  import opened Crc32

  // ----- registers as bit sequences -----

  /** The n low bits of x, least significant first. */
  function Low(x: bv32, n: nat): (bits: seq<bool>)
    ensures |bits| == n
    decreases n, x
  {
    if n == 0 then [] else [x & 1 == 1] + Low(x >> 1, n - 1)
  }

  /** A register's polynomial: the pattern is reflected, so the low bit is the leading coefficient. */
  function Bits(x: bv32): Gf2.Register {
    Low(x, 32)
  }

  /** The bits of a message in the order the checksum takes them: low bit of each byte first. */
  function MessageBits(data: seq<bv8>): (bits: seq<bool>)
    ensures |bits| == 8 * |data|
  {
    if data == [] then [] else Low(data[0] as bv32, 8) + MessageBits(data[1..])
  }

  function Shifted(x: bv32, n: nat): bv32
    decreases n
  {
    if n == 0 then x else Shifted(x >> 1, n - 1)
  }

  /** The low bits and the halves of two words and of their sum. */
  lemma HalveXor(a: bv32, b: bv32) returns (a': bv32, b': bv32, c': bv32, x: bool, y: bool, z: bool)
    ensures a' == a >> 1 && b' == b >> 1 && c' == (a ^ b) >> 1 && c' == a' ^ b'
    ensures x == (a & 1 == 1) && y == (b & 1 == 1) && z == ((a ^ b) & 1 == 1) && z == (x != y)
  {
    a', b', c', x, y, z := a >> 1, b >> 1, (a ^ b) >> 1, a & 1 == 1, b & 1 == 1, (a ^ b) & 1 == 1;
  }

  lemma XorCons(x: bool, y: bool, z: bool, X: seq<bool>, Y: seq<bool>, Z: seq<bool>)
    requires |X| == |Y| && Z == Gf2.XorOnto(X, Y) && z == (x != y)
    ensures [z] + Z == Gf2.XorOnto([x] + X, [y] + Y)
  {
  }

  lemma {:induction false} LowXor(a: bv32, b: bv32, n: nat)
    ensures Low(a ^ b, n) == Gf2.XorOnto(Low(a, n), Low(b, n))
    decreases n
  {
    if n > 0 {
      var a', b', c', x, y, z := HalveXor(a, b);
      LowXor(a', b', n - 1);
      XorCons(x, y, z, Low(a', n - 1), Low(b', n - 1), Low(c', n - 1));
      assert Low(a, n) == [x] + Low(a', n - 1);
      assert Low(b, n) == [y] + Low(b', n - 1);
      assert Low(a ^ b, n) == [z] + Low(c', n - 1);
    }
  }

  lemma LowSum(a: bv32, b: bv32, n: nat)
    ensures Low(Sum(a, b), n) == Gf2.XorOnto(Low(a, n), Low(b, n))
  {
    LowXor(a, b, n);
  }

  lemma HalveAnd(x: bv32, m: bv32) returns (x': bv32, m': bv32)
    ensures x' == x >> 1 && m' == m >> 1 && (x & m) >> 1 == x' & m'
    ensures m & 1 == 1 ==> (x & m) & 1 == x & 1
  {
    x', m' := x >> 1, m >> 1;
  }

  /** Masking with n ones keeps the n low bits. */
  lemma {:induction false} LowMask(x: bv32, m: bv32, n: nat)
    requires Low(m, n) == Gf2.Ones(n)
    ensures Low(x & m, n) == Low(x, n)
    decreases n
  {
    if n > 0 {
      var x', m' := HalveAnd(x, m);
      assert m & 1 == 1 by { assert Low(m, n)[0]; }
      assert Low(m', n - 1) == Gf2.Ones(n - 1) by { assert Low(m, n)[1..] == Low(m', n - 1); }
      LowMask(x', m', n - 1);
      assert Low(x, n) == [x & 1 == 1] + Low(x', n - 1);
      assert Low(x & m, n) == [(x & m) & 1 == 1] + Low(x' & m', n - 1);
    }
  }

  lemma {:induction false} LowSplit(x: bv32, a: nat, b: nat)
    ensures Low(x, a + b) == Low(x, a) + Low(Shifted(x, a), b)
    decreases a
  {
    if a > 0 {
      LowSplit(x >> 1, a - 1, b);
    }
  }

  lemma {:induction false} LowZero(n: nat)
    ensures Low(0, n) == Gf2.Zeros(n)
  {
    if n > 0 {
      LowZero(n - 1);
    }
  }

  lemma {:induction false} LowInjective(a: bv32, b: bv32, n: nat)
    requires Low(a, n) == Low(b, n) && Shifted(a, n) == Shifted(b, n)
    ensures a == b
    decreases n
  {
    if n > 0 {
      assert Low(a, n)[0] == Low(b, n)[0];
      assert Low(a, n)[1..] == Low(a >> 1, n - 1) && Low(b, n)[1..] == Low(b >> 1, n - 1);
      LowInjective(a >> 1, b >> 1, n - 1);
    }
  }

  lemma ShiftedByte(x: bv32)
    ensures Shifted(x, 8) == x >> 8
  {
  }

  lemma TwoBits(x: bv32, y: bv32, n: nat)
    requires y == (x >> 1) >> 1
    ensures Low(x, 2 + n) == [x & 1 == 1, (x >> 1) & 1 == 1] + Low(y, n)
  {
    assert Low(x, 2 + n) == [x & 1 == 1] + Low(x >> 1, 1 + n);
  }

  lemma LowOfOnes()
    ensures Low(0xFF, 8) == Gf2.Ones(8)
  {
    TwoBits(0xFF, 0x3F, 6);
    TwoBits(0x3F, 0x0F, 4);
    TwoBits(0x0F, 0x03, 2);
    TwoBits(0x03, 0x00, 0);
  }

  /** The eight low bits and the rest. */
  lemma LowByte(x: bv32, n: nat)
    ensures Low(x, 8 + n) == Low(x, 8) + Low(x >> 8, n)
  {
    LowSplit(x, 8, n);
    ShiftedByte(x);
  }

  lemma {:induction false} ShiftedAdd(x: bv32, a: nat, b: nat)
    ensures Shifted(x, a + b) == Shifted(Shifted(x, a), b)
    decreases a
  {
    if a > 0 {
      ShiftedAdd(x >> 1, a - 1, b);
    }
  }

  lemma ShiftedOut(x: bv32)
    ensures Shifted(x, 32) == 0
  {
    ShiftedAdd(x, 8, 24);
    ShiftedAdd(Shifted(x, 8), 8, 16);
    ShiftedAdd(Shifted(Shifted(x, 8), 8), 8, 8);
    ShiftedByte(x);
    ShiftedByte(x >> 8);
    ShiftedByte((x >> 8) >> 8);
    ShiftedByte(((x >> 8) >> 8) >> 8);
  }

  lemma BitsInjective(a: bv32, b: bv32)
    requires Bits(a) == Bits(b)
    ensures a == b
  {
    ShiftedOut(a);
    ShiftedOut(b);
    LowInjective(a, b, 32);
  }

  /** Keeping the low byte keeps its bits and clears the others. */
  lemma BitsOfLowByte(x: bv32)
    ensures Bits(x & 0xFF) == Bits(x)[..8] + Gf2.Zeros(24)
  {
    LowByte(x & 0xFF, 24);
    LowByte(x, 24);
    MaskedOut(x);
    LowZero(24);
    LowOfOnes();
    LowMask(x, 0xFF, 8);
  }

  lemma MaskedOut(x: bv32)
    ensures (x & 0xFF) >> 8 == 0
  {
  }

  lemma BitsOfShift(x: bv32)
    ensures Bits(x >> 8) == Bits(x)[8..] + Gf2.Zeros(8)
  {
    LowByte(x, 24);
    LowSplit(x >> 8, 24, 8);
    ShiftedByte(x);
    ShiftedAdd(x, 8, 24);
    ShiftedOut(x);
    LowZero(8);
  }

  lemma PolynomialBytes()
    ensures Bits(POLYNOMIAL) == Low(0x20, 8) + (Low(0x83, 8) + (Low(0xB8, 8) + Low(0xED, 8)))
  {
    LowByte(POLYNOMIAL, 24);
    LowByte(0xED_B883, 16);
    LowByte(0xEDB8, 8);
    LowSame(POLYNOMIAL, 0x20);
    LowSame(0xED_B883, 0x83);
    LowSame(0xEDB8, 0xB8);
  }

  lemma FirstPolynomialByte()
    ensures Low(0x20, 8) == [false, false, false, false, false, true, false, false]
  {
    TwoBits(0x20, 0x08, 6);
    TwoBits(0x08, 0x02, 4);
    TwoBits(0x02, 0x00, 2);
  }

  lemma SecondPolynomialByte()
    ensures Low(0x83, 8) == [true, true, false, false, false, false, false, true]
  {
    TwoBits(0x83, 0x20, 6);
    TwoBits(0x20, 0x08, 4);
    TwoBits(0x08, 0x02, 2);
  }

  lemma ThirdPolynomialByte()
    ensures Low(0xB8, 8) == [false, false, false, true, true, true, false, true]
  {
    TwoBits(0xB8, 0x2E, 6);
    TwoBits(0x2E, 0x0B, 4);
    TwoBits(0x0B, 0x02, 2);
  }

  lemma FourthPolynomialByte()
    ensures Low(0xED, 8) == [true, false, true, true, false, true, true, true]
  {
    TwoBits(0xED, 0x3B, 6);
    TwoBits(0x3B, 0x0E, 4);
    TwoBits(0x0E, 0x03, 2);
  }

  /** The reflected constant is the generator without its leading coefficient. */
  lemma BitsOfPolynomial()
    ensures Bits(POLYNOMIAL) == Gf2.GENERATOR[1..]
  {
    PolynomialBytes();
    FirstPolynomialByte();
    SecondPolynomialByte();
    ThirdPolynomialByte();
    FourthPolynomialByte();
  }

  /** Words agreeing in their low byte have the same eight low bits. */
  lemma LowSame(x: bv32, y: bv32)
    requires x & 0xFF == y & 0xFF
    ensures Low(x, 8) == Low(y, 8)
  {
    LowOfOnes();
    LowMask(x, 0xFF, 8);
    LowMask(y, 0xFF, 8);
  }

  lemma BitsOfInitial()
    ensures Bits(INITIAL) == Gf2.Ones(32)
  {
    LowOfOnes();
    LowSame(INITIAL, 0xFF);
    LowSame(0xFF_FFFF, 0xFF);
    LowSame(0xFFFF, 0xFF);
    LowByte(INITIAL, 24);
    LowByte(0xFF_FFFF, 16);
    LowByte(0xFFFF, 8);
  }

  lemma FinalIsSum(x: bv32)
    ensures Final(x) == Sum(x, INITIAL)
  {
  }

  lemma BitsOfFinal(x: bv32)
    ensures Bits(Final(x)) == Gf2.Complement(Bits(x))
  {
    FinalIsSum(x);
    LowSum(x, INITIAL, 32);
    BitsOfInitial();
  }

  lemma BitsOfHalf(x: bv32)
    ensures Bits(x >> 1) == Bits(x)[1..] + [false]
    ensures Bits(x)[0] == (x & 1 != 0)
  {
    OddBit(x);
    LowSplit(x >> 1, 31, 1);
    ShiftedOut(x);
  }

  lemma OddBit(x: bv32)
    ensures (x & 1 == 1) == (x & 1 != 0)
  {
  }

  /** The table's per-bit step is the register step of the division. */
  lemma BitsOfStep(t: bv32)
    ensures Bits(Step(t)) == Gf2.Step(Bits(t))
  {
    BitsOfHalf(t);
    if t & 1 != 0 {
      BitsOfPolynomial();
      LowSum(t >> 1, POLYNOMIAL, 32);
    }
  }

  lemma {:induction false} BitsOfSteps(t: bv32, n: nat)
    ensures Bits(Steps(t, n)) == Gf2.Steps(Bits(t), n)
    decreases n
  {
    if n > 0 {
      BitsOfStep(t);
      BitsOfSteps(Step(t), n - 1);
    }
  }

  // ----- the byte loop divides -----

  lemma LeadingByte(x: bv32)
    ensures Bits(x)[..8] == Low(x, 8)
  {
    LowByte(x, 24);
  }

  /** The table index: the register's leading byte with the data byte added. */
  lemma BitsOfIndex(crc: bv32, x: bv32)
    ensures Bits(Index(crc, x)) == Gf2.XorOnto(Bits(crc), Low(x, 8))[..8] + Gf2.Zeros(24)
  {
    BitsOfLowByte(Sum(crc, x));
    LowSum(crc, x, 32);
    LeadingByte(x);
    LeadingBitsOfSum(Bits(crc), Bits(x), Low(x, 8));
  }

  lemma LeadingBitsOfSum(a: Gf2.Register, b: Gf2.Register, d: seq<bool>)
    requires |d| == 8 && d == b[..8]
    ensures Gf2.XorOnto(a, b)[..8] == Gf2.XorOnto(a, d)[..8]
  {
  }

  /** Adding the shifted register to a table entry. */
  lemma BitsOfMix(crc: bv32, t: bv32)
    ensures Bits(Mix(crc, t)) == Gf2.XorOnto(Bits(crc)[8..] + Gf2.Zeros(8), Bits(t))
  {
    BitsOfShift(crc);
    LowSum(crc >> 8, t, 32);
  }

  lemma BitsOfUpdate(crc: bv32, x: bv32)
    ensures Bits(UpdateByte(crc, x)) == Gf2.ByteUpdate(Bits(crc), Low(x, 8))
  {
    var i := Index(crc, x);
    BitsOfIndex(crc, x);
    BitsOfSteps(i, 8);
    BitsOfMix(crc, Steps(i, 8));
  }

  /** The byte loop leaves what the serial register leaves after all the message bits. */
  lemma {:induction false} FeedIsSerial(crc: bv32, data: seq<bv8>)
    ensures Bits(Feed(crc, data)) == Gf2.Serial(Bits(crc), MessageBits(data))
    decreases |data|
  {
    if data != [] {
      var d := Low(data[0] as bv32, 8);
      BitsOfUpdate(crc, data[0] as bv32);
      Gf2.SerialByte(Bits(crc), d);
      FeedIsSerial(UpdateByte(crc, data[0] as bv32), data[1..]);
      Gf2.SerialAppend(Bits(crc), d, MessageBits(data[1..]));
    }
  }

  /**
   The checksum as section 8.1.1.6.2 of ITU-T V.42 defines it: complement the first 32 bits of the
   message followed by 32 zeros, divide by the generator, complement the remainder.
   */
  function ChecksumByDivision(data: seq<bv8>): Gf2.Register {
    Gf2.Complement(Gf2.Remainder(Gf2.XorOnto(MessageBits(data) + Gf2.Zeros(32), Gf2.Ones(32))))
  }

  /** The table-driven checksum is the one long division defines, for every message. */
  lemma ChecksumIsDivision(data: seq<bv8>)
    ensures Bits(Checksum(data)) == ChecksumByDivision(data)
  {
    FeedIsSerial(INITIAL, data);
    BitsOfInitial();
    Gf2.SerialIsRemainder(Gf2.Ones(32), MessageBits(data));
    BitsOfFinal(Feed(INITIAL, data));
  }

  /**
   Which errors go unnoticed: equally long messages have the same checksum exactly if the generator
   divides their difference, wherever in the messages that difference lies.
   */
  lemma CollideExactly(a: seq<bv8>, b: seq<bv8>)
    requires |a| == |b|
    ensures Checksum(a) == Checksum(b)
            <==> Gf2.Remainder(Gf2.XorOnto(MessageBits(a), MessageBits(b)) + Gf2.Zeros(32)) == Gf2.Zeros(32)
  {
    FeedIsSerial(INITIAL, a);
    FeedIsSerial(INITIAL, b);
    Gf2.SameRegisterIff(Bits(INITIAL), MessageBits(a), MessageBits(b));
    if Bits(Feed(INITIAL, a)) == Bits(Feed(INITIAL, b)) {
      BitsInjective(Feed(INITIAL, a), Feed(INITIAL, b));
    }
    FinalInjective(Feed(INITIAL, a), Feed(INITIAL, b));
  }

  // ----- burst errors -----

  lemma {:induction false} MessageBitsAppend(a: seq<bv8>, b: seq<bv8>)
    ensures MessageBits(a + b) == MessageBits(a) + MessageBits(b)
  {
    if a == [] {
      assert a + b == b;
    } else {
      var first, rest := Low(a[0] as bv32, 8), MessageBits(a[1..]);
      assert (a + b)[0] == a[0] && (a + b)[1..] == a[1..] + b;
      MessageBitsAppend(a[1..], b);
      Regroup(first, rest, MessageBits(b));
      assert MessageBits(a) == first + rest;
    }
  }

  lemma Regroup<T>(a: seq<T>, b: seq<T>, c: seq<T>)
    ensures a + (b + c) == a + b + c
  {
  }

  lemma {:induction false} MessageBitsInjective(a: seq<bv8>, b: seq<bv8>)
    requires |a| == |b| && MessageBits(a) == MessageBits(b)
    ensures a == b
  {
    if a != [] {
      assert Low(a[0] as bv32, 8) == MessageBits(a)[..8] && Low(b[0] as bv32, 8) == MessageBits(b)[..8];
      assert MessageBits(a[1..]) == MessageBits(a)[8..] && MessageBits(b[1..]) == MessageBits(b)[8..];
      ByteInjective(a[0], b[0]);
      MessageBitsInjective(a[1..], b[1..]);
    }
  }

  lemma ByteInjective(c: bv8, d: bv8)
    requires Low(c as bv32, 8) == Low(d as bv32, 8)
    ensures c == d
  {
    ByteShiftedOut(c);
    ByteShiftedOut(d);
    LowInjective(c as bv32, d as bv32, 8);
    WidenInjective(c, d);
  }

  lemma ByteShiftedOut(d: bv8)
    ensures Shifted(d as bv32, 8) == 0
  {
    ShiftedByte(d as bv32);
  }

  lemma WidenInjective(c: bv8, d: bv8)
    requires c as bv32 == d as bv32
    ensures c == d
  {
  }

  /** A window of at most four bytes, between the same prefix and suffix, shows in the register. */
  lemma WindowDetected(crc: bv32, p: seq<bv8>, v: seq<bv8>, w: seq<bv8>, s: seq<bv8>)
    requires |v| == |w| <= 4 && v != w
    ensures Feed(crc, p + v + s) != Feed(crc, p + w + s)
  {
    MessageBitsAppend(p + v, s);
    MessageBitsAppend(p, v);
    MessageBitsAppend(p + w, s);
    MessageBitsAppend(p, w);
    if MessageBits(v) == MessageBits(w) {
      MessageBitsInjective(v, w);
    }
    Gf2.BurstDetected(Bits(crc), MessageBits(p), MessageBits(v), MessageBits(w), MessageBits(s));
    FeedIsSerial(crc, p + v + s);
    FeedIsSerial(crc, p + w + s);
  }

  /**
   Two messages of equal length that differ, and differ only inside some four consecutive bytes
   from position at, have different checksums.
   */
  lemma BurstOfFourBytes(a: seq<bv8>, b: seq<bv8>, at: nat)
    requires |a| == |b| && a != b
    requires forall i :: 0 <= i < |a| && a[i] != b[i] ==> at <= i < at + 4
    ensures Checksum(a) != Checksum(b)
  {
    var lo := if at <= |a| then at else |a|;
    var hi := if lo + 4 <= |a| then lo + 4 else |a|;
    assert a == a[..lo] + a[lo..hi] + a[hi..];
    assert b == a[..lo] + b[lo..hi] + a[hi..];
    WindowDetected(INITIAL, a[..lo], a[lo..hi], b[lo..hi], a[hi..]);
    FinalInjective(Feed(INITIAL, a), Feed(INITIAL, b));
  }

  lemma FinalInjective(x: bv32, y: bv32)
    ensures Final(x) == Final(y) ==> x == y
  {
  }

  // ----- four bytes is the limit -----

  lemma CollisionBytes()
    ensures Low(0x41, 8) == [true, false, false, false, false, false, true, false]
    ensures Low(0x06, 8) == [false, true, true, false, false, false, false, false]
  {
    TwoBits(0x41, 0x10, 6);
    TwoBits(0x10, 0x04, 4);
    TwoBits(0x04, 0x01, 2);
    TwoBits(0x06, 0x01, 6);
    TwoBits(0x01, 0x00, 4);
    LowZero(4);
  }

  lemma MoreCollisionBytes()
    ensures Low(0x71, 8) == [true, false, false, false, true, true, true, false]
    ensures Low(0xDB, 8) == [true, true, false, true, true, false, true, true]
    ensures Low(0x01, 8) == [true] + Gf2.Zeros(7)
  {
    TwoBits(0x71, 0x1C, 6);
    TwoBits(0x1C, 0x07, 4);
    TwoBits(0x07, 0x01, 2);
    TwoBits(0xDB, 0x36, 6);
    TwoBits(0x36, 0x0D, 4);
    TwoBits(0x0D, 0x03, 2);
    LowZero(7);
  }

  lemma MessageBitsCons(d: bv8, rest: seq<bv8>)
    ensures MessageBits([d] + rest) == Low(d as bv32, 8) + MessageBits(rest)
  {
    assert ([d] + rest)[1..] == rest;
  }

  lemma FiveMessageBits(a: bv8, b: bv8, c: bv8, d: bv8, e: bv8)
    ensures MessageBits([a] + ([b] + ([c] + ([d] + ([e] + [])))))
         == Low(a as bv32, 8)
            + (Low(b as bv32, 8) + (Low(c as bv32, 8) + (Low(d as bv32, 8) + (Low(e as bv32, 8) + []))))
  {
    MessageBitsCons(a, [b] + ([c] + ([d] + ([e] + []))));
    MessageBitsCons(b, [c] + ([d] + ([e] + [])));
    MessageBitsCons(c, [d] + ([e] + []));
    MessageBitsCons(d, [e] + []);
    MessageBitsCons(e, []);
  }

  lemma FiveBytes(a: bv8, b: bv8, c: bv8, d: bv8, e: bv8)
    ensures [a] + ([b] + ([c] + ([d] + ([e] + [])))) == [a, b, c, d, e]
  {
  }

  lemma JoinGenerator(a: seq<bool>, b: seq<bool>, c: seq<bool>, d: seq<bool>, e: seq<bool>)
    requires a == [true, false, false, false, false, false, true, false]
    requires b == [false, true, true, false, false, false, false, false]
    requires c == [true, false, false, false, true, true, true, false]
    requires d == [true, true, false, true, true, false, true, true]
    requires e == [true] + Gf2.Zeros(7)
    ensures a + (b + (c + (d + (e + [])))) == Gf2.GENERATOR + Gf2.Zeros(7)
  {
  }

  lemma GeneratorBits()
    ensures MessageBits([0x41, 0x06, 0x71, 0xDB, 0x01]) == Gf2.GENERATOR + Gf2.Zeros(7)
  {
    FiveMessageBits(0x41, 0x06, 0x71, 0xDB, 0x01);
    FiveBytes(0x41, 0x06, 0x71, 0xDB, 0x01);
    CollisionBytes();
    MoreCollisionBytes();
    JoinGenerator(Low(0x41, 8), Low(0x06, 8), Low(0x71, 8), Low(0xDB, 8), Low(0x01, 8));
  }

  /** Adding byte by byte. */
  function XorBytes(v: seq<bv8>, w: seq<bv8>): (u: seq<bv8>)
    requires |v| == |w|
    ensures |u| == |v|
  {
    if v == [] then [] else [v[0] ^ w[0]] + XorBytes(v[1..], w[1..])
  }

  lemma WidenXor(c: bv8, d: bv8)
    ensures (c ^ d) as bv32 == Sum(c as bv32, d as bv32)
  {
  }

  lemma XorJoin(a: seq<bool>, b: seq<bool>, c: seq<bool>, d: seq<bool>)
    requires |a| == |c| && |b| == |d|
    ensures Gf2.XorOnto(a + b, c + d) == Gf2.XorOnto(a, c) + Gf2.XorOnto(b, d)
  {
  }

  lemma {:induction false} MessageBitsXor(v: seq<bv8>, w: seq<bv8>)
    requires |v| == |w|
    ensures MessageBits(XorBytes(v, w)) == Gf2.XorOnto(MessageBits(v), MessageBits(w))
  {
    if v != [] {
      var u := v[0] ^ w[0];
      WidenXor(v[0], w[0]);
      LowSum(v[0] as bv32, w[0] as bv32, 8);
      MessageBitsXor(v[1..], w[1..]);
      MessageBitsCons(u, XorBytes(v[1..], w[1..]));
      XorJoin(Low(v[0] as bv32, 8), MessageBits(v[1..]), Low(w[0] as bv32, 8), MessageBits(w[1..]));
    }
  }

  lemma XorBack(v: seq<bool>, g: seq<bool>)
    requires |v| == |g|
    ensures Gf2.XorOnto(v, Gf2.XorOnto(v, g)) == g
  {
  }

  lemma XorSame(v: seq<bool>)
    ensures Gf2.XorOnto(v, v) == Gf2.Zeros(|v|)
  {
  }

  lemma MessageBitsThree(p: seq<bv8>, v: seq<bv8>, s: seq<bv8>)
    ensures MessageBits(p + v + s) == MessageBits(p) + MessageBits(v) + MessageBits(s)
  {
    MessageBitsAppend(p + v, s);
    MessageBitsAppend(p, v);
  }

  /** The difference of two messages that agree around a window is the window's difference between zeros. */
  lemma BitDifference(p: seq<bool>, v: seq<bool>, w: seq<bool>, s: seq<bool>, a: seq<bool>, b: seq<bool>)
    requires |v| == |w| && a == p + v + s && b == p + w + s
    ensures Gf2.XorOnto(a, b) == Gf2.Zeros(|p|) + Gf2.XorOnto(v, w) + Gf2.Zeros(|s|)
  {
    XorJoin(p + v, s, p + w, s);
    XorJoin(p, v, p, w);
    XorSame(p);
    XorSame(s);
  }

  lemma RegroupZeros(n: nat, k: nat)
    ensures Gf2.Zeros(n) + (Gf2.GENERATOR + Gf2.Zeros(7)) + Gf2.Zeros(k)
         == Gf2.Zeros(n) + (Gf2.GENERATOR + Gf2.Zeros(7 + k))
  {
  }

  function Collider(): (g: seq<bv8>)
    ensures |g| == 5
  {
    [0x41, 0x06, 0x71, 0xDB, 0x01]
  }

  lemma ColliderChanges(v: seq<bv8>)
    requires |v| == 5
    ensures XorBytes(v, Collider()) != v
  {
    assert XorBytes(v, Collider())[0] == v[0] ^ 0x41;
    FlipChanges(v[0]);
  }

  lemma FlipChanges(c: bv8)
    ensures c ^ 0x41 != c
  {
  }

  /**
   Four bytes is the limit: between any prefix and suffix, every window of five bytes has another one
   that gives the same checksum.
   */
  lemma FiveBytesCanCollide(p: seq<bv8>, v: seq<bv8>, s: seq<bv8>) returns (w: seq<bv8>)
    requires |v| == 5
    ensures |w| == 5 && w != v && Checksum(p + v + s) == Checksum(p + w + s)
  {
    w := XorBytes(v, Collider());
    ColliderChanges(v);
    MessageBitsXor(v, Collider());
    GeneratorBits();
    XorBack(MessageBits(v), MessageBits(Collider()));
    MessageBitsThree(p, v, s);
    MessageBitsThree(p, w, s);
    BitDifference(MessageBits(p), MessageBits(v), MessageBits(w), MessageBits(s),
                  MessageBits(p + v + s), MessageBits(p + w + s));
    RegroupZeros(8 * |p|, 8 * |s|);
    Gf2.GeneratorDivides(8 * |p|, 7 + 8 * |s|);
    CollideExactly(p + v + s, p + w + s);
  }
}

/**
 Polynomials over GF(2) as bit sequences, highest-degree coefficient first, and the 32-bit
 shift register that divides by the CRC-32 generator one message bit at a time.
 */
module Gf2 {

  /** x^32+x^26+x^23+x^22+x^16+x^12+x^11+x^10+x^8+x^7+x^5+x^4+x^2+x+1 */
  const GENERATOR: seq<bool> := [
    true,
    false, false, false, false, false, true, false, false,
    true, true, false, false, false, false, false, true,
    false, false, false, true, true, true, false, true,
    true, false, true, true, false, true, true, true]

  type Register = r: seq<bool> | |r| == 32 witness Zeros(32)

  function Zeros(n: nat): (z: seq<bool>)
    ensures |z| == n
  {
    seq(n, _ => false)
  }

  function Ones(n: nat): (z: seq<bool>)
    ensures |z| == n
  {
    seq(n, _ => true)
  }

  function Complement(a: seq<bool>): (c: seq<bool>)
    ensures |c| == |a|
  {
    seq(|a|, i requires 0 <= i < |a| => !a[i])
  }

  /** Adds the shorter polynomial to the leading coefficients of the longer one. */
  function XorOnto(a: seq<bool>, b: seq<bool>): (c: seq<bool>)
    requires |b| <= |a|
    ensures |c| == |a|
    ensures forall i :: 0 <= i < |b| ==> c[i] == (a[i] != b[i])
    ensures forall i :: |b| <= i < |a| ==> c[i] == a[i]
  {
    seq(|a|, i requires 0 <= i < |a| => if i < |b| then a[i] != b[i] else a[i])
  }

  // ----- the definition: polynomial long division -----

  /** The remainder of long division by the generator: cancel the leading coefficient, drop it, repeat. */
  function Remainder(p: seq<bool>): (r: seq<bool>)
    ensures |r| == if |p| <= 32 then |p| else 32
    decreases |p|
  {
    if |p| <= 32 then p
    else if p[0] then Remainder(XorOnto(p, GENERATOR)[1..])
    else Remainder(p[1..])
  }

  // ----- the register -----

  function Step(r: Register): Register {
    if r[0] then XorOnto(r[1..] + [false], GENERATOR[1..]) else r[1..] + [false]
  }

  function Steps(r: Register, n: nat): Register
    decreases n, r
  {
    if n == 0 then r else Steps(Step(r), n - 1)
  }

  function ShiftIn(r: Register, b: bool): Register {
    Step(XorOnto(r, [b]))
  }

  function Serial(r: Register, bits: seq<bool>): Register
    decreases |bits|
  {
    if bits == [] then r else Serial(ShiftIn(r, bits[0]), bits[1..])
  }

  // ----- the register divides -----

  /** One turn of long division is one turn of the register. */
  lemma DivisionStep(r: Register, m: seq<bool>)
    requires m != []
    ensures Remainder(XorOnto(m + Zeros(32), r)) == Remainder(XorOnto(m[1..] + Zeros(32), ShiftIn(r, m[0])))
  {
    var p := XorOnto(m + Zeros(32), r);
    var q := XorOnto(m[1..] + Zeros(32), ShiftIn(r, m[0]));
    if p[0] {
      assert XorOnto(p, GENERATOR)[1..] == q;
    } else {
      assert p[1..] == q;
    }
  }

  /**
   The register is the division in progress: with m still to come, dividing the register added
   onto m followed by 32 zeros leaves exactly what feeding m leaves in the register.
   */
  lemma {:induction false} SerialIsRemainder(r: Register, m: seq<bool>)
    ensures Remainder(XorOnto(m + Zeros(32), r)) == Serial(r, m)
    decreases |m|
  {
    if m == [] {
      assert XorOnto(m + Zeros(32), r) == r;
    } else {
      DivisionStep(r, m);
      SerialIsRemainder(ShiftIn(r, m[0]), m[1..]);
    }
  }

  lemma {:induction false} SerialAppend(r: Register, a: seq<bool>, b: seq<bool>)
    ensures Serial(r, a + b) == Serial(Serial(r, a), b)
    decreases |a|
  {
    if a == [] {
      assert a + b == b;
    } else {
      assert (a + b)[1..] == a[1..] + b;
      SerialAppend(ShiftIn(r, a[0]), a[1..], b);
    }
  }

  // ----- linearity and injectivity -----

  lemma StepLinear(a: Register, b: Register)
    ensures Step(XorOnto(a, b)) == XorOnto(Step(a), Step(b))
  {
  }

  lemma {:induction false} StepsLinear(a: Register, b: Register, n: nat)
    ensures Steps(XorOnto(a, b), n) == XorOnto(Steps(a, n), Steps(b, n))
    decreases n
  {
    if n > 0 {
      var a', b' := Step(a), Step(b);
      StepsLinear(a', b', n - 1);
      assert Step(XorOnto(a, b)) == XorOnto(a', b') by { StepLinear(a, b); }
    }
  }

  lemma ShiftInLinear(a: Register, b: Register, x: bool, y: bool)
    ensures ShiftIn(XorOnto(a, b), x != y) == XorOnto(ShiftIn(a, x), ShiftIn(b, y))
  {
    var u, w := XorOnto(a, [x]), XorOnto(b, [y]);
    assert XorOnto(XorOnto(a, b), [x != y]) == XorOnto(u, w);
    StepLinear(u, w);
  }

  /** Feeding the sum of two messages to the sum of two registers leaves the sum of the results. */
  lemma {:induction false} SerialLinear(a: Register, b: Register, m: seq<bool>, n: seq<bool>)
    requires |m| == |n|
    ensures Serial(XorOnto(a, b), XorOnto(m, n)) == XorOnto(Serial(a, m), Serial(b, n))
    decreases |m|
  {
    if m != [] {
      ShiftInLinear(a, b, m[0], n[0]);
      assert XorOnto(m, n)[1..] == XorOnto(m[1..], n[1..]);
      SerialLinear(ShiftIn(a, m[0]), ShiftIn(b, n[0]), m[1..], n[1..]);
    }
  }

  lemma SumIsZero(a: Register, b: Register)
    ensures XorOnto(a, b) == Zeros(32) <==> a == b
  {
    if XorOnto(a, b) == Zeros(32) {
      forall i | 0 <= i < 32 ensures a[i] == b[i] {
        assert !XorOnto(a, b)[i];
      }
    }
  }

  /** Two equally long messages leave the same register exactly if the generator divides their difference. */
  lemma SameRegisterIff(r: Register, m: seq<bool>, n: seq<bool>)
    requires |m| == |n|
    ensures Serial(r, m) == Serial(r, n) <==> Remainder(XorOnto(m, n) + Zeros(32)) == Zeros(32)
  {
    var d := XorOnto(m, n);
    SerialLinear(r, r, m, n);
    assert XorOnto(r, r) == Zeros(32);
    SerialIsRemainder(Zeros(32), d);
    assert XorOnto(d + Zeros(32), Zeros(32)) == d + Zeros(32);
    SumIsZero(Serial(r, m), Serial(r, n));
  }

  // ----- remainders of sparse polynomials -----

  lemma {:induction false} LeadingZeros(n: nat, p: seq<bool>)
    requires |p| >= 32
    ensures Remainder(Zeros(n) + p) == Remainder(p)
    decreases n
  {
    if n == 0 {
      assert Zeros(0) + p == p;
    } else {
      assert (Zeros(n) + p)[1..] == Zeros(n - 1) + p;
      LeadingZeros(n - 1, p);
    }
  }

  /** A multiple of the generator by a power of x leaves nothing. */
  lemma GeneratorDivides(n: nat, k: nat)
    ensures Remainder(Zeros(n) + (GENERATOR + Zeros(k)) + Zeros(32)) == Zeros(32)
  {
    var p := GENERATOR + Zeros(k) + Zeros(32);
    assert Zeros(n) + (GENERATOR + Zeros(k)) + Zeros(32) == Zeros(n) + p;
    LeadingZeros(n, p);
    assert XorOnto(p, GENERATOR)[1..] == Zeros(k + 32) + Zeros(32);
    LeadingZeros(k + 32, Zeros(32));
  }

  /** A step loses nothing: the generator's last coefficient records the bit shifted out. */
  lemma StepInjective(a: Register, b: Register)
    requires Step(a) == Step(b)
    ensures a == b
  {
    assert Step(a)[31] == a[0] && Step(b)[31] == b[0];
    forall i | 0 <= i < 32
      ensures a[i] == b[i]
    {
      if i > 0 {
        assert Step(a)[i - 1] == Step(b)[i - 1];
      }
    }
  }

  lemma {:induction false} StepsInjective(a: Register, b: Register, n: nat)
    requires Steps(a, n) == Steps(b, n)
    ensures a == b
    decreases n
  {
    if n > 0 {
      StepsInjective(Step(a), Step(b), n - 1);
      StepInjective(a, b);
    }
  }

  lemma {:induction false} SerialInjective(a: Register, b: Register, m: seq<bool>)
    requires Serial(a, m) == Serial(b, m)
    ensures a == b
    decreases |m|
  {
    if m != [] {
      SerialInjective(ShiftIn(a, m[0]), ShiftIn(b, m[0]), m[1..]);
      StepInjective(XorOnto(a, [m[0]]), XorOnto(b, [m[0]]));
      forall i | 0 <= i < 32
        ensures a[i] == b[i]
      {
        assert XorOnto(a, [m[0]])[i] == XorOnto(b, [m[0]])[i];
      }
    }
  }

  /** Up to 32 bits fed serially are the same as those bits added to the register at once, then plain steps. */
  lemma {:induction false} SerialIsSteps(r: Register, m: seq<bool>)
    requires |m| <= 32
    ensures Serial(r, m) == Steps(XorOnto(r, m), |m|)
    decreases |m|
  {
    if m == [] {
      assert XorOnto(r, m) == r;
    } else {
      assert XorOnto(ShiftIn(r, m[0]), m[1..]) == Step(XorOnto(r, m));
      SerialIsSteps(ShiftIn(r, m[0]), m[1..]);
    }
  }

  /** Eight steps of a register whose first eight bits are clear only shift it. */
  lemma {:induction false} StepsShift(r: Register, n: nat)
    requires n <= 32 && r[..n] == Zeros(n)
    ensures Steps(r, n) == r[n..] + Zeros(n)
    decreases n
  {
    if n == 0 {
      assert r[0..] + Zeros(0) == r;
    } else {
      assert !r[0] by { assert r[..n][0] == r[0]; }
      var s := Step(r);
      forall i | 0 <= i < n - 1
        ensures !s[i]
      {
        assert r[..n][i + 1] == r[i + 1];
      }
      assert s[..n - 1] == Zeros(n - 1);
      StepsShift(s, n - 1);
    }
  }

  /** Eight bits at once: shift the register by a byte and add the steps of the byte shifted out. */
  function ByteUpdate(c: Register, d: seq<bool>): Register
    requires |d| == 8
  {
    XorOnto(c[8..] + Zeros(8), Steps(XorOnto(c, d)[..8] + Zeros(24), 8))
  }

  lemma SerialByte(c: Register, d: seq<bool>)
    requires |d| == 8
    ensures Serial(c, d) == ByteUpdate(c, d)
  {
    var low: Register := XorOnto(c, d)[..8] + Zeros(24);
    var high: Register := Zeros(8) + c[8..];
    SerialIsSteps(c, d);
    assert XorOnto(c, d) == XorOnto(high, low);
    StepsLinear(high, low, 8);
    assert Steps(high, 8) == c[8..] + Zeros(8) by {
      assert high[..8] == Zeros(8);
      StepsShift(high, 8);
    }
  }

  // ----- burst errors -----

  /** Up to 32 bits can be read back from the register they leave. */
  lemma WindowInjective(q: Register, v: seq<bool>, w: seq<bool>)
    requires |v| == |w| <= 32 && Serial(q, v) == Serial(q, w)
    ensures v == w
  {
    SerialIsSteps(q, v);
    SerialIsSteps(q, w);
    StepsInjective(XorOnto(q, v), XorOnto(q, w), |v|);
    forall i | 0 <= i < |v|
      ensures v[i] == w[i]
    {
      assert XorOnto(q, v)[i] == XorOnto(q, w)[i];
    }
  }

  /** Two messages equal but for a window of at most 32 bits leave different registers. */
  lemma BurstDetected(r: Register, p: seq<bool>, v: seq<bool>, w: seq<bool>, s: seq<bool>)
    requires |v| == |w| <= 32 && v != w
    ensures Serial(r, p + v + s) != Serial(r, p + w + s)
  {
    var q := Serial(r, p);
    var rv, rw := Serial(q, v), Serial(q, w);
    assert rv != rw by {
      if rv == rw { WindowInjective(q, v, w); }
    }
    assert Serial(r, p + v + s) == Serial(rv, s) by {
      SerialAppend(r, p + v, s);
      SerialAppend(r, p, v);
    }
    assert Serial(r, p + w + s) == Serial(rw, s) by {
      SerialAppend(r, p + w, s);
      SerialAppend(r, p, w);
    }
    if Serial(rv, s) == Serial(rw, s) {
      SerialInjective(rv, rw, s);
    }
  }
}

/**
 * CRC-16 and CRC-5 of section 8.3.5 of USB 2.0: the bitwise definition, the
 * table-driven form used on the receive path, and what the check detects.
 *
 * The bit-vector operations are named so that proofs can hide them: facts about
 * single operations are bit-blasted once, everything else is equational.
 */
module Crc {
  import opened UsbTypes

  const RESIDUE: bv16 := 0xb001

  function Xor(a: bv16, b: bv16): bv16 { a ^ b }
  function Xor8(a: byte, b: byte): byte { a ^ b }
  function Odd(c: bv16): bool { c & 1 != 0 }
  function Half(c: bv16): bv16 { c >> 1 }
  function Double(c: bv16): bv16 { c << 1 }
  function Bit(b: bool): bv16 { if b then 1 else 0 }
  function Wide(b: byte): bv16 { b as bv16 }
  function Upper(b: byte): bv16 { (b as bv16) << 8 }
  function Top(c: bv16): bv16 { c & 0xff00 }
  function Low(c: bv16): byte { (c & 0xff) as byte }
  function High(c: bv16): byte { (c >> 8) as byte }
  function Join(lo: byte, hi: byte): bv16 { (lo as bv16) | ((hi as bv16) << 8) }

  /** One shift of the reflected CRC-16 register. */
  function Step(c: bv16): bv16 {
    if Odd(c) then Xor(Half(c), 0xa001) else Half(c)
  }

  function Shift2(c: bv16): bv16 { Step(Step(c)) }
  function Shift4(c: bv16): bv16 { Shift2(Shift2(c)) }
  function Shift8(c: bv16): bv16 { Shift4(Shift4(c)) }

  function ByteStep(c: bv16, b: byte): bv16 {
    Shift8(Xor(c, Wide(b)))
  }

  /** The CRC-16 register after `bytes`, starting from all ones. */
  function Register(bytes: seq<byte>): bv16 {
    if bytes == [] then 0xffff
    else ByteStep(Register(bytes[..|bytes| - 1]), bytes[|bytes| - 1])
  }

  function Crc16(bytes: seq<byte>): bv16 {
    Xor(Register(bytes), 0xffff)
  }

  /** The payload followed by its CRC as it is sent: low byte first. */
  function WithCrc(payload: seq<byte>): seq<byte> {
    payload + [Low(Crc16(payload)), High(Crc16(payload))]
  }

  // ----- single operations --------------------------------------------------

  lemma XorLaws(a: bv16, b: bv16, c: bv16)
    ensures Xor(Xor(a, b), c) == Xor(a, Xor(b, c))
    ensures Xor(a, b) == Xor(b, a)
    ensures Xor(Xor(a, b), b) == a
    ensures Xor(a, 0) == a && Xor(a, a) == 0
    ensures Xor(a, b) == 0 ==> a == b
  {}

  lemma OddXor(a: bv16, b: bv16)
    ensures Odd(Xor(a, b)) == (Odd(a) != Odd(b))
  {}

  lemma HalfXor(a: bv16, b: bv16)
    ensures Half(Xor(a, b)) == Xor(Half(a), Half(b))
  {}

  lemma JoinSplit(c: bv16)
    ensures Join(Low(c), High(c)) == c
  {}

  lemma SplitJoin(lo: byte, hi: byte)
    ensures Low(Join(lo, hi)) == lo && High(Join(lo, hi)) == hi
  {}

  lemma JoinIsXor(lo: byte, hi: byte)
    ensures Join(lo, hi) == Xor(Wide(lo), Upper(hi))
  {}

  lemma UpperByte(hi: byte)
    ensures Low(Upper(hi)) == 0 && Wide(High(Upper(hi))) == Wide(hi)
  {}

  lemma TopLowSplit(c: bv16, b: byte)
    ensures Xor(c, Wide(b)) == Xor(Top(c), Wide(Low(c) ^ b))
    ensures Low(Top(c)) == 0 && High(Top(c)) == High(c)
  {}

  // ----- algebra of the register ---------------------------------------------

  lemma StepLinear(a: bv16, b: bv16)
    ensures Step(Xor(a, b)) == Xor(Step(a), Step(b))
  {
    hide Xor, Odd, Half;
    OddXor(a, b);
    HalfXor(a, b);
    var p, q := Half(a), Half(b);
    XorLaws(p, q, 0xa001);
    XorLaws(p, 0xa001, q);
    XorLaws(p, 0xa001, Xor(q, 0xa001));
    XorLaws(0xa001, q, 0xa001);
    XorLaws(q, 0xa001, 0xa001);
  }

  lemma Shift2Linear(a: bv16, b: bv16)
    ensures Shift2(Xor(a, b)) == Xor(Shift2(a), Shift2(b))
  {
    hide Step, Xor;
    StepLinear(a, b);
    StepLinear(Step(a), Step(b));
  }

  lemma Shift4Linear(a: bv16, b: bv16)
    ensures Shift4(Xor(a, b)) == Xor(Shift4(a), Shift4(b))
  {
    hide Shift2, Xor;
    Shift2Linear(a, b);
    Shift2Linear(Shift2(a), Shift2(b));
  }

  lemma Shift8Linear(a: bv16, b: bv16)
    ensures Shift8(Xor(a, b)) == Xor(Shift8(a), Shift8(b))
  {
    hide Shift4, Xor;
    Shift4Linear(a, b);
    Shift4Linear(Shift4(a), Shift4(b));
  }

  function Unstep(c: bv16): bv16 {
    if c & 0x8000 != 0 then ((c ^ 0xa001) << 1) | 1 else c << 1
  }

  lemma UnstepStep(c: bv16)
    ensures Unstep(Step(c)) == c
  {}

  lemma StepInjective(a: bv16, b: bv16)
    requires Step(a) == Step(b)
    ensures a == b
  {
    hide Step, Unstep;
    UnstepStep(a);
    UnstepStep(b);
  }

  lemma Shift8Injective(a: bv16, b: bv16)
    requires Shift8(a) == Shift8(b)
    ensures a == b
  {
    hide Step;
    var a1 := Step(a); var a2 := Step(a1); var a3 := Step(a2); var a4 := Step(a3);
    var a5 := Step(a4); var a6 := Step(a5); var a7 := Step(a6);
    var b1 := Step(b); var b2 := Step(b1); var b3 := Step(b2); var b4 := Step(b3);
    var b5 := Step(b4); var b6 := Step(b5); var b7 := Step(b6);
    StepInjective(a7, b7); StepInjective(a6, b6); StepInjective(a5, b5); StepInjective(a4, b4);
    StepInjective(a3, b3); StepInjective(a2, b2); StepInjective(a1, b1); StepInjective(a, b);
  }

  lemma Shift8OfHighByte(c: bv16)
    requires Low(c) == 0
    ensures Shift8(c) == Wide(High(c))
  {
    FourZeros(c);
    FourZeros(c >> 4);
    assert (c >> 4) >> 4 == c >> 8 && c >> 8 == Wide(High(c));
    hide Shift4, Wide, High;
  }

  lemma FourZeros(c: bv16)
    requires c & 0x0f == 0
    ensures Shift4(c) == c >> 4
  {
    EvenSteps(c);
    EvenSteps(c >> 2);
    assert (c >> 2) >> 2 == c >> 4;
    hide Shift2;
  }

  lemma EvenSteps(c: bv16)
    requires c & 0x03 == 0
    ensures Shift2(c) == c >> 2
  {
    assert Step(c) == c >> 1;
    assert Step(c >> 1) == (c >> 1) >> 1;
  }

  function Entry(table: seq<bv16>, i: byte): bv16
    requires |table| == 256
  {
    table[i as nat]
  }

  ghost predicate IsCrcTable(table: seq<bv16>) {
    |table| == 256 && forall i: byte :: Entry(table, i) == Shift8(Wide(i))
  }

  /** The update used on the receive path: one lookup in place of eight shifts. */
  function TableStep(table: seq<bv16>, c: bv16, b: byte): bv16
    requires |table| == 256
  {
    Xor(Wide(High(c)), Entry(table, Low(c) ^ b))
  }

  /** For every register value and byte, the lookup equals eight bitwise shifts. */
  lemma TableStepIsByteStep(table: seq<bv16>, c: bv16, b: byte)
    requires IsCrcTable(table)
    ensures TableStep(table, c, b) == ByteStep(c, b)
  {
    hide Shift8, Entry, Xor, Wide, Top, Low, High;
    TopLowSplit(c, b);
    Shift8Linear(Top(c), Wide(Low(c) ^ b));
    Shift8OfHighByte(Top(c));
  }

  // ----- the residue ------------------------------------------------------------

  lemma RegisterAppend(bytes: seq<byte>, b: byte)
    ensures Register(bytes + [b]) == ByteStep(Register(bytes), b)
  {
    hide ByteStep;
    assert (bytes + [b])[..|bytes|] == bytes;
  }

  /** Two byte steps shift the register combined with both bytes sixteen times. */
  lemma TwoByteSteps(c: bv16, lo: byte, hi: byte)
    ensures ByteStep(ByteStep(c, lo), hi) == Shift8(Shift8(Xor(c, Join(lo, hi))))
  {
    hide Shift8, Xor, Wide, Upper, Low, High, Join;
    JoinIsXor(lo, hi);
    XorLaws(c, Wide(lo), Upper(hi));
    Shift8Linear(Xor(c, Wide(lo)), Upper(hi));
    UpperByte(hi);
    Shift8OfHighByte(Upper(hi));
  }

  lemma ResidueOfAllOnes()
    ensures Shift8(Shift8(0xffff)) == RESIDUE
  {
    assert Step(0xffff) == 0xdffe; assert Step(0xdffe) == 0x6fff;
    assert Step(0x6fff) == 0x97fe; assert Step(0x97fe) == 0x4bff;
    assert Step(0x4bff) == 0x85fe; assert Step(0x85fe) == 0x42ff;
    assert Step(0x42ff) == 0x817e; assert Step(0x817e) == 0x40bf;
    assert Shift8(0xffff) == 0x40bf;
    assert Step(0x40bf) == 0x805e; assert Step(0x805e) == 0x402f;
    assert Step(0x402f) == 0x8016; assert Step(0x8016) == 0x400b;
    assert Step(0x400b) == 0x8004; assert Step(0x8004) == 0x4002;
    assert Step(0x4002) == 0x2001; assert Step(0x2001) == 0xb001;
    assert Shift8(0x40bf) == 0xb001;
  }

  /**
   * A payload followed by two bytes leaves the residue exactly when the two
   * bytes are the transmitted CRC of the payload.
   */
  lemma ResidueIffCrc(payload: seq<byte>, lo: byte, hi: byte)
    ensures Register(payload + [lo, hi]) == RESIDUE <==> Join(lo, hi) == Crc16(payload)
  {
    hide Shift8, Join, ByteStep, Xor, Register;
    var c, j := Register(payload), Join(lo, hi);
    assert payload + [lo, hi] == (payload + [lo]) + [hi];
    RegisterAppend(payload, lo);
    RegisterAppend(payload + [lo], hi);
    TwoByteSteps(c, lo, hi);
    ResidueOfAllOnes();
    XorLaws(c, j, 0);
    XorLaws(j, c, 0);
    if Register(payload + [lo, hi]) == RESIDUE {
      Shift8Injective(Shift8(Xor(c, j)), Shift8(0xffff));
      Shift8Injective(Xor(c, j), 0xffff);
    }
    XorLaws(c, 0xffff, 0);
    XorLaws(0xffff, c, 0);
  }

  // ----- burst detection -----------------------------------------------------

  function BitStep(c: bv16, bit: bool): bv16 {
    Step(Xor(c, Bit(bit)))
  }

  /** The register after a bit string, from an arbitrary starting value. */
  function RegisterBits(c: bv16, bits: seq<bool>): bv16 {
    if bits == [] then c
    else BitStep(RegisterBits(c, bits[..|bits| - 1]), bits[|bits| - 1])
  }

  lemma RegisterBitsAppend(c: bv16, bits: seq<bool>, bit: bool)
    ensures RegisterBits(c, bits + [bit]) == BitStep(RegisterBits(c, bits), bit)
  {
    hide BitStep;
    assert (bits + [bit])[..|bits|] == bits;
  }

  lemma RegisterBitsOne(c: bv16, bit: bool)
    ensures RegisterBits(c, [bit]) == BitStep(c, bit)
  {
    RegisterBitsAppend(c, [], bit);
    assert [] + [bit] == [bit];
  }

  lemma {:induction false} RegisterBitsConcat(c: bv16, a: seq<bool>, b: seq<bool>)
    ensures RegisterBits(c, a + b) == RegisterBits(RegisterBits(c, a), b)
    decreases |b|
  {
    hide BitStep;
    if b == [] {
      assert a + b == a;
    } else {
      assert (a + b)[..|a + b| - 1] == a + b[..|b| - 1];
      RegisterBitsConcat(c, a, b[..|b| - 1]);
    }
  }

  lemma MixLow(x: bv16)
    ensures x == Xor(Bit(Odd(x)), Double(Half(x)))
    ensures !Odd(Double(Half(x))) && Half(Double(Half(x))) == Half(x)
  {}

  /** Mixing in a whole word is mixing in its low bit and, one shift later, the rest. */
  lemma MixOne(r: bv16, x: bv16)
    ensures Step(Xor(r, x)) == Xor(BitStep(r, Odd(x)), Half(x))
  {
    hide Xor, Odd, Half, Bit, Double;
    MixLow(x);
    XorLaws(r, Bit(Odd(x)), Double(Half(x)));
    assert Step(Xor(r, x)) == Step(Xor(Xor(r, Bit(Odd(x))), Double(Half(x))));
    StepLinear(Xor(r, Bit(Odd(x))), Double(Half(x)));
    assert Step(Double(Half(x))) == Half(x);
  }

  /** The halvings of a byte expose its bits in transmission order. */
  lemma HalvedBits(b: byte)
    ensures var x0 := Wide(b); var x1 := Half(x0); var x2 := Half(x1); var x3 := Half(x2);
            var x4 := Half(x3); var x5 := Half(x4); var x6 := Half(x5); var x7 := Half(x6);
            && Half(x7) == 0
            && ByteBits(b) == [Odd(x0), Odd(x1), Odd(x2), Odd(x3), Odd(x4), Odd(x5), Odd(x6), Odd(x7)]
  {
    var x := b as bv16;
    assert (x >> 1) >> 1 == x >> 2 && (x >> 2) >> 1 == x >> 3 && (x >> 3) >> 1 == x >> 4;
    assert (x >> 4) >> 1 == x >> 5 && (x >> 5) >> 1 == x >> 6 && (x >> 6) >> 1 == x >> 7 && (x >> 7) >> 1 == 0;
    assert (b & 1 != 0) == (x & 1 != 0) && (b & 2 != 0) == ((x >> 1) & 1 != 0);
    assert (b & 4 != 0) == ((x >> 2) & 1 != 0) && (b & 8 != 0) == ((x >> 3) & 1 != 0);
    assert (b & 16 != 0) == ((x >> 4) & 1 != 0) && (b & 32 != 0) == ((x >> 5) & 1 != 0);
    assert (b & 64 != 0) == ((x >> 6) & 1 != 0) && (b & 128 != 0) == ((x >> 7) & 1 != 0);
  }

  /** Eight bit steps are one byte step. */
  lemma EightBitSteps(c: bv16, b: byte)
    ensures RegisterBits(c, ByteBits(b)) == ByteStep(c, b)
  {
    hide Step, BitStep, ByteBits, RegisterBits, Xor, Odd, Half, Wide;
    HalvedBits(b);
    var x0 := Wide(b); var x1 := Half(x0); var x2 := Half(x1); var x3 := Half(x2);
    var x4 := Half(x3); var x5 := Half(x4); var x6 := Half(x5); var x7 := Half(x6);
    var r1 := BitStep(c, Odd(x0)); MixOne(c, x0);
    var r2 := BitStep(r1, Odd(x1)); MixOne(r1, x1);
    var r3 := BitStep(r2, Odd(x2)); MixOne(r2, x2);
    var r4 := BitStep(r3, Odd(x3)); MixOne(r3, x3);
    var r5 := BitStep(r4, Odd(x4)); MixOne(r4, x4);
    var r6 := BitStep(r5, Odd(x5)); MixOne(r5, x5);
    var r7 := BitStep(r6, Odd(x6)); MixOne(r6, x6);
    var r8 := BitStep(r7, Odd(x7)); MixOne(r7, x7);
    XorLaws(r8, 0, 0);
    EightUnrolled(c, ByteBits(b));
  }

  lemma RegisterBitsFront(c: bv16, bit: bool, rest: seq<bool>)
    ensures RegisterBits(c, [bit] + rest) == RegisterBits(BitStep(c, bit), rest)
  {
    hide BitStep;
    RegisterBitsConcat(c, [bit], rest);
    RegisterBitsOne(c, bit);
  }

  lemma RegisterBitsNil(c: bv16, bits: seq<bool>)
    requires |bits| == 0
    ensures RegisterBits(c, bits) == c
  {}

  lemma RegisterBitsDrop(c: bv16, bits: seq<bool>, k: nat)
    requires k < |bits|
    ensures RegisterBits(c, bits[k..]) == RegisterBits(BitStep(c, bits[k]), bits[k + 1..])
  {
    hide BitStep, RegisterBits;
    assert bits[k..] == [bits[k]] + bits[k + 1..];
    RegisterBitsFront(c, bits[k], bits[k + 1..]);
  }

  lemma EightUnrolled(c: bv16, bits: seq<bool>)
    requires |bits| == 8
    ensures RegisterBits(c, bits) ==
      BitStep(BitStep(BitStep(BitStep(BitStep(BitStep(BitStep(BitStep(c,
        bits[0]), bits[1]), bits[2]), bits[3]), bits[4]), bits[5]), bits[6]), bits[7])
  {
    hide BitStep, RegisterBits;
    var c1 := BitStep(c, bits[0]); var c2 := BitStep(c1, bits[1]); var c3 := BitStep(c2, bits[2]);
    var c4 := BitStep(c3, bits[3]); var c5 := BitStep(c4, bits[4]); var c6 := BitStep(c5, bits[5]);
    var c7 := BitStep(c6, bits[6]); var c8 := BitStep(c7, bits[7]);
    RegisterBitsNil(c8, bits[8..]);
    assert bits[0..] == bits;
    RegisterBitsDrop(c, bits, 0); RegisterBitsDrop(c1, bits, 1); RegisterBitsDrop(c2, bits, 2);
    RegisterBitsDrop(c3, bits, 3); RegisterBitsDrop(c4, bits, 4); RegisterBitsDrop(c5, bits, 5);
    RegisterBitsDrop(c6, bits, 6); RegisterBitsDrop(c7, bits, 7);
  }

  lemma {:induction false} RegisterIsBitwise(bytes: seq<byte>)
    ensures Register(bytes) == RegisterBits(0xffff, BytesToBits(bytes))
  {
    hide ByteBits, ByteStep, BitStep;
    if bytes != [] {
      var n := |bytes| - 1;
      RegisterIsBitwise(bytes[..n]);
      RegisterBitsConcat(0xffff, BytesToBits(bytes[..n]), ByteBits(bytes[n]));
      EightBitSteps(RegisterBits(0xffff, BytesToBits(bytes[..n])), bytes[n]);
    }
  }

  lemma BitStepInjective(x: bv16, y: bv16, bit: bool)
    requires BitStep(x, bit) == BitStep(y, bit)
    ensures x == y
  {
    hide Step, Xor, Bit;
    StepInjective(Xor(x, Bit(bit)), Xor(y, Bit(bit)));
    XorLaws(x, Bit(bit), 0);
    XorLaws(y, Bit(bit), 0);
  }

  /** A register difference is never lost while both sides shift the same bits. */
  lemma {:induction false} SameSuffixKeepsDifference(c: bv16, d: bv16, bits: seq<bool>)
    requires c != d
    ensures RegisterBits(c, bits) != RegisterBits(d, bits)
  {
    hide BitStep;
    if bits != [] {
      var n := |bits| - 1;
      SameSuffixKeepsDifference(c, d, bits[..n]);
      var x, y := RegisterBits(c, bits[..n]), RegisterBits(d, bits[..n]);
      if BitStep(x, bits[n]) == BitStep(y, bits[n]) {
        BitStepInjective(x, y, bits[n]);
      }
    }
  }

  function TopBit(c: bv16): bool { c & 0x8000 != 0 }

  /** The `k` most significant bits of `c` are zero. */
  predicate TopClear(c: bv16, k: nat)
    decreases k
  {
    k == 0 || (!TopBit(c) && TopClear(Double(c), k - 1))
  }

  lemma TopBitXor(a: bv16, b: bv16)
    ensures TopBit(Xor(a, b)) == (TopBit(a) != TopBit(b))
  {}

  lemma DoubleXor(a: bv16, b: bv16)
    ensures Double(Xor(a, b)) == Xor(Double(a), Double(b))
  {}

  lemma {:induction false} TopClearXor(a: bv16, b: bv16, k: nat)
    requires TopClear(a, k) && TopClear(b, k)
    ensures TopClear(Xor(a, b), k)
    decreases k
  {
    hide TopBit, Xor, Double;
    if k > 0 {
      TopBitXor(a, b);
      DoubleXor(a, b);
      TopClearXor(Double(a), Double(b), k - 1);
    }
  }

  lemma {:induction false} TopClearFewer(a: bv16, k: nat, m: nat)
    requires TopClear(a, k) && m <= k
    ensures TopClear(a, m)
    decreases m
  {
    if m > 0 {
      TopClearFewer(Double(a), k - 1, m - 1);
    }
  }

  lemma {:induction false} ZeroIsClear(k: nat)
    ensures TopClear(0, k)
  {
    if k > 0 {
      assert Double(0) == 0;
      ZeroIsClear(k - 1);
    }
  }

  lemma OneIsClear(bit: bool, k: nat)
    requires k <= 15
    ensures TopClear(Bit(bit), k)
  {
    if bit {
      var d1 := Double(1); var d2 := Double(d1); var d3 := Double(d2); var d4 := Double(d3); var d5 := Double(d4);
      var d6 := Double(d5); var d7 := Double(d6); var d8 := Double(d7); var d9 := Double(d8); var d10 := Double(d9);
      var d11 := Double(d10); var d12 := Double(d11); var d13 := Double(d12); var d14 := Double(d13);
      assert TopClear(d14, 1) && TopClear(d13, 2) && TopClear(d12, 3) && TopClear(d11, 4) && TopClear(d10, 5);
      assert TopClear(d9, 6) && TopClear(d8, 7) && TopClear(d7, 8) && TopClear(d6, 9) && TopClear(d5, 10);
      assert TopClear(d4, 11) && TopClear(d3, 12) && TopClear(d2, 13) && TopClear(d1, 14) && TopClear(1, 15);
      TopClearFewer(1, 15, k);
    } else {
      ZeroIsClear(k);
    }
  }

  lemma UnstepClear(c: bv16)
    requires !TopBit(c)
    ensures Unstep(c) == Double(c)
  {}

  lemma EqualBits(x: bool, y: bool, e: bv16)
    requires Xor(Bit(x), Bit(y)) == Double(e) && !TopBit(e)
    ensures x == y && e == 0
  {}

  /** One step backwards: the difference before a step from the difference after it. */
  lemma BackOneStep(c: bv16, d: bv16, x: bool, y: bool, k: nat)
    requires 1 <= k <= 16
    requires TopClear(Xor(BitStep(c, x), BitStep(d, y)), k)
    ensures TopClear(Xor(c, d), k - 1)
    ensures c == d ==> x == y && BitStep(c, x) == BitStep(d, y)
  {
    hide Step, Unstep, Xor, Bit, TopBit, Double;
    var xb, yb := Bit(x), Bit(y);
    var p, q := Xor(c, xb), Xor(d, yb);
    var e := Xor(BitStep(c, x), BitStep(d, y));
    StepLinear(p, q);
    UnstepStep(Xor(p, q));
    UnstepClear(e);
    assert Xor(p, q) == Double(e);
    // c xor d is that doubled difference with the two input bits mixed back in
    Regroup(c, d, xb, yb);
    OneIsClear(x, k - 1);
    OneIsClear(y, k - 1);
    TopClearXor(xb, yb, k - 1);
    TopClearXor(Double(e), Xor(xb, yb), k - 1);
    if c == d {
      XorLaws(c, c, 0);
      XorLaws(Xor(xb, yb), Double(e), 0);
      XorLaws(Double(e), Xor(xb, yb), 0);
      EqualBits(x, y, e);
    }
  }

  lemma Regroup(c: bv16, d: bv16, x: bv16, y: bv16)
    ensures Xor(c, d) == Xor(Xor(Xor(c, x), Xor(d, y)), Xor(x, y))
  {
    hide Xor;
    XorLaws(x, y, 0);
    XorLaws(Xor(c, x), Xor(d, y), Xor(y, x));
    XorLaws(d, y, 0);
    XorLaws(Xor(d, y), y, x);
    XorLaws(c, x, Xor(d, x));
    XorLaws(x, d, 0);
    XorLaws(d, x, 0);
    XorLaws(x, Xor(x, d), 0);
  }

  /**
   * Two strings of sixteen or fewer bits that lead from the same register to
   * the same register are the same string.
   */
  lemma {:induction false} ShortStringsDiffer(c: bv16, d: bv16, u: seq<bool>, v: seq<bool>)
    requires |u| == |v| <= 16
    requires RegisterBits(c, u) == RegisterBits(d, v)
    ensures TopClear(Xor(c, d), 16 - |u|)
    ensures c == d ==> u == v
    decreases |u|
  {
    hide BitStep, RegisterBits, TopClear, Xor;
    if u == [] {
      RegisterBitsNil(c, u);
      RegisterBitsNil(d, v);
      XorLaws(c, d, 0);
      ZeroIsClear(16);
    } else {
      assert u == [u[0]] + u[1..] && v == [v[0]] + v[1..];
      RegisterBitsFront(c, u[0], u[1..]);
      RegisterBitsFront(d, v[0], v[1..]);
      ShortStringsDiffer(BitStep(c, u[0]), BitStep(d, v[0]), u[1..], v[1..]);
      BackOneStep(c, d, u[0], v[0], 17 - |u|);
    }
  }

  /** Two strings of equal length that agree outside `[from, from + width)`. */
  ghost predicate DifferOnlyWithin(a: seq<bool>, b: seq<bool>, from: nat, width: nat) {
    && |a| == |b|
    && forall i | 0 <= i < |a| && !(from <= i < from + width) :: a[i] == b[i]
  }

  /**
   * Section 8.3.5.2: every error confined to sixteen consecutive bits changes
   * the register, wherever the burst starts.
   */
  lemma BurstIsDetected(a: seq<bool>, b: seq<bool>, from: nat)
    requires DifferOnlyWithin(a, b, from, 16)
    requires a != b
    ensures RegisterBits(0xffff, a) != RegisterBits(0xffff, b)
  {
    var start := if from <= |a| then from else |a|;
    var end := if start + 16 <= |a| then start + 16 else |a|;
    var u, v := a[start..end], b[start..end];
    assert a == a[..start] + u + a[end..] && b == b[..start] + v + b[end..];
    assert a[..start] == b[..start] && a[end..] == b[end..];
    hide BitStep, RegisterBits;
    var c := RegisterBits(0xffff, a[..start]);
    RegisterBitsConcat(0xffff, a[..start], u);
    RegisterBitsConcat(0xffff, b[..start], v);
    if RegisterBits(c, u) == RegisterBits(c, v) {
      ShortStringsDiffer(c, c, u, v);
    }
    RegisterBitsConcat(0xffff, a[..start] + u, a[end..]);
    RegisterBitsConcat(0xffff, b[..start] + v, b[end..]);
    SameSuffixKeepsDifference(RegisterBits(c, u), RegisterBits(c, v), a[end..]);
  }

  // ----- CRC-5 ------------------------------------------------------------------

  /** One step of the token CRC: the register and the remaining token bits. */
  function Crc5Step(crc: bv8, token: bv16): bv8 {
    if (crc ^ ((token & 0xff) as bv8)) & 1 != 0 then (crc >> 1) ^ 0x14 else crc >> 1
  }

  function Crc5Run(crc: bv8, token: bv16, bits: nat): bv8
    decreases bits
  {
    if bits == 0 then crc else Crc5Run(Crc5Step(crc, token), Half(token), bits - 1)
  }

  /** The token and the code in the last sixteen bits of a token packet. */
  function Field(c: bv16): bv16 { c & 0x7ff }
  function Code(c: bv16): byte { (c >> 11) as byte }
  function CodeBits(high: byte): byte { high >> 3 }

  function Crc5(token: bv16): bv8 {
    Crc5Run(0x1f, Field(token), 11) ^ 0x1f
  }

  lemma Crc5StepLinear(x: byte, a: bv16, y: byte, b: bv16)
    ensures Xor8(Crc5Step(x, a), Crc5Step(y, b)) == Crc5Step(Xor8(x, y), Xor(a, b))
  {}

  lemma {:induction false} Crc5RunLinear(x: byte, a: bv16, y: byte, b: bv16, bits: nat)
    ensures Xor8(Crc5Run(x, a, bits), Crc5Run(y, b, bits)) == Crc5Run(Xor8(x, y), Xor(a, b), bits)
    decreases bits
  {
    Crc5StepLinear(x, a, y, b);
    HalfXor(a, b);
    hide Crc5Step, Xor, Xor8, Half;
    if bits > 0 {
      Crc5RunLinear(Crc5Step(x, a), Half(a), Crc5Step(y, b), Half(b), bits - 1);
    }
  }

  /** What eleven steps from an empty register leave of a difference between tokens. */
  function Remainder5(d: bv16): byte {
    var d4 := Half(Half(Half(Half(d))));
    var d8 := Half(Half(Half(Half(d4))));
    ThreeBits(FourBits(FourBits(0, d), d4), d8)
  }

  function FourBits(crc: byte, d: bv16): byte {
    Crc5Step(Crc5Step(Crc5Step(Crc5Step(crc, d), Half(d)), Half(Half(d))), Half(Half(Half(d))))
  }

  function ThreeBits(crc: byte, d: bv16): byte {
    Crc5Step(Crc5Step(Crc5Step(crc, d), Half(d)), Half(Half(d)))
  }

  lemma OneRunStep(crc: byte, d: bv16, bits: nat)
    ensures Crc5Run(crc, d, bits + 1) == Crc5Run(Crc5Step(crc, d), Half(d), bits)
  {
    hide Crc5Step, Half;
  }

  lemma FourSteps(crc: byte, d: bv16, bits: nat)
    ensures Crc5Run(crc, d, bits + 4) == Crc5Run(FourBits(crc, d), Half(Half(Half(Half(d)))), bits)
  {
    hide Crc5Step, Half, Crc5Run;
    OneRunStep(crc, d, bits + 3);
    OneRunStep(Crc5Step(crc, d), Half(d), bits + 2);
    OneRunStep(Crc5Step(Crc5Step(crc, d), Half(d)), Half(Half(d)), bits + 1);
    OneRunStep(Crc5Step(Crc5Step(Crc5Step(crc, d), Half(d)), Half(Half(d))), Half(Half(Half(d))), bits);
  }

  lemma ThreeSteps(crc: byte, d: bv16)
    ensures Crc5Run(crc, d, 3) == ThreeBits(crc, d)
  {
    hide Crc5Step, Half;
    OneRunStep(crc, d, 2);
    OneRunStep(Crc5Step(crc, d), Half(d), 1);
    OneRunStep(Crc5Step(Crc5Step(crc, d), Half(d)), Half(Half(d)), 0);
  }

  lemma RunIsRemainder(d: bv16)
    ensures Crc5Run(0, d, 11) == Remainder5(d)
  {
    hide Half, FourBits, ThreeBits, Crc5Run;
    var d4 := Half(Half(Half(Half(d))));
    FourSteps(0, d, 7);
    FourSteps(FourBits(0, d), d4, 3);
    ThreeSteps(FourBits(FourBits(0, d), d4), Half(Half(Half(Half(d4)))));
  }

  /** What the last sixteen bits of a token packet carry: the token, then its code. */
  function TokenWord(token: bv16, code: byte): bv16 { token | ((code as bv16) << 11) }

  const RESIDUE5: byte := 0x06

  lemma {:induction false} RunInTwo(crc: byte, word: bv16, bits: nat, more: nat)
    ensures Crc5Run(crc, word, bits + more) == Crc5Run(Crc5Run(crc, word, bits), Shifted(word, bits), more)
    decreases bits
  {
    hide Crc5Step, Half;
    if bits > 0 {
      RunInTwo(Crc5Step(crc, word), Half(word), bits - 1, more);
    }
  }

  function Shifted(word: bv16, n: nat): bv16 { if n == 0 then word else Shifted(Half(word), n - 1) }

  lemma ShiftedEleven(word: bv16)
    ensures Shifted(word, 11) == word >> 11
  {
    var w4 := Half(Half(Half(Half(word))));
    var w8 := Half(Half(Half(Half(w4))));
    ShiftedFour(word, 7);
    ShiftedFour(w4, 3);
    assert Shifted(w8, 3) == Shifted(Half(w8), 2) == Shifted(Half(Half(w8)), 1) == Shifted(Half(Half(Half(w8))), 0);
    hide Shifted;
  }

  lemma ShiftedFour(word: bv16, n: nat)
    ensures Shifted(word, n + 4) == Shifted(Half(Half(Half(Half(word)))), n)
  {
    hide Half;
    assert Shifted(word, n + 4) == Shifted(Half(word), n + 3) == Shifted(Half(Half(word)), n + 2)
        == Shifted(Half(Half(Half(word))), n + 1);
  }

  /** A run looks at no more bits than it has steps. */
  lemma {:induction false} RunIgnoresRest(crc: byte, a: bv16, b: bv16, bits: nat)
    requires AgreeIn(a, b, bits)
    ensures Crc5Run(crc, a, bits) == Crc5Run(crc, b, bits)
    decreases bits
  {
    hide Half;
    if bits > 0 {
      SameStep(crc, a, b);
      hide Crc5Step;
      RunIgnoresRest(Crc5Step(crc, a), Half(a), Half(b), bits - 1);
    }
  }

  /** The first bits of two words are the same. */
  predicate AgreeIn(a: bv16, b: bv16, bits: nat) {
    bits == 0 || (Odd(a) == Odd(b) && AgreeIn(Half(a), Half(b), bits - 1))
  }

  lemma SameStep(crc: byte, a: bv16, b: bv16)
    requires Odd(a) == Odd(b)
    ensures Crc5Step(crc, a) == Crc5Step(crc, b)
  {
    OddStep(crc, a);
    OddStep(crc, b);
    hide Crc5Step, Odd;
  }

  lemma OddStep(crc: byte, a: bv16)
    ensures Crc5Step(crc, a) == Crc5Step(crc, Bit(Odd(a)))
  {}

  lemma WordStartsWithToken(token: bv16, code: byte)
    requires token & 0xf800 == 0
    ensures AgreeIn(TokenWord(token, code), token, 11)
  {
    AgreeFour(TokenWord(token, code), token, 7);
    var a, b := Half(Half(Half(Half(TokenWord(token, code))))), Half(Half(Half(Half(token))));
    AgreeFour(a, b, 3);
    var c, d := Half(Half(Half(Half(a)))), Half(Half(Half(Half(b))));
    AgreeThree(c, d);
    BitsAgree(token, code);
    hide AgreeIn, TokenWord, Half, Odd;
  }

  lemma AgreeFour(a: bv16, b: bv16, n: nat)
    ensures AgreeIn(a, b, n + 4) <==>
      && Odd(a) == Odd(b) && Odd(Half(a)) == Odd(Half(b)) && Odd(Half(Half(a))) == Odd(Half(Half(b)))
      && Odd(Half(Half(Half(a)))) == Odd(Half(Half(Half(b))))
      && AgreeIn(Half(Half(Half(Half(a)))), Half(Half(Half(Half(b)))), n)
  {
    hide Half, Odd, AgreeIn;
    AgreeStep(a, b, n + 3);
    AgreeStep(Half(a), Half(b), n + 2);
    AgreeStep(Half(Half(a)), Half(Half(b)), n + 1);
    AgreeStep(Half(Half(Half(a))), Half(Half(Half(b))), n);
  }

  lemma AgreeStep(a: bv16, b: bv16, n: nat)
    ensures AgreeIn(a, b, n + 1) <==> Odd(a) == Odd(b) && AgreeIn(Half(a), Half(b), n)
  {
    hide Half, Odd;
  }

  lemma AgreeThree(a: bv16, b: bv16)
    ensures AgreeIn(a, b, 3) <==>
      Odd(a) == Odd(b) && Odd(Half(a)) == Odd(Half(b)) && Odd(Half(Half(a))) == Odd(Half(Half(b)))
  {
    hide Half, Odd;
    AgreeStep(a, b, 2);
    AgreeStep(Half(a), Half(b), 1);
    AgreeStep(Half(Half(a)), Half(Half(b)), 0);
  }

  lemma BitsAgree(token: bv16, code: byte)
    requires token & 0xf800 == 0
    ensures var w := TokenWord(token, code);
      var a, b := Half(Half(Half(Half(w)))), Half(Half(Half(Half(token))));
      var c, d := Half(Half(Half(Half(a)))), Half(Half(Half(Half(b))));
      && Odd(w) == Odd(token) && Odd(Half(w)) == Odd(Half(token)) && Odd(Half(Half(w))) == Odd(Half(Half(token)))
      && Odd(Half(Half(Half(w)))) == Odd(Half(Half(Half(token))))
      && Odd(a) == Odd(b) && Odd(Half(a)) == Odd(Half(b)) && Odd(Half(Half(a))) == Odd(Half(Half(b)))
      && Odd(Half(Half(Half(a)))) == Odd(Half(Half(Half(b))))
      && Odd(c) == Odd(d) && Odd(Half(c)) == Odd(Half(d)) && Odd(Half(Half(c))) == Odd(Half(Half(d)))
  {}

  lemma FiveSteps(crc: byte, d: bv16)
    ensures Crc5Run(crc, d, 5) == Crc5Step(FourBits(crc, d), Half(Half(Half(Half(d)))))
  {
    hide Crc5Step, Half;
    FourSteps(crc, d, 1);
    OneRunStep(FourBits(crc, d), Half(Half(Half(Half(d)))), 0);
    hide FourBits;
  }

  /** Five more steps over a code end at the residue exactly for the inverted register. */
  lemma CodeResidueIff(crc: byte, code: byte)
    requires crc & 0xe0 == 0 && code & 0xe0 == 0
    ensures Crc5Step(FourBits(crc, code as bv16), Half(Half(Half(Half(code as bv16))))) == RESIDUE5
      <==> code == Xor8(crc, 0x1f)
  {}

  lemma {:induction false} FiveBitRegister(crc: byte, token: bv16, bits: nat)
    requires crc & 0xe0 == 0
    ensures Crc5Run(crc, token, bits) & 0xe0 == 0
    decreases bits
  {
    if bits > 0 {
      FiveBitStep(crc, token);
      hide Crc5Step, Half;
      FiveBitRegister(Crc5Step(crc, token), Half(token), bits - 1);
    }
  }

  lemma FiveBitStep(crc: byte, token: bv16)
    requires crc & 0xe0 == 0
    ensures Crc5Step(crc, token) & 0xe0 == 0
  {}

  lemma CodeOfWord(token: bv16, code: byte)
    requires token & 0xf800 == 0 && code & 0xe0 == 0
    ensures TokenWord(token, code) >> 11 == code as bv16 && Field(token) == token
  {}

  /**
   * Section 8.3.5.1 of USB 2.0: the register run over a token and its code, in
   * transmission order, ends at the fixed residue 01100 exactly when the code
   * is the token's CRC-5.
   */
  lemma Residue5IffCrc(token: bv16, code: byte)
    requires token & 0xf800 == 0 && code & 0xe0 == 0
    ensures Crc5Run(0x1f, TokenWord(token, code), 16) == RESIDUE5 <==> code == Crc5(token)
  {
    hide Crc5Run, Crc5Step, Half, Shifted, TokenWord, Xor8, FourBits, Field, Crc5;
    var word := TokenWord(token, code);
    var crc := Crc5Run(0x1f, token, 11);
    RunInTwo(0x1f, word, 11, 5);
    WordStartsWithToken(token, code);
    RunIgnoresRest(0x1f, word, token, 11);
    ShiftedEleven(word);
    CodeOfWord(token, code);
    FiveSteps(crc, code as bv16);
    FiveBitRegister(0x1f, token, 11);
    CodeResidueIff(crc, code);
    Crc5IsRun(token);
  }

  /** The code of the zero token. */
  lemma ZeroToken()
    ensures Crc5(0) == 0x02
  {
    var d: bv16 := 0;
    FourSteps(0x1f, 0, 7);
    FourSteps(FourBits(0x1f, 0), 0, 3);
    ThreeSteps(FourBits(FourBits(0x1f, 0), 0), 0);
    assert Half(0) == 0 && Field(0) == 0;
    assert ThreeBits(FourBits(FourBits(0x1f, 0), 0), 0) == 0x1d;
    hide Crc5Run, FourBits, ThreeBits;
  }

  /** One or two bits in any places, or any damage within five consecutive bits. */
  predicate SmallDamage(e: bv16) {
    var rest, lowest := e & (e - 1), e & (0 - e);
    e != 0 && (rest & (rest - 1) == 0 || e & !(31 * lowest) == 0)
  }

  /** Among it are any one or two bits, and any pattern of five bits anywhere. */
  lemma SmallDamages(i: bv4, j: bv4, pattern: bv16)
    requires 0 < pattern < 32
    ensures var one: bv16 := 1; SmallDamage((one << i) | (one << j))
    ensures pattern << i != 0 ==> SmallDamage(pattern << i)
  {}

  lemma SmallDamageShows(e: bv16)
    requires SmallDamage(e)
    ensures Remainder5(Field(e)) != Code(e)
  {}

  /** Two tokens' codes differ by the remainder of the difference between the tokens. */
  lemma Crc5Difference(a: bv16, b: bv16)
    ensures Xor8(Crc5(a), Crc5(b)) == Remainder5(Field(Xor(a, b)))
  {
    hide Crc5Run, Remainder5, Xor, Xor8, Field, Crc5;
    var x, y := Field(a), Field(b);
    Crc5RunLinear(0x1f, x, 0x1f, y, 11);
    RunIsRemainder(Xor(x, y));
    FieldXor(a, b);
    Cancels(Crc5Run(0x1f, x, 11), Crc5Run(0x1f, y, 11));
    Crc5IsRun(a);
    Crc5IsRun(b);
  }

  lemma Crc5IsRun(token: bv16)
    ensures Crc5(token) == Xor8(Crc5Run(0x1f, Field(token), 11), 0x1f)
  {
    hide Crc5Run, Field;
  }

  lemma FieldXor(a: bv16, b: bv16)
    ensures Xor(Field(a), Field(b)) == Field(Xor(a, b))
  {}

  lemma Cancels(p: byte, q: byte)
    ensures Xor8(Xor8(p, 0x1f), Xor8(q, 0x1f)) == Xor8(p, q) && Xor8(0x1f, 0x1f) == 0
  {}

  /** The CRC-5 of an eleven-bit token, one bit per iteration. */
  method Crc5Token(token: bv16) returns (result: bv8)
    ensures result == Crc5(token)
  {
    hide Crc5Step;
    var remaining, crc: bv8 := token & 0x7ff, 0x1f;
    for bit := 0 to 11
      invariant Crc5Run(crc, remaining, 11 - bit) == Crc5Run(0x1f, token & 0x7ff, 11)
    {
      crc := Crc5Step(crc, remaining);
      remaining := remaining >> 1;
    }
    result := crc ^ 0x1f;
  }

  /** The CRC-16 of a data payload, computed bit by bit as the packet builder does. */
  method Crc16Data(data: seq<byte>) returns (crc: bv16)
    ensures crc == Crc16(data)
  {
    crc := 0xffff;
    for i := 0 to |data|
      invariant crc == Register(data[..i])
    {
      hide Step, Xor, Wide;
      assert data[..i + 1][..i] == data[..i];
      var start := Xor(crc, Wide(data[i]));
      crc := start;
      for bit := 0 to 8
        invariant crc == StepTimes(start, bit)
      {
        crc := Step(crc);
      }
      StepEightTimes(start);
    }
    assert data[..|data|] == data;
    crc := Xor(crc, 0xffff);
  }

  function StepTimes(c: bv16, n: nat): bv16 {
    if n == 0 then c else Step(StepTimes(c, n - 1))
  }

  lemma StepEightTimes(c: bv16)
    ensures StepTimes(c, 8) == Shift8(c)
  {
    hide Step;
    assert StepTimes(c, 0) == c;
    assert StepTimes(c, 1) == Step(StepTimes(c, 0)) && StepTimes(c, 2) == Step(StepTimes(c, 1));
    assert StepTimes(c, 3) == Step(StepTimes(c, 2)) && StepTimes(c, 4) == Step(StepTimes(c, 3));
    assert StepTimes(c, 5) == Step(StepTimes(c, 4)) && StepTimes(c, 6) == Step(StepTimes(c, 5));
    assert StepTimes(c, 7) == Step(StepTimes(c, 6)) && StepTimes(c, 8) == Step(StepTimes(c, 7));
  }

  /** Build the lookup table in place, one entry per byte value. */
  method MakeCrc16Table() returns (table: array<bv16>)
    ensures fresh(table)
    ensures IsCrcTable(table[..])
  {
    table := new bv16[256];
    for index := 0 to 256
      invariant forall i | 0 <= i < index :: table[i] == Shift8(Wide(i as byte))
    {
      hide Step, Shift8, Wide;
      var start := Wide(index as byte);
      var crc := start;
      for bit := 0 to 8
        invariant crc == StepTimes(start, bit)
      {
        crc := Step(crc);
      }
      StepEightTimes(start);
      table[index] := crc;
    }
    forall i: byte ensures Entry(table[..], i) == Shift8(Wide(i)) {
      hide Shift8, Wide;
      assert (i as nat) as byte == i;
    }
  }
}

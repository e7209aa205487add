/**
 The CRC-8 of the truck's messages: polynomial 0xD5, initial value 0xFF, bytes fed low bit
 first, and the remainder reflected at the end.  The check is proved to catch every error
 burst of up to eight bits, wherever it falls in the message, check byte included.
 */
module Crc8 {

  import opened Bytes
  import opened Powers

  const POLYNOMIAL: bv8 := 0xD5
  const SEED: bv8 := 0xFF

  function Shift(r: bv8): bv8 {
    if r & 0x80 != 0 then (r << 1) ^ POLYNOMIAL else r << 1
  }

  function FeedBit(r: bv8, bit: bool): bv8 {
    Shift(if bit then r ^ 0x80 else r)
  }

  function FeedBits(r: bv8, bits: seq<bool>): bv8 {
    if bits == [] then r else FeedBit(FeedBits(r, bits[..|bits| - 1]), bits[|bits| - 1])
  }

  function Digit(bit: bool): nat {
    if bit then 1 else 0
  }

  function Value(bits: seq<bool>): nat {
    if bits == [] then 0 else Digit(bits[0]) + 2 * Value(bits[1..])
  }

  /** The lowest `n` bits of `x`, the lowest first. */
  function Bits(x: nat, n: nat): (r: seq<bool>)
    ensures |r| == n
  {
    if n == 0 then [] else [x % 2 == 1] + Bits(x / 2, n - 1)
  }

  lemma {:induction false} ValueOfBits(x: nat, n: nat)
    requires x < PowerOfTwo(n)
    ensures Value(Bits(x, n)) == x
  {
    if n > 0 {
      ValueOfBits(x / 2, n - 1);
      assert Bits(x, n)[1..] == Bits(x / 2, n - 1);
    }
  }

  lemma {:induction false} BitsOfValue(bits: seq<bool>)
    ensures Bits(Value(bits), |bits|) == bits && Value(bits) < PowerOfTwo(|bits|)
  {
    if bits != [] {
      BitsOfValue(bits[1..]);
      assert Value(bits) / 2 == Value(bits[1..]);
    }
  }

  /** The bits of a message in the order the register takes them. */
  function BitsOf(m: seq<byte>): (r: seq<bool>)
    ensures |r| == 8 * |m|
  {
    if m == [] then [] else BitsOf(m[..|m| - 1]) + Bits(m[|m| - 1], 8)
  }

  /** The bits of the register, the top one first. */
  function RegisterBits(r: bv8): (bits: seq<bool>)
    ensures |bits| == 8
  {
    [r & 0x80 != 0, r & 0x40 != 0, r & 0x20 != 0, r & 0x10 != 0,
     r & 0x08 != 0, r & 0x04 != 0, r & 0x02 != 0, r & 0x01 != 0]
  }

  lemma ByteRange()
    ensures PowerOfTwo(8) == 256
  {
    assert PowerOfTwo(4) == 16;
    assert PowerOfTwo(6) == 64;
  }

  /** The remainder read with its top bit as the lowest. */
  function Reflected(r: bv8): byte {
    BitsOfValue(RegisterBits(r));
    ByteRange();
    Value(RegisterBits(r))
  }

  function Checksum(m: seq<byte>): byte {
    Reflected(FeedBits(SEED, BitsOf(m)))
  }

  /** The last byte is the checksum of the bytes before it. */
  predicate CrcOk(m: seq<byte>)
    requires |m| > 0
  {
    Checksum(m[..|m| - 1]) == m[|m| - 1]
  }

  method CheckMessageCrc(data: seq<byte>, size: nat) returns (ok: bool)
    requires 0 < size <= |data|
    ensures ok == CrcOk(data[..size])
  {
    var message: seq<byte> := [];
    for i := 0 to size - 1
      invariant message == data[..i]
    {
      message := message + [data[i]];
    }
    assert data[..size][..size - 1] == message;
    ok := Checksum(message) == data[size - 1];
  }

  // ----- feeding is injective --------------------------------------------------------------------

  lemma FeedBitInjective(r: bv8, s: bv8, bit: bool)
    ensures FeedBit(r, bit) == FeedBit(s, bit) ==> r == s
  {
  }

  lemma {:induction false} FeedBitsInjective(r: bv8, s: bv8, bits: seq<bool>)
    requires FeedBits(r, bits) == FeedBits(s, bits)
    ensures r == s
  {
    if bits != [] {
      hide FeedBit;
      var n := |bits| - 1;
      FeedBitInjective(FeedBits(r, bits[..n]), FeedBits(s, bits[..n]), bits[n]);
      FeedBitsInjective(r, s, bits[..n]);
    }
  }

  lemma {:induction false} FeedBitsConcat(r: bv8, a: seq<bool>, b: seq<bool>)
    ensures FeedBits(r, a + b) == FeedBits(FeedBits(r, a), b)
  {
    if b == [] {
      assert a + b == a;
    } else {
      hide FeedBit;
      var n := |b| - 1;
      assert (a + b)[..|a| + n] == a + b[..n];
      FeedBitsConcat(r, a, b[..n]);
    }
  }

  /** All bits below the top `k`. */
  function LowMask(k: nat): bv8
    requires k <= 8
  {
    match k
    case 0 => 0xFF
    case 1 => 0x7F
    case 2 => 0x3F
    case 3 => 0x1F
    case 4 => 0x0F
    case 5 => 0x07
    case 6 => 0x03
    case 7 => 0x01
    case 8 => 0x00
  }

  /** The two registers differ at most in their top `k` bits. */
  predicate AgreeBelow(r: bv8, s: bv8, k: nat)
    requires k <= 8
  {
    (r ^ s) & LowMask(k) == 0
  }

  /** One step back, registers that differ only in the top `k < 8` bits differed only in the
      top `k + 1`: the polynomial's low bit would have shown any other difference. */
  lemma StepBack(r: bv8, s: bv8, a: bool, b: bool, k: nat)
    requires k < 8 && AgreeBelow(FeedBit(r, a), FeedBit(s, b), k)
    ensures AgreeBelow(r, s, k + 1)
    ensures r == s ==> a == b
  {
  }

  lemma {:induction false} StepsBack(r: bv8, s: bv8, a: seq<bool>, b: seq<bool>, k: nat)
    requires |a| == |b| && k + |a| <= 8 && AgreeBelow(FeedBits(r, a), FeedBits(s, b), k)
    ensures AgreeBelow(r, s, k + |a|)
    decreases |a|
  {
    if a != [] {
      hide FeedBit, AgreeBelow;
      var n := |a| - 1;
      StepBack(FeedBits(r, a[..n]), FeedBits(s, b[..n]), a[n], b[n], k);
      StepsBack(r, s, a[..n], b[..n], k + 1);
    }
  }

  lemma FeedFirst(r: bv8, a: seq<bool>)
    requires a != []
    ensures FeedBits(r, a) == FeedBits(FeedBit(r, a[0]), a[1..])
  {
    hide FeedBit;
    FeedBitsConcat(r, a[..1], a[1..]);
    assert a[..1] + a[1..] == a;
    assert a[..1][..0] == [];
    assert FeedBits(r, a[..1]) == FeedBit(FeedBits(r, []), a[0]);
  }

  lemma AgreeOnAll(r: bv8)
    ensures AgreeBelow(r, r, 0)
  {
  }

  /** From one register value, up to eight bits are recovered from the value they lead to. */
  lemma {:induction false} WindowInjective(r: bv8, a: seq<bool>, b: seq<bool>)
    requires |a| == |b| <= 8 && FeedBits(r, a) == FeedBits(r, b)
    ensures a == b
    decreases |a|
  {
    if a != [] {
      hide FeedBit, FeedBits, AgreeBelow;
      FeedFirst(r, a);
      FeedFirst(r, b);
      AgreeOnAll(FeedBits(r, a));
      StepsBack(FeedBit(r, a[0]), FeedBit(r, b[0]), a[1..], b[1..], 0);
      StepBack(r, r, a[0], b[0], |a| - 1);
      WindowInjective(FeedBit(r, a[0]), a[1..], b[1..]);
    }
  }

  // ----- the residue ---------------------------------------------------------------------------------

  function Feed8(r: bv8, a0: bool, a1: bool, a2: bool, a3: bool, a4: bool, a5: bool, a6: bool, a7: bool): bv8 {
    FeedBit(FeedBit(FeedBit(FeedBit(FeedBit(FeedBit(FeedBit(FeedBit(r, a0), a1), a2), a3), a4), a5), a6), a7)
  }

  lemma FeedBitsIsFeed8(r: bv8, a: seq<bool>)
    requires |a| == 8
    ensures FeedBits(r, a) == Feed8(r, a[0], a[1], a[2], a[3], a[4], a[5], a[6], a[7])
  {
    hide FeedBit, FeedBits;
    var r1 := FeedBit(r, a[0]);
    var r2 := FeedBit(r1, a[1]);
    var r3 := FeedBit(r2, a[2]);
    var r4 := FeedBit(r3, a[3]);
    var r5 := FeedBit(r4, a[4]);
    var r6 := FeedBit(r5, a[5]);
    var r7 := FeedBit(r6, a[6]);
    FeedFirst(r, a); FeedFirst(r1, a[1..]); FeedFirst(r2, a[2..]); FeedFirst(r3, a[3..]);
    FeedFirst(r4, a[4..]); FeedFirst(r5, a[5..]); FeedFirst(r6, a[6..]); FeedFirst(r7, a[7..]);
    assert a[1..][1..] == a[2..] && a[2..][1..] == a[3..] && a[3..][1..] == a[4..];
    assert a[4..][1..] == a[5..] && a[5..][1..] == a[6..] && a[6..][1..] == a[7..] && a[7..][1..] == [];
    FeedNone(FeedBit(r7, a[7]));
  }

  lemma FeedNone(r: bv8)
    ensures FeedBits(r, []) == r
  {
  }

  /** Eight bits take the register to zero exactly when they are its own, top bit first. */
  lemma Feed8Zero(r: bv8, a0: bool, a1: bool, a2: bool, a3: bool, a4: bool, a5: bool, a6: bool, a7: bool)
    ensures Feed8(r, a0, a1, a2, a3, a4, a5, a6, a7) == 0 <==>
            && a0 == (r & 0x80 != 0) && a1 == (r & 0x40 != 0) && a2 == (r & 0x20 != 0) && a3 == (r & 0x10 != 0)
            && a4 == (r & 0x08 != 0) && a5 == (r & 0x04 != 0) && a6 == (r & 0x02 != 0) && a7 == (r & 0x01 != 0)
  {
  }

  lemma EightEqual(a: seq<bool>, b: seq<bool>)
    requires |a| == |b| == 8
    ensures a == b <==> && a[0] == b[0] && a[1] == b[1] && a[2] == b[2] && a[3] == b[3]
                        && a[4] == b[4] && a[5] == b[5] && a[6] == b[6] && a[7] == b[7]
  {
    if a[0] == b[0] && a[1] == b[1] && a[2] == b[2] && a[3] == b[3] &&
       a[4] == b[4] && a[5] == b[5] && a[6] == b[6] && a[7] == b[7] {
      forall i | 0 <= i < 8
        ensures a[i] == b[i]
      {
      }
    }
  }

  lemma Feed8ZeroRegister(r: bv8, a0: bool, a1: bool, a2: bool, a3: bool, a4: bool, a5: bool, a6: bool, a7: bool)
    ensures var g := RegisterBits(r);
            Feed8(r, a0, a1, a2, a3, a4, a5, a6, a7) == 0 <==>
            && a0 == g[0] && a1 == g[1] && a2 == g[2] && a3 == g[3]
            && a4 == g[4] && a5 == g[5] && a6 == g[6] && a7 == g[7]
  {
    hide Feed8;
    Feed8Zero(r, a0, a1, a2, a3, a4, a5, a6, a7);
  }

  lemma ZeroIffRegister(r: bv8, a: seq<bool>)
    requires |a| == 8
    ensures FeedBits(r, a) == 0 <==> a == RegisterBits(r)
  {
    hide Feed8, FeedBits, RegisterBits;
    FeedBitsIsFeed8(r, a);
    Feed8ZeroRegister(r, a[0], a[1], a[2], a[3], a[4], a[5], a[6], a[7]);
    EightEqual(a, RegisterBits(r));
  }

  lemma ResidueOfByte(r: bv8, b: byte)
    ensures FeedBits(r, Bits(b, 8)) == 0 <==> Reflected(r) == b
  {
    hide FeedBits, Bits, Value, RegisterBits;
    ZeroIffRegister(r, Bits(b, 8));
    ByteRange();
    ValueOfBits(b, 8);
    BitsOfValue(RegisterBits(r));
  }

  /** A message passes exactly when feeding all of it, check byte included, leaves zero. */
  lemma OkIffResidueZero(m: seq<byte>)
    requires |m| > 0
    ensures CrcOk(m) <==> FeedBits(SEED, BitsOf(m)) == 0
  {
    hide Reflected, Bits, FeedBits;
    var body, b := m[..|m| - 1], m[|m| - 1];
    FeedBitsConcat(SEED, BitsOf(body), Bits(b, 8));
    ResidueOfByte(FeedBits(SEED, BitsOf(body)), b);
  }

  // ----- error bursts -----------------------------------------------------------------------------------

  /** The two bit strings agree outside the eight positions from `k` on. */
  predicate AgreeOutside(a: seq<bool>, b: seq<bool>, k: nat) {
    |a| == |b| && k + 8 <= |a| && a[..k] == b[..k] && a[k + 8..] == b[k + 8..]
  }

  lemma BurstChangesResidue(a: seq<bool>, b: seq<bool>, k: nat)
    requires AgreeOutside(a, b, k) && FeedBits(SEED, a) == FeedBits(SEED, b)
    ensures a == b
  {
    var r := FeedBits(SEED, a[..k]);
    assert a == a[..k] + a[k..k + 8] + a[k + 8..];
    assert b == b[..k] + b[k..k + 8] + b[k + 8..];
    FeedBitsConcat(SEED, a[..k], a[k..k + 8]);
    FeedBitsConcat(SEED, b[..k], b[k..k + 8]);
    FeedBitsConcat(SEED, a[..k] + a[k..k + 8], a[k + 8..]);
    FeedBitsConcat(SEED, b[..k] + b[k..k + 8], b[k + 8..]);
    FeedBitsInjective(FeedBits(r, a[k..k + 8]), FeedBits(r, b[k..k + 8]), a[k + 8..]);
    WindowInjective(r, a[k..k + 8], b[k..k + 8]);
  }

  lemma ConcatParts(a: seq<bool>, b: seq<bool>, c: seq<bool>, d: seq<bool>)
    requires |a| == |c| && a + b == c + d
    ensures a == c && b == d
  {
    assert (a + b)[..|a|] == a && (a + b)[|a|..] == b;
    assert (c + d)[..|c|] == c && (c + d)[|c|..] == d;
  }

  lemma BitsOfSnoc(m: seq<byte>)
    requires m != []
    ensures BitsOf(m) == BitsOf(m[..|m| - 1]) + Bits(m[|m| - 1], 8)
  {
  }

  lemma BitsDetermineByte(a: byte, b: byte)
    requires Bits(a, 8) == Bits(b, 8)
    ensures a == b
  {
    hide Bits, Value;
    ByteRange();
    ValueOfBits(a, 8);
    ValueOfBits(b, 8);
  }

  lemma {:induction false} BitsDetermineMessage(m: seq<byte>, n: seq<byte>)
    requires |m| == |n| && BitsOf(m) == BitsOf(n)
    ensures m == n
  {
    if m != [] {
      hide Bits, BitsOf;
      var k := |m| - 1;
      BitsOfSnoc(m);
      BitsOfSnoc(n);
      ConcatParts(BitsOf(m[..k]), Bits(m[k], 8), BitsOf(n[..k]), Bits(n[k], 8));
      BitsDetermineMessage(m[..k], n[..k]);
      BitsDetermineByte(m[k], n[k]);
      assert m == m[..k] + [m[k]] && n == n[..k] + [n[k]];
    }
  }

  /** For messages of any length, an error burst of at most eight bits, aligned to bytes or
      not and reaching into the check byte or not, always fails the check. */
  lemma BurstDetected(m: seq<byte>, n: seq<byte>, k: nat)
    requires |m| == |n| > 0 && m != n && CrcOk(m) && AgreeOutside(BitsOf(m), BitsOf(n), k)
    ensures !CrcOk(n)
  {
    hide FeedBits, CrcOk;
    OkIffResidueZero(m);
    OkIffResidueZero(n);
    if CrcOk(n) {
      BurstChangesResidue(BitsOf(m), BitsOf(n), k);
      BitsDetermineMessage(m, n);
    }
  }

  lemma {:induction false} ByteChangeConfined(m: seq<byte>, i: nat, b: byte)
    requires i < |m|
    ensures AgreeOutside(BitsOf(m), BitsOf(m[i := b]), 8 * i)
  {
    hide Bits;
    var k, n := |m| - 1, m[i := b];
    var x, y := BitsOf(m), BitsOf(n);
    if i == k {
      assert n[..k] == m[..k];
    } else {
      ByteChangeConfined(m[..k], i, b);
      assert n[..k] == m[..k][i := b];
      var u, v, w := BitsOf(m[..k]), BitsOf(n[..k]), Bits(m[k], 8);
      assert x[..8 * i] == u[..8 * i] && y[..8 * i] == v[..8 * i];
      assert x[8 * i + 8..] == u[8 * i + 8..] + w && y[8 * i + 8..] == v[8 * i + 8..] + w;
    }
  }

  /** In particular a change of any one byte. */
  lemma ByteChangeDetected(m: seq<byte>, i: nat, b: byte)
    requires i < |m| && m[i] != b && CrcOk(m)
    ensures !CrcOk(m[i := b])
  {
    ByteChangeConfined(m, i, b);
    BurstDetected(m, m[i := b], 8 * i);
  }

  // ----- a frame of the repository's own parsing test ----------------------------------------------------

  /** The register after a message. */
  function Register(m: seq<byte>): bv8 {
    FeedBits(SEED, BitsOf(m))
  }

  function FeedByte(r: bv8, b: byte): bv8 {
    FeedBits(r, Bits(b, 8))
  }

  lemma RegisterSnoc(m: seq<byte>, b: byte)
    ensures Register(m + [b]) == FeedByte(Register(m), b)
  {
    hide FeedBits, Bits;
    assert (m + [b])[..|m|] == m;
    FeedBitsConcat(SEED, BitsOf(m), Bits(b, 8));
  }

  lemma NothingFed()
    ensures Register([]) == SEED
  {
  }

  lemma ValueFirst(bits: seq<bool>)
    requires bits != []
    ensures Value(bits) == Digit(bits[0]) + 2 * Value(bits[1..])
  {
  }

  lemma NoValue()
    ensures Value([]) == 0
  {
  }

  lemma ValueOfEight(a: seq<bool>)
    requires |a| == 8
    ensures Value(a) == Digit(a[0]) + 2 * Digit(a[1]) + 4 * Digit(a[2]) + 8 * Digit(a[3]) +
                        16 * Digit(a[4]) + 32 * Digit(a[5]) + 64 * Digit(a[6]) + 128 * Digit(a[7])
  {
    hide Value, Digit;
    ValueFirst(a); ValueFirst(a[1..]); ValueFirst(a[2..]); ValueFirst(a[3..]);
    ValueFirst(a[4..]); ValueFirst(a[5..]); ValueFirst(a[6..]); ValueFirst(a[7..]);
    NoValue();
    assert a[1..][1..] == a[2..] && a[2..][1..] == a[3..] && a[3..][1..] == a[4..];
    assert a[4..][1..] == a[5..] && a[5..][1..] == a[6..] && a[6..][1..] == a[7..] && a[7..][1..] == [];
  }

  lemma FeedByteIs(r: bv8, b: byte, a: seq<bool>)
    requires |a| == 8
    requires b == Digit(a[0]) + 2 * Digit(a[1]) + 4 * Digit(a[2]) + 8 * Digit(a[3]) +
                  16 * Digit(a[4]) + 32 * Digit(a[5]) + 64 * Digit(a[6]) + 128 * Digit(a[7])
    ensures FeedByte(r, b) == Feed8(r, a[0], a[1], a[2], a[3], a[4], a[5], a[6], a[7])
  {
    hide Feed8, FeedBits, Bits, Value;
    ValueOfEight(a);
    BitsOfValue(a);
    FeedBitsIsFeed8(r, a);
  }

  /** The register over the bytes of the frame. */
  lemma FirstSteps()
    ensures FeedByte(0xFF, 0x0A) == 0x36
    ensures FeedByte(0x36, 0x00) == 0x77
    ensures FeedByte(0x77, 0x64) == 0x1A
    ensures FeedByte(0x1A, 0x00) == 0x04
  {
    hide FeedByte;
    FeedByteIs(0xFF, 0x0A, [false, true, false, true, false, false, false, false]);
    FeedByteIs(0x36, 0x00, [false, false, false, false, false, false, false, false]);
    FeedByteIs(0x77, 0x64, [false, false, true, false, false, true, true, false]);
    FeedByteIs(0x1A, 0x00, [false, false, false, false, false, false, false, false]);
  }

  lemma LastSteps()
    ensures FeedByte(0x04, 0x10) == 0xD7
    ensures FeedByte(0xD7, 0x00) == 0x74
    ensures FeedByte(0x74, 0x17) == 0x6A
    ensures FeedByte(0x6A, 0x56) == 0x00
  {
    hide FeedByte;
    FeedByteIs(0x04, 0x10, [false, false, false, false, true, false, false, false]);
    FeedByteIs(0xD7, 0x00, [false, false, false, false, false, false, false, false]);
    FeedByteIs(0x74, 0x17, [true, true, true, false, true, false, false, false]);
    FeedByteIs(0x6A, 0x56, [false, true, true, false, true, false, true, false]);
  }

  lemma EchoFramePasses()
    ensures CrcOk([0x0A, 0x00, 0x64, 0x00, 0x10, 0x00, 0x17, 0x56])
  {
    hide Register, FeedByte, CrcOk;
    NothingFed();
    FirstSteps();
    LastSteps();
    RegisterSnoc([], 0x0A);
    assert [] + [0x0A] == [0x0A];
    RegisterSnoc([0x0A], 0x00);
    assert [0x0A] + [0x00] == [0x0A, 0x00];
    RegisterSnoc([0x0A, 0x00], 0x64);
    assert [0x0A, 0x00] + [0x64] == [0x0A, 0x00, 0x64];
    RegisterSnoc([0x0A, 0x00, 0x64], 0x00);
    assert [0x0A, 0x00, 0x64] + [0x00] == [0x0A, 0x00, 0x64, 0x00];
    RegisterSnoc([0x0A, 0x00, 0x64, 0x00], 0x10);
    assert [0x0A, 0x00, 0x64, 0x00] + [0x10] == [0x0A, 0x00, 0x64, 0x00, 0x10];
    RegisterSnoc([0x0A, 0x00, 0x64, 0x00, 0x10], 0x00);
    assert [0x0A, 0x00, 0x64, 0x00, 0x10] + [0x00] == [0x0A, 0x00, 0x64, 0x00, 0x10, 0x00];
    RegisterSnoc([0x0A, 0x00, 0x64, 0x00, 0x10, 0x00], 0x17);
    assert [0x0A, 0x00, 0x64, 0x00, 0x10, 0x00] + [0x17] == [0x0A, 0x00, 0x64, 0x00, 0x10, 0x00, 0x17];
    RegisterSnoc([0x0A, 0x00, 0x64, 0x00, 0x10, 0x00, 0x17], 0x56);
    assert [0x0A, 0x00, 0x64, 0x00, 0x10, 0x00, 0x17] + [0x56] == [0x0A, 0x00, 0x64, 0x00, 0x10, 0x00, 0x17, 0x56];
    ResidueZeroPasses([0x0A, 0x00, 0x64, 0x00, 0x10, 0x00, 0x17, 0x56]);
  }

  lemma ResidueZeroPasses(m: seq<byte>)
    requires |m| > 0 && Register(m) == 0
    ensures CrcOk(m)
  {
    hide FeedBits, CrcOk;
    OkIffResidueZero(m);
  }
}

/**
 What the RLGR decoder makes of given bits, in plain numbers (section 3.1.8.1.7.3 of [MS-RDPRFX]): the values, and the
 state it goes on with. Nothing here refers to the encoder or to the constants of the specification functions.
 */
module RlgrLaws {
  import opened Bits
  import opened RlgrSpec
  import opened RlgrRoundTrip

  /** krp after a code with u leading ones. */
  function NextKr(krp: Param, u: nat): Param {
    if u == 0 then if krp < 2 then 0 else krp - 2
    else if u == 1 then krp
    else if krp + u > 80 then 80 else krp + u
  }

  function Lowered(kp: Param, n: nat): Param {
    if kp < n then 0 else kp - n
  }

  /** The value behind twice its magnitude, less one when negative. */
  function Signed(m: nat): sint16
    requires m < 0x1_0000
  {
    if m % 2 == 1 then -(m + 1) / 2 else m / 2
  }

  /** The 16-bit value that agrees with v modulo 2^16. */
  function Kept(v: int): sint16
    requires -0x1_0000 <= v <= 0x1_0000
  {
    if v > 0x7FFF then v - 0x1_0000 else if v < -0x8000 then v + 0x1_0000 else v
  }

  /** The value of a run-length symbol, from its sign and the coded magnitude. */
  function RunValue(negative: bool, m: nat): sint16
    requires m < 0x1_0000
  {
    if negative then Kept(-(m + 1)) else Kept(m + 1)
  }

  function Nothing(n: nat): seq<sint16> {
    seq(n, _ => 0)
  }

  /** u ones, a zero, v in kr bits, and what follows. */
  function GrBits(u: nat, v: nat, kr: nat, rest: seq<bool>): (b: seq<bool>)
    ensures |b| > 0
  {
    Ones(u) + ([false] + (BitsOf(v, kr) + rest))
  }

  /** The number they stand for: u * 2^kr + v. */
  function GrMag(u: nat, v: nat, kr: nat): nat {
    ShlNat(u, kr);
    Shl(u, kr) + v
  }

  lemma GrLaw(u: nat, v: nat, krp: Param, rest: seq<bool>)
    requires v < Pow2(krp / 8) && GrMag(u, v, krp / 8) < 0x1_0000
    ensures ReadGr(GrBits(u, v, krp / 8, rest), krp) == Gr(GrMag(u, v, krp / 8), u, rest)
    ensures GrNext(krp, u) == NextKr(krp, u)
  {
    hide NatOf, Shl, BitsOf, LeadingOnes, Take, Ones, Pow2;
    var kr := krp / 8;
    var b, low := GrBits(u, v, kr, rest), BitsOf(v, kr);
    ShlNat(u, kr);
    LeadingOnesCode(u, low + rest);
    assert Drop(b, u + 1) == low + rest;
    TakeDropConcat(low, rest);
    NatOfBitsOf(v, kr);
    LowSmall(v, kr);
  }

  // ---------- Runs ----------

  /** A zero bit stands for 2^k zeros and raises kp by 4, up to 80. */
  lemma EscapeLaw(kp: Param, rest: seq<bool>)
    ensures var r := ReadRun(rest, if kp > 76 then 80 else kp + 4);
      ReadRun([false] + rest, kp) == Run(Pow2(kp / 8) + r.zeros, r.kp, r.rest)
  {
    assert ([false] + rest)[1..] == rest;
  }

  /** A one bit ends the run with its remainder in k bits. */
  lemma EndLaw(kp: Param, r: nat, rest: seq<bool>)
    requires r < Pow2(kp / 8)
    ensures ReadRun([true] + (BitsOf(r, kp / 8) + rest), kp) == Run(r, kp, rest)
  {
    hide NatOf, BitsOf, Pow2, Take;
    var k := kp / 8;
    assert ([true] + (BitsOf(r, k) + rest))[1..] == BitsOf(r, k) + rest;
    TakeDropConcat(BitsOf(r, k), rest);
    NatOfBitsOf(r, k);
    LowSmall(r, k);
  }

  /** 2j zero bits from kp = 8i on. */
  lemma {:induction false} EscapesFrom(i: nat, j: nat, r: nat, rest: seq<bool>)
    requires 1 <= i && i + j <= 10 && r < Pow2(i + j)
    ensures Pow2(i + j) >= Pow2(i)
    ensures ReadRun(Zeros(2 * j) + ([true] + (BitsOf(r, i + j) + rest)), 8 * i) == Run(2 * (Pow2(i + j) - Pow2(i)) + r, 8 * (i + j), rest)
    decreases j
  {
    hide ReadRun, BitsOf, Pow2, Zeros;
    var end := [true] + (BitsOf(r, i + j) + rest);
    if j == 0 {
      NoZeros(end);
      EndLaw(8 * i, r, rest);
    } else {
      EscapesStep(i, j, end);
      EscapesFrom(i + 1, j - 1, r, rest);
      PowDouble(i);
    }
  }

  lemma NoZeros(b: seq<bool>)
    ensures Zeros(0) + b == b
  {
  }

  lemma EscapesStep(i: nat, j: nat, end: seq<bool>)
    requires 1 <= i <= 9 && j >= 1
    ensures var r := ReadRun(Zeros(2 * (j - 1)) + end, 8 * (i + 1));
      ReadRun(Zeros(2 * j) + end, 8 * i) == Run(2 * Pow2(i) + r.zeros, r.kp, r.rest)
  {
    hide ReadRun, Pow2;
    var b := Zeros(2 * (j - 1)) + end;
    assert Zeros(2 * j) + end == [false] + ([false] + b);
    EscapeLaw(8 * i, [false] + b);
    EscapeLaw(8 * i + 4, b);
  }

  /** From the start, 2j zero bits count 2 * (2^(j+1) - 2) zeros and leave kp = 8 + 8j. */
  lemma EscapesLaw(j: nat, r: nat, rest: seq<bool>)
    requires j <= 9 && r < Pow2(j + 1)
    ensures ReadRun(Zeros(2 * j) + ([true] + (BitsOf(r, j + 1) + rest)), 8) == Run(2 * (Pow2(j + 1) - 2) + r, 8 + 8 * j, rest)
  {
    hide ReadRun, BitsOf;
    assert Pow2(1) == 2;
    EscapesFrom(1, j, r, rest);
  }

  lemma PowAtLeast(j: nat)
    ensures Pow2(j + 1) >= 2
  {
  }

  // ---------- Symbols ----------

  lemma SignedLaw(m: nat)
    requires m < 0x1_0000
    ensures FromTwoMs(m) == Signed(m) && Signed(0) == 0
  {
  }

  lemma PairKpLaw(kp: Param, a: nat, b: nat)
    requires kp < 8
    ensures PairKp(kp, a, b) == if a == 0 && b == 0 then kp + 6 else if a != 0 && b != 0 then Lowered(kp, 6) else kp
  {
  }

  /** A run-length symbol from kp = 8: the zeros, a value that is never zero, and kp six lower. */
  lemma RunLaw(mode: Mode, j: nat, r: nat, negative: bool, u: nat, v: nat, krp: Param, rest: seq<bool>)
    requires j <= 9 && r < Pow2(j + 1) && v < Pow2(krp / 8) && GrMag(u, v, krp / 8) < 0x1_0000
    ensures var m := GrMag(u, v, krp / 8);
      var b := Zeros(2 * j) + ([true] + (BitsOf(r, j + 1) + ([negative] + GrBits(u, v, krp / 8, rest))));
      && |b| > 0
      && DecodeSymbol(mode, b, 8, krp)
         == Decoded(Nothing(2 * (Pow2(j + 1) - 2) + r) + [RunValue(negative, m)], 8 * j + 2, NextKr(krp, u), rest)
  {
    hide ReadRun, ReadGr, GrBits, GrNext, BitsOf, Pow2, GrMag;
    PowAtLeast(j);
    var tail := GrBits(u, v, krp / 8, rest);
    EscapesLaw(j, r, [negative] + tail);
    assert ([negative] + tail)[1..] == tail;
    GrLaw(u, v, krp, rest);
  }

  /** In run-length mode, from any kp: a zero bit puts 2^k zeros before the symbol and raises kp by 4. */
  lemma RunEscapeLaw(mode: Mode, kp: Param, krp: Param, rest: seq<bool>)
    requires kp >= 8 && rest != []
    ensures var d := DecodeSymbol(mode, rest, if kp > 76 then 80 else kp + 4, krp);
      DecodeSymbol(mode, [false] + rest, kp, krp) == d.(values := Nothing(Pow2(kp / 8)) + d.values)
  {
    hide ReadRun, ReadGr, GrNext, Update, Pow2;
    EscapeLaw(kp, rest);
    var kp': Param := if kp > 76 then 80 else kp + 4;
    var n, z := Pow2(kp / 8), ReadRun(rest, kp').zeros;
    assert Nothing(n + z) == Nothing(n) + Nothing(z);
    assert ZeroValues(n + z) == Nothing(n + z) && ZeroValues(z) == Nothing(z);
    ConcatAssoc(Nothing(n), Nothing(z), [DecodeSymbol(mode, rest, kp', krp).values[z]]);
  }

  /** A one bit ends the run, and kp falls by 6. */
  lemma RunEndLaw(mode: Mode, kp: Param, r: nat, negative: bool, u: nat, v: nat, krp: Param, rest: seq<bool>)
    requires kp >= 8 && r < Pow2(kp / 8) && v < Pow2(krp / 8) && GrMag(u, v, krp / 8) < 0x1_0000
    ensures var m := GrMag(u, v, krp / 8);
      var b := [true] + (BitsOf(r, kp / 8) + ([negative] + GrBits(u, v, krp / 8, rest)));
      DecodeSymbol(mode, b, kp, krp) == Decoded(Nothing(r) + [RunValue(negative, m)], kp - 6, NextKr(krp, u), rest)
  {
    hide ReadRun, ReadGr, GrBits, GrNext, BitsOf, Pow2, GrMag;
    var tail := GrBits(u, v, krp / 8, rest);
    EndLaw(kp, r, [negative] + tail);
    assert ([negative] + tail)[1..] == tail;
    GrLaw(u, v, krp, rest);
  }

  /** An RLGR1 symbol: zero raises kp by 3, any other value lowers it by 3. */
  lemma OneLaw(u: nat, v: nat, kp: Param, krp: Param, rest: seq<bool>)
    requires kp < 8 && v < Pow2(krp / 8) && GrMag(u, v, krp / 8) < 0x1_0000
    ensures var m := GrMag(u, v, krp / 8);
      DecodeSymbol(RLGR1, GrBits(u, v, krp / 8, rest), kp, krp)
      == Decoded([Signed(m)], if m == 0 then kp + 3 else Lowered(kp, 3), NextKr(krp, u), rest)
  {
    hide ReadGr, GrBits, GrNext, Pow2, GrMag, FromTwoMs, Signed;
    GrLaw(u, v, krp, rest);
    SignedLaw(GrMag(u, v, krp / 8));
  }

  /** An RLGR3 pair a, sum - a in n bits: two zeros raise kp by 6, two other values lower it by 6. */
  lemma PairLaw(u: nat, v: nat, a: nat, n: nat, kp: Param, krp: Param, rest: seq<bool>)
    requires kp < 8 && v < Pow2(krp / 8) && a <= GrMag(u, v, krp / 8) < 0x1_0000
    requires GrMag(u, v, krp / 8) < Pow2(n) && (n > 0 ==> Pow2(n - 1) <= GrMag(u, v, krp / 8))
    ensures var sum := GrMag(u, v, krp / 8);
      DecodeSymbol(RLGR3, GrBits(u, v, krp / 8, BitsOf(a, n) + rest), kp, krp)
      == Decoded([Signed(a), Signed(sum - a)],
                 if sum == 0 then kp + 6 else if 0 < a < sum then Lowered(kp, 6) else kp, NextKr(krp, u), rest)
  {
    hide ReadGr, GrBits, GrNext, Pow2, GrMag, NatOf, BitsOf, MinBits, Take, FromTwoMs, Signed, PairKp;
    var sum := GrMag(u, v, krp / 8);
    GrLaw(u, v, krp, BitsOf(a, n) + rest);
    MinBitsAtMost(sum, n);
    if n > 0 {
      MinBitsAtLeast(sum, n - 1);
    }
    TakeDropConcat(BitsOf(a, n), rest);
    NatOfBitsOf(a, n);
    LowSmall(a, n);
    SignedLaw(a);
    SignedLaw(sum - a);
    PairKpLaw(kp, a, sum - a);
  }

  /** A first value above the sum leaves a second one below zero, in 32 bits: (d - 1) / 2 for odd d, -d / 2 for even. */
  function Surplus(d: nat): sint16
    requires 1 <= d < 0x1_0000
  {
    if d % 2 == 1 then (d - 1) / 2 else -(d / 2)
  }

  lemma WrapBelow(e: nat)
    requires e <= 0x8000
    ensures Wrap16(0x8000_0000 - e) == 0 - e
  {
    assert 0x8000_0000 - e + 0x8000 == 0x8000 * 0x1_0000 + (0x8000 - e);
  }

  lemma SurplusOdd(d: nat)
    requires 1 <= d < 0x1_0000 && d % 2 == 1
    ensures FromTwoMs(0x1_0000_0000 - d) == (d - 1) / 2
  {
    hide Wrap16;
    var e := (d - 1) / 2;
    assert (0x1_0000_0000 - d) % 2 == 1;
    if d == 1 {
      assert Wrap16(0) == 0 by { WrapZero(); }
    } else {
      assert (0x1_0000_0000 - d + 1) / 2 == 0x8000_0000 - e;
      WrapBelow(e);
      WrapSmall(e);
    }
  }

  lemma WrapZero()
    ensures Wrap16(0) == 0
  {
  }

  lemma WrapSmall(e: nat)
    requires e < 0x8000
    ensures Wrap16(e) == e
  {
  }

  lemma SurplusLaw(d: nat)
    requires 1 <= d < 0x1_0000
    ensures FromTwoMs(0x1_0000_0000 - d) == Surplus(d)
  {
    hide Wrap16;
    if d % 2 == 1 {
      SurplusOdd(d);
    } else {
      assert (0x1_0000_0000 - d) % 2 == 0 && (0x1_0000_0000 - d) / 2 == 0x8000_0000 - d / 2;
      WrapBelow(d / 2);
    }
  }

  lemma PairSurplusLaw(u: nat, v: nat, a: nat, n: nat, kp: Param, krp: Param, rest: seq<bool>)
    requires kp < 8 && v < Pow2(krp / 8) && GrMag(u, v, krp / 8) < 0x1_0000
    requires GrMag(u, v, krp / 8) < a < Pow2(n) && n <= 16 && n > 0 && Pow2(n - 1) <= GrMag(u, v, krp / 8)
    ensures a < 0x1_0000
    ensures DecodeSymbol(RLGR3, GrBits(u, v, krp / 8, BitsOf(a, n) + rest), kp, krp)
         == Decoded([Signed(a), Surplus(a - GrMag(u, v, krp / 8))], Lowered(kp, 6), NextKr(krp, u), rest)
  {
    hide ReadGr, GrBits, GrNext, Pow2, GrMag, NatOf, BitsOf, MinBits, Take, FromTwoMs, Signed, PairKp, Surplus;
    var sum := GrMag(u, v, krp / 8);
    Pow16();
    PowMono(n, 16);
    GrLaw(u, v, krp, BitsOf(a, n) + rest);
    MinBitsAtMost(sum, n);
    MinBitsAtLeast(sum, n - 1);
    TakeDropConcat(BitsOf(a, n), rest);
    NatOfBitsOf(a, n);
    LowSmall(a, n);
    SignedLaw(a);
    SurplusLaw(a - sum);
    PairKpLaw(kp, a, 0x1_0000_0000 + sum - a);
  }

  // ---------- The start ----------

  /** The first symbol of any stream: both parameters start at 8. */
  lemma FirstSymbolLaw(mode: Mode, bytes: seq<byte>, j: nat, r: nat, negative: bool, u: nat, v: nat, rest: seq<bool>, room: nat)
    requires j <= 9 && r < Pow2(j + 1) && v < 2 && 2 * u + v < 0x1_0000
    requires BytesBits(bytes) == Zeros(2 * j) + ([true] + (BitsOf(r, j + 1) + ([negative] + GrBits(u, v, 1, rest))))
    ensures Pow2(j + 1) >= 2
    ensures var m := 2 * u + v;
      Decode(mode, bytes, room)
      == Take(Nothing(2 * (Pow2(j + 1) - 2) + r) + [RunValue(negative, m)] + DecodeFrom(mode, rest, 8 * j + 2, NextKr(8, u)), room)
  {
    hide BytesBits, BitsOf, GrBits, DecodeSymbol, DecodeFrom, Take, NextKr;
    PowAtLeast(j);
    assert Pow2(1) == 2 && Shl(u, 0) == u && Shl(u, 1) == 2 * Shl(u, 0);
    RunLaw(mode, j, r, negative, u, v, 8, rest);
    var b := BytesBits(bytes);
    assert DecodeSymbol(mode, b, 8, 8).rest == rest;
    DecodeFromStep(mode, b, 8, 8);
  }
}

/**
 Quantisation of the ten sub-bands of a tile. Each band has a quantisation value 6..15; its coefficients are divided
 by a power of two, rounding to nearest, and all of them by 32 again, which drops the five fraction bits.
 */
module Quantization {
  import opened Bits
  import opened Grid

  /** v >> n of a signed value: rounds down. */
  function Asr(v: int, n: nat): int
    decreases n
  {
    if n == 0 then v else Asr(v / 2, n - 1)
  }

  function Scaled(v: int, factor: nat): sint16 {
    Wrap16(Shl(v, factor))
  }

  function Rounded(v: int, factor: nat): sint16 {
    if factor == 0 then Wrap16(v) else Wrap16(Asr(v + Pow2(factor - 1), factor))
  }

  /** A coefficient as the decoder restores it. */
  function Dequantised(v: sint16, factor: nat): sint16 {
    Scaled(Scaled(v, 5), factor)
  }

  function Quantised(v: sint16, factor: nat): sint16 {
    Rounded(Rounded(v, factor), 5)
  }

  // ---------- Shifts ----------

  lemma {:induction false} AsrBounds(v: int, n: nat)
    ensures Shl(Asr(v, n), n) <= v < Shl(Asr(v, n), n) + Pow2(n)
    decreases n
  {
    if n > 0 {
      AsrBounds(v / 2, n - 1);
    }
  }

  lemma {:induction false} ShlStrict(a: int, b: int, n: nat)
    requires a < b
    ensures Shl(a, n) + Pow2(n) <= Shl(b, n)
  {
    if n > 0 {
      ShlStrict(a, b, n - 1);
    }
  }

  /** a <= v >> n exactly when a << n <= v. */
  lemma AsrAtLeast(a: int, v: int, n: nat)
    ensures a <= Asr(v, n) <==> Shl(a, n) <= v
  {
    AsrBounds(v, n);
    if a <= Asr(v, n) {
      ShlMono(a, Asr(v, n), n);
    } else {
      ShlStrict(Asr(v, n), a, n);
    }
  }

  /** Shifting down what was shifted up, with any remainder below 2^n. */
  lemma AsrShl(a: int, r: nat, n: nat)
    requires r < Pow2(n)
    ensures Asr(Shl(a, n) + r, n) == a
  {
    var v := Shl(a, n) + r;
    AsrAtLeast(a, v, n);
    AsrAtLeast(a + 1, v, n);
    ShlStrict(a, a + 1, n);
  }

  lemma {:induction false} ShlTimes(k: int, m: int, n: nat)
    ensures Shl(k * m, n) == k * Shl(m, n)
  {
    if n > 0 {
      ShlTimes(k, m, n - 1);
      assert k * (2 * Shl(m, n - 1)) == 2 * (k * Shl(m, n - 1));
    }
  }

  /** How far a 16-bit store moves a value. */
  function Laps(v: int): int {
    (v + 0x8000) / 0x1_0000
  }

  lemma WrapLaps(v: int)
    ensures Wrap16(v) == v - 0x1_0000 * Laps(v)
    ensures In16(v) <==> Wrap16(v) == v
    ensures In16(v) <==> Laps(v) == 0
  {
  }

  lemma WrapShift(v: int, k: int)
    ensures Wrap16(v + 0x1_0000 * k) == Wrap16(v)
  {
  }

  /** The two left shifts of the decoder wrap like one. */
  lemma ScaledTwice(v: int, m: nat, n: nat)
    ensures Scaled(Scaled(v, m), n) == Scaled(v, m + n)
  {
    hide Wrap16, Laps;
    var x := Shl(v, m);
    WrapLaps(x);
    ShlAdd(Wrap16(x), 0x1_0000 * Laps(x), n);
    ShlTimes(Laps(x), 0x1_0000, n);
    ShlTimes(0x1_0000, 1, n);
    assert Shl(0x1_0000 * Laps(x), n) == Laps(x) * Shl(0x1_0000, n) by { assert 0x1_0000 * Laps(x) == Laps(x) * 0x1_0000; }
    LapsMove(Shl(Wrap16(x), n), Laps(x), Shl(1, n));
    ShlShl(v, m, n);
  }

  lemma LapsMove(y: int, k: int, p: int)
    ensures Wrap16(y + k * (0x1_0000 * p)) == Wrap16(y)
  {
    hide Wrap16;
    WrapShift(y, k * p);
    assert k * (0x1_0000 * p) == 0x1_0000 * (k * p);
  }

  /** A left shift that wraps is the left shift of another value. */
  lemma ScaledIsShift(v: int, n: nat) returns (w: int)
    requires n <= 16
    ensures Scaled(v, n) == Shl(w, n)
    ensures In16(Shl(v, n)) <==> w == v
  {
    hide Wrap16, Laps;
    var x := Shl(v, n);
    WrapLaps(x);
    w := v - Laps(x) * Pow2(16 - n);
    ShlAdd(w, Laps(x) * Pow2(16 - n), n);
    ShlTimes(Laps(x), Pow2(16 - n), n);
    ShlPow(16 - n, n);
    Pow16();
    NonZeroTimes(Laps(x), Pow2(16 - n));
  }

  lemma NonZeroTimes(k: int, p: int)
    requires p >= 1
    ensures k * p == 0 <==> k == 0
  {
  }

  // ---------- One coefficient ----------

  const MAX_FACTOR: nat := 9

  lemma PowRange(f: nat)
    requires f <= MAX_FACTOR
    ensures Pow2(f) <= 512 && (f > 0 ==> Pow2(f) == 2 * Pow2(f - 1))
  {
    PowMono(f, 9);
    assert Pow2(9) == 2 * Pow2(8) == 512;
  }

  lemma Pow5()
    ensures Pow2(4) == 16 && Pow2(5) == 32 && Pow2(0) == 1
  {
  }

  /** Rounding undoes an exact scaling. */
  lemma RoundedShl(w: int, f: nat)
    requires f <= MAX_FACTOR && In16(w)
    ensures Rounded(Shl(w, f), f) == w
  {
    hide Wrap16;
    WrapLaps(w);
    if f > 0 {
      PowRange(f);
      AsrShl(w, Pow2(f - 1), f);
    }
  }

  lemma {:induction false} ShlBack(w: int, n: nat)
    requires In16(Shl(w, n))
    ensures In16(w)
  {
    if n > 0 {
      ShlBack(w, n - 1);
    }
  }

  lemma QuantisedShl(w: int, f: nat)
    requires f <= MAX_FACTOR && In16(Shl(w, 5 + f))
    ensures Quantised(Shl(w, 5 + f), f) == w
  {
    ShlShl(w, 5, f);
    ShlBack(Shl(w, 5), f);
    ShlBack(w, 5);
    RoundedShl(Shl(w, 5), f);
    RoundedShl(w, 5);
  }

  /** Quantising a dequantised coefficient restores it exactly when the dequantised value fits 16 bits. */
  lemma QuantisedDequantised(v: sint16, f: nat)
    requires f <= MAX_FACTOR
    ensures Quantised(Dequantised(v, f), f) == v <==> In16(Shl(v, 5 + f))
  {
    hide Wrap16;
    ScaledTwice(v, 5, f);
    var w := ScaledIsShift(v, 5 + f);
    QuantisedShl(w, f);
  }

  /** The rounding of a 16-bit value always fits, and errs by half a step. */
  lemma RoundedBounds(v: sint16, f: nat)
    requires f <= MAX_FACTOR
    ensures f > 0 ==> Rounded(v, f) == Asr(v + Pow2(f - 1), f)
    ensures f == 0 ==> Rounded(v, f) == v
    ensures Shl(Rounded(v, f), f) - v <= Pow2(f) / 2
    ensures v - Shl(Rounded(v, f), f) <= Pow2(f) / 2
  {
    hide Wrap16;
    PowRange(f);
    WrapLaps(v);
    if f > 0 {
      var x: int := v + Pow2(f - 1);
      AsrBounds(x, f);
      AsrSmall(x, f);
      WrapLaps(Asr(x, f));
    }
  }

  lemma AsrSmall(x: int, f: nat)
    requires f > 0 && -0x8000 <= x < 0xFFFF
    ensures In16(Asr(x, f))
  {
    AsrShrinks(x / 2, f - 1);
  }

  lemma {:induction false} AsrShrinks(x: int, n: nat)
    requires In16(x)
    ensures In16(Asr(x, n))
    decreases n
  {
    if n > 0 {
      AsrShrinks(x / 2, n - 1);
    }
  }

  /** Below this value the quantised coefficient can be restored; the upper end of the range rounds up out of it. */
  predicate Restorable(v: sint16, f: nat) {
    2 * v + (if f == 0 then 32 else 33 * Pow2(f)) < 0x1_0000
  }

  lemma RestorableFits(v: sint16, f: nat)
    requires f <= MAX_FACTOR
    ensures In16(Shl(Quantised(v, f), 5 + f)) <==> Restorable(v, f)
  {
    hide Wrap16, Rounded, Shl, Pow2, Asr;
    var y: int := Rounded(v, f);
    var z := Quantised(v, f);
    RoundedBounds(v, f);
    RoundedBounds(y, 5);
    Pow5();
    PowRange(f);
    var top: int := Pow2(10 - f);
    assert z == Asr(y + 16, 5);
    FitsBelow(z, f);
    AsrAtLeast(top, y + 16, 5);
    AsrAtLeast(-top, y + 16, 5);
    TopShl(f);
    RoundedAtLeast(Shl(top, 5) - 16, v, f);
    RoundedAtLeast(-Shl(top, 5) - 16, v, f);
    ShlParts(top, f);
  }

  /** A shifted value fits 16 bits exactly when the value is below 2^(10-f) in magnitude. */
  lemma FitsBelow(z: int, f: nat)
    requires f <= MAX_FACTOR
    ensures In16(Shl(z, 5 + f)) <==> 0 - Pow2(10 - f) <= z < Pow2(10 - f)
  {
    var top: int := Pow2(10 - f);
    ShlPow(10 - f, 5 + f);
    assert Pow2(15) == 2 * Pow2(14) == 0x8000 by { Pow16(); }
    ShlNeg(top, 5 + f);
    if z < -top {
      ShlStrict(z, -top, 5 + f);
    } else {
      ShlMono(-top, z, 5 + f);
    }
    if z < top {
      ShlStrict(z, top, 5 + f);
    } else {
      ShlMono(top, z, 5 + f);
    }
  }

  lemma {:induction false} ShlNeg(v: int, n: nat)
    ensures Shl(-v, n) == -Shl(v, n)
  {
    if n > 0 {
      ShlNeg(v, n - 1);
    }
  }

  lemma TopShl(f: nat)
    requires f <= MAX_FACTOR
    ensures Shl(0 - Pow2(10 - f), 5) == -Shl(Pow2(10 - f), 5)
    ensures Shl(Shl(Pow2(10 - f), 5), f) == 0x8000
  {
    ShlNeg(Pow2(10 - f), 5);
    ShlShl(Pow2(10 - f), 5, f);
    ShlPow(10 - f, 5 + f);
    assert Pow2(15) == 0x8000 by { Pow16(); }
  }

  /** Rounding reaches a value exactly when the coefficient reaches the middle below it. */
  lemma RoundedAtLeast(a: int, v: sint16, f: nat)
    requires f <= MAX_FACTOR
    ensures a <= Rounded(v, f) <==> Shl(a, f) <= v + Pow2(f) / 2
  {
    hide Wrap16, Rounded;
    RoundedBounds(v, f);
    PowRange(f);
    if f > 0 {
      AsrAtLeast(a, v + Pow2(f - 1), f);
    }
  }

  lemma ShlParts(top: nat, f: nat)
    ensures Shl(Shl(top, 5) - 16, f) == Shl(Shl(top, 5), f) - 16 * Pow2(f)
    ensures Shl(-Shl(top, 5) - 16, f) == -Shl(Shl(top, 5), f) - 16 * Pow2(f)
  {
    ShlAdd(Shl(top, 5), -16, f);
    ShlAdd(-Shl(top, 5), -16, f);
    ShlNeg(Shl(top, 5), f);
    ShlTimes(-16, 1, f);
    PowShl(f);
  }

  /**
   Dequantising a quantised coefficient errs by at most 33 * 2^f / 2, where 2^f is the step of the band, exactly
   when the coefficient is not so large that rounding leaves the 16-bit range.
   */
  lemma DequantisedQuantised(v: sint16, f: nat)
    requires f <= MAX_FACTOR
    ensures var error := Dequantised(Quantised(v, f), f) as int - v as int;
      -33 * Pow2(f) <= 2 * error <= 33 * Pow2(f) <==> Restorable(v, f)
  {
    hide Wrap16, Rounded, Laps;
    var y, z := Rounded(v, f), Quantised(v, f);
    RestorableFits(v, f);
    RoundedBounds(v, f);
    RoundedBounds(y, 5);
    ScaledTwice(z, 5, f);
    WrapLaps(Shl(z, 5 + f));
    PowRange(f);
    assert Pow2(5) == 32;
    StepError(y, z, f);
  }

  /** The error of the second rounding, scaled by the first step. */
  lemma StepError(y: int, z: int, f: nat)
    requires -16 <= Shl(z, 5) - y <= 16
    ensures -16 * Pow2(f) <= Shl(z, 5 + f) - Shl(y, f) <= 16 * Pow2(f)
  {
    var d := Shl(z, 5) - y;
    ShlAdd(y, d, f);
    ShlShl(z, 5, f);
    ShlMono(d, 16, f);
    ShlMono(-16, d, f);
    ShlTimes(16, 1, f);
    ShlTimes(-16, 1, f);
    PowShl(f);
  }

  // ---------- The ten bands ----------

  /** Quantisation values, in the order LL3, LH3, HL3, HH3, LH2, HL2, HH2, LH1, HL1, HH1. */
  predicate Values(q: seq<nat>) {
    |q| == 10 && forall k :: 0 <= k < 10 ==> 6 <= q[k] <= 15
  }

  /** The table that the codec uses when none is given. */
  const DEFAULT_QUANTS: seq<nat> := [6, 6, 6, 6, 7, 7, 8, 8, 8, 9]

  /** The place in that order of the band that coefficient i belongs to. */
  function BandOf(i: nat): (k: nat)
    requires i < TILE
    ensures k < 10
  {
    if i < 1024 then 8 else if i < 2048 then 7 else if i < 3072 then 9
    else if i < 3328 then 5 else if i < 3584 then 4 else if i < 3840 then 6
    else if i < 3904 then 2 else if i < 3968 then 1 else if i < 4032 then 3 else 0
  }

  function Factor(q: seq<nat>, i: nat): (f: nat)
    requires Values(q) && i < TILE
    ensures f <= MAX_FACTOR
  {
    q[BandOf(i)] - 6
  }

  function DequantisedTile(t: seq<sint16>, q: seq<nat>): (r: seq<sint16>)
    requires |t| == TILE && Values(q)
    ensures |r| == TILE
  {
    seq(TILE, i requires 0 <= i < TILE => Dequantised(t[i], Factor(q, i)))
  }

  function QuantisedTile(t: seq<sint16>, q: seq<nat>): (r: seq<sint16>)
    requires |t| == TILE && Values(q)
    ensures |r| == TILE
  {
    seq(TILE, i requires 0 <= i < TILE => Quantised(t[i], Factor(q, i)))
  }

  /** Quantising a dequantised tile restores it exactly when every dequantised value fits 16 bits. */
  lemma TileQuantisedDequantised(t: seq<sint16>, q: seq<nat>)
    requires |t| == TILE && Values(q)
    ensures QuantisedTile(DequantisedTile(t, q), q) == t
       <==> forall i :: 0 <= i < TILE ==> In16(Shl(t[i], 5 + Factor(q, i)))
  {
    hide Quantised, Dequantised, Factor, In16, Shl;
    var r := QuantisedTile(DequantisedTile(t, q), q);
    forall i | 0 <= i < TILE
      ensures r[i] == t[i] <==> In16(Shl(t[i], 5 + Factor(q, i)))
    {
      QuantisedDequantised(t[i], Factor(q, i));
    }
  }

  /** Dequantising a quantised tile errs by at most 33/64 of a band's full step, wherever a coefficient is restorable. */
  lemma TileDequantisedQuantised(t: seq<sint16>, q: seq<nat>, i: nat)
    requires |t| == TILE && Values(q) && i < TILE
    ensures var error := DequantisedTile(QuantisedTile(t, q), q)[i] as int - t[i] as int;
      -33 * Pow2(q[BandOf(i)] - 6) <= 2 * error <= 33 * Pow2(q[BandOf(i)] - 6) <==> Restorable(t[i], Factor(q, i))
  {
    hide Quantised, Dequantised, Restorable, BandOf;
    DequantisedQuantised(t[i], Factor(q, i));
  }

  // ---------- In place ----------

  method DecodeBlock(buffer: array<sint16>, off: nat, size: nat, factor: nat)
    requires off + size <= buffer.Length
    modifies buffer
    ensures forall i :: off <= i < off + size ==> buffer[i] == Scaled(old(buffer[i]), factor)
    ensures forall i :: 0 <= i < buffer.Length && (i < off || i >= off + size) ==> buffer[i] == old(buffer[i])
  {
    hide Scaled;
    if factor == 0 {
      ScaledByZero(buffer[..]);
      return;
    }
    var dst := off;
    while dst < off + size
      invariant off <= dst <= off + size
      invariant forall i :: off <= i < dst ==> buffer[i] == Scaled(old(buffer[i]), factor)
      invariant forall i :: 0 <= i < buffer.Length && (i < off || i >= dst) ==> buffer[i] == old(buffer[i])
    {
      buffer[dst] := Scaled(buffer[dst], factor);
      dst := dst + 1;
    }
  }

  lemma ScaledByZero(s: seq<sint16>)
    ensures forall i :: 0 <= i < |s| ==> Scaled(s[i], 0) == s[i] && Rounded(s[i], 0) == s[i]
  {
  }

  method EncodeBlock(buffer: array<sint16>, off: nat, size: nat, factor: nat)
    requires off + size <= buffer.Length
    modifies buffer
    ensures forall i :: off <= i < off + size ==> buffer[i] == Rounded(old(buffer[i]), factor)
    ensures forall i :: 0 <= i < buffer.Length && (i < off || i >= off + size) ==> buffer[i] == old(buffer[i])
  {
    hide Wrap16, Asr;
    if factor == 0 {
      ScaledByZero(buffer[..]);
      return;
    }
    var half := Pow2(factor - 1);
    var dst := off;
    while dst < off + size
      invariant off <= dst <= off + size
      invariant forall i :: off <= i < dst ==> buffer[i] == Rounded(old(buffer[i]), factor)
      invariant forall i :: 0 <= i < buffer.Length && (i < off || i >= dst) ==> buffer[i] == old(buffer[i])
    {
      var x: int := buffer[dst];
      buffer[dst] := Wrap16(Asr(x + half, factor));
      dst := dst + 1;
    }
  }

  /** The bands of one level that follow one another from off on: HL, LH and HH. */
  method DecodeLevel(buffer: array<sint16>, off: nat, size: nat, hl: nat, lh: nat, hh: nat)
    requires off + 3 * size <= buffer.Length
    modifies buffer
    ensures forall i :: off <= i < off + 3 * size ==>
      buffer[i] == Scaled(old(buffer[i]), if i < off + size then hl else if i < off + 2 * size then lh else hh)
    ensures forall i :: 0 <= i < buffer.Length && (i < off || i >= off + 3 * size) ==> buffer[i] == old(buffer[i])
  {
    hide Scaled;
    DecodeBlock(buffer, off, size, hl);
    DecodeBlock(buffer, off + size, size, lh);
    DecodeBlock(buffer, off + 2 * size, size, hh);
  }

  method EncodeLevel(buffer: array<sint16>, off: nat, size: nat, hl: nat, lh: nat, hh: nat)
    requires off + 3 * size <= buffer.Length
    modifies buffer
    ensures forall i :: off <= i < off + 3 * size ==>
      buffer[i] == Rounded(old(buffer[i]), if i < off + size then hl else if i < off + 2 * size then lh else hh)
    ensures forall i :: 0 <= i < buffer.Length && (i < off || i >= off + 3 * size) ==> buffer[i] == old(buffer[i])
  {
    hide Rounded;
    EncodeBlock(buffer, off, size, hl);
    EncodeBlock(buffer, off + size, size, lh);
    EncodeBlock(buffer, off + 2 * size, size, hh);
  }

  method Decode(buffer: array<sint16>, q: seq<nat>)
    requires buffer.Length == TILE && Values(q)
    modifies buffer
    ensures buffer[..] == DequantisedTile(old(buffer[..]), q)
  {
    hide Scaled;
    DecodeBlock(buffer, 0, 4096, 5);
    DecodeLevel(buffer, 0, 1024, q[8] - 6, q[7] - 6, q[9] - 6);
    DecodeLevel(buffer, 3072, 256, q[5] - 6, q[4] - 6, q[6] - 6);
    DecodeLevel(buffer, 3840, 64, q[2] - 6, q[1] - 6, q[3] - 6);
    DecodeBlock(buffer, 4032, 64, q[0] - 6);
  }

  method Encode(buffer: array<sint16>, q: seq<nat>)
    requires buffer.Length == TILE && Values(q)
    modifies buffer
    ensures buffer[..] == QuantisedTile(old(buffer[..]), q)
  {
    hide Rounded;
    EncodeLevel(buffer, 0, 1024, q[8] - 6, q[7] - 6, q[9] - 6);
    EncodeLevel(buffer, 3072, 256, q[5] - 6, q[4] - 6, q[6] - 6);
    EncodeLevel(buffer, 3840, 64, q[2] - 6, q[1] - 6, q[3] - 6);
    EncodeBlock(buffer, 4032, 64, q[0] - 6);
    EncodeBlock(buffer, 0, 4096, 5);
  }

  // ---------- Values that are not restored ----------

  /** With the finest step 1024 is dequantised past the 16-bit range and comes back as -1024. */
  lemma LargeValueLost()
    ensures Dequantised(1024, 0) == -32768 && Quantised(Dequantised(1024, 0), 0) == -1024
  {
    hide Shl, Asr, Pow2;
    ShiftsOfFive();
    assert Scaled(1024, 5) == -32768;
  }

  /** With the finest step 32767 rounds up to a value that is dequantised to -32768. */
  lemma LargeCoefficientLost()
    ensures Quantised(32767, 0) == 1024 && Dequantised(Quantised(32767, 0), 0) == -32768
  {
    hide Dequantised, Shl, Asr, Pow2;
    LargeValueLost();
    ShiftsOfFive();
  }

  lemma ShiftsOfFive()
    ensures Shl(1024, 5) == 32768 && Shl(-32768, 0) == -32768 && Asr(-32768 + Pow2(4), 5) == -1024 && Asr(32767 + Pow2(4), 5) == 1024
  {
    assert Pow2(4) == 16;
    assert Shl(1024, 5) == 32 * Shl(1024, 0);
    assert Asr(-32752, 5) == Asr(-8188, 3) == Asr(-2047, 1) == -1024;
    assert Asr(32783, 5) == Asr(8195, 3) == Asr(2048, 1) == 1024;
  }
}

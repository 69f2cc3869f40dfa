/** Decoding what the RLGR encoder emitted, for every input, both modes and every adaptive state. */
module RlgrRoundTrip {
  import opened Bits
  import opened RlgrSpec

  lemma TwoMsInverse(v: sint16)
    ensures FromTwoMs(TwoMs(v)) == v
  {
  }

  lemma FromTwoMsInverse(t: nat)
    requires t <= 0xFFFF
    ensures TwoMs(FromTwoMs(t)) == t
  {
    if t % 2 == 1 {
      var h := (t + 1) / 2;
      assert (t + 1) % 0x1_0000_0000 == 2 * h;
      assert FromTwoMs(t) == -h;
    } else {
      assert FromTwoMs(t) == t / 2;
    }
  }

  // ---------- Golomb-Rice codes ----------

  lemma {:induction false} LeadingOnesCode(n: nat, rest: seq<bool>)
    ensures LeadingOnes(Ones(n) + ([false] + rest)) == n
  {
    if n > 0 {
      var b := Ones(n) + ([false] + rest);
      assert b[1..] == Ones(n - 1) + ([false] + rest);
      LeadingOnesCode(n - 1, rest);
    }
  }

  /** Reading a Golomb-Rice code gives the value back, modulo the 16 bits the decoder keeps. */
  lemma ReadGrCode(krp: Param, val: nat, rest: seq<bool>)
    ensures ReadGr(GrCode(krp, val) + rest, krp) == Gr(val % 0x1_0000, Shr(val, krp / 8), rest)
  {
    hide NatOf, Shr, Low, Shl, BitsOf, LeadingOnes, Take, Ones;
    var kr := krp / 8;
    var vk, low := Shr(val, kr), BitsOf(Low(val, kr), kr);
    var b := GrCode(krp, val) + rest;
    assert b == Ones(vk) + ([false] + (low + rest));
    LeadingOnesCode(vk, low + rest);
    assert Drop(b, vk + 1) == low + rest;
    TakeDropConcat(low, rest);
    NatOfBitsOf(Low(val, kr), kr);
    LowSmall(Low(val, kr), kr);
    ShrLow(val, kr);
  }

  // ---------- Runs of zeros ----------

  lemma {:induction false} ReadRunCode(kp: Param, z: nat, rest: seq<bool>)
    ensures ReadRun(RunCode(kp, z) + rest, kp) == Run(z, RunNext(kp, z), rest)
    decreases z
  {
    var b := RunCode(kp, z) + rest;
    if z >= Pow2(kp / 8) {
      var kp', z' := Update(kp, UP_GR), z - Pow2(kp / 8);
      assert b[1..] == RunCode(kp', z') + rest;
      ReadRunCode(kp', z', rest);
    } else {
      assert b[1..] == BitsOf(z, kp / 8) + rest;
      TakeDropConcat(BitsOf(z, kp / 8), rest);
      NatOfBitsOf(z, kp / 8);
      LowSmall(z, kp / 8);
    }
  }

  // ---------- Symbols ----------

  lemma RunSymbol(data: seq<sint16>, kp: Param, krp: Param, rest: seq<bool>)
    requires data != []
    ensures var e := EncodeRun(data, kp, krp);
      DecodeRun(e.code + rest, kp, krp)
      == Decoded(if data[e.used - 1] == 0 then data[..e.used - 1] + [1] else data[..e.used], e.kp, e.krp, rest)
  {
    hide GrCode, ReadGr, RunCode, ReadRun, RunNext, GrNext, Shr, Update;
    var z := ZeroRun(data);
    var v, e := data[z], EncodeRun(data, kp, krp);
    var gr := GrCode(krp, RunMag(v));
    assert e.code + rest == RunCode(kp, z) + ([v < 0] + (gr + rest));
    ReadRunCode(kp, z, [v < 0] + (gr + rest));
    assert Drop([v < 0] + (gr + rest), 1) == gr + rest;
    ReadGrCode(krp, RunMag(v), rest);
    assert data[..z + 1] == data[..z] + [v];
  }

  lemma OneSymbol(data: seq<sint16>, kp: Param, krp: Param, rest: seq<bool>)
    requires data != []
    ensures var e := EncodeOne(data, kp, krp);
      DecodeOne(e.code + rest, kp, krp) == Decoded([data[0]], e.kp, e.krp, rest)
  {
    hide GrCode, ReadGr, FromTwoMs, GrNext, Shr, Update;
    ReadGrCode(krp, TwoMs(data[0]), rest);
    TwoMsInverse(data[0]);
  }

  lemma {:induction false} MinBitsBound(a: nat, v: nat)
    requires a <= v
    ensures a < Pow2(MinBits(v))
  {
    if v > 0 {
      MinBitsBound(a / 2, v / 2);
    }
  }

  /** A pair comes back exactly when the coded sum fits the 16 bits the decoder keeps. */
  lemma PairSymbol(data: seq<sint16>, kp: Param, krp: Param, rest: seq<bool>)
    requires data != [] && TwoMs(data[0]) + TwoMs(Second(data)) <= 0xFFFF
    ensures var e := EncodePair(data, kp, krp);
      DecodePair(e.code + rest, kp, krp) == Decoded([data[0], Second(data)], e.kp, e.krp, rest)
  {
    hide GrCode, ReadGr, FromTwoMs, GrNext, Shr, Low, NatOf, BitsOf, MinBits, TwoMs, Take, Drop, Pow2, PairKp;
    var t1, t2 := TwoMs(data[0]), TwoMs(Second(data));
    var n := MinBits(t1 + t2);
    var e := EncodePair(data, kp, krp);
    assert e.code + rest == GrCode(krp, t1 + t2) + (BitsOf(t1, n) + rest);
    ReadGrCode(krp, t1 + t2, BitsOf(t1, n) + rest);
    TakeDropConcat(BitsOf(t1, n), rest);
    NatOfBitsOf(t1, n);
    MinBitsBound(t1, t1 + t2);
    LowSmall(t1, n);
    TwoMsInverse(data[0]);
    TwoMsInverse(Second(data));
  }

  lemma {:induction false} ShrHalves(t: nat, n: nat)
    requires n > 0
    ensures Shr(t, n) <= t / 2
  {
    if n > 1 {
      ShrHalves(t / 2, n - 1);
    }
  }

  lemma {:induction false} MinBitsAtLeast(v: nat, n: nat)
    requires Pow2(n) <= v
    ensures MinBits(v) > n
  {
    if n > 0 {
      MinBitsAtLeast(v / 2, n - 1);
    }
  }

  lemma {:induction false} LowAtMost(v: nat, n: nat)
    ensures Low(v, n) <= v
  {
    if n > 0 {
      LowAtMost(v / 2, n - 1);
    }
  }

  /** The leading m of the n bits of t, read as a number, are less than t. */
  lemma LeadingBitsSmaller(t: nat, n: nat, m: nat, rest: seq<bool>)
    requires t > 0 && m < n
    ensures NatOf(Take(BitsOf(t, n) + rest, m)) < t
  {
    hide NatOf, Low, BitsOf, Shr;
    BitsSplit(t, m, n - m);
    assert Take(BitsOf(t, n) + rest, m) == BitsOf(Shr(t, n - m), m);
    NatOfBitsOf(Shr(t, n - m), m);
    LowAtMost(Shr(t, n - m), m);
    ShrHalves(t, n - m);
  }

  /** A sum of 2^16 or more loses its top bit, and the first value of the pair comes back wrong. */
  lemma PairOverflow(data: seq<sint16>, kp: Param, krp: Param, rest: seq<bool>)
    requires data != [] && TwoMs(data[0]) + TwoMs(Second(data)) > 0xFFFF
    ensures DecodePair(EncodePair(data, kp, krp).code + rest, kp, krp).values[0] != data[0]
  {
    hide GrCode, ReadGr, FromTwoMs, GrNext, Shr, NatOf, BitsOf, MinBits, TwoMs, Take, Drop, PairKp;
    var t1, sum := TwoMs(data[0]), TwoMs(data[0]) + TwoMs(Second(data));
    var n, m := MinBits(sum), MinBits(sum % 0x1_0000);
    var b := EncodePair(data, kp, krp).code + rest;
    assert b == GrCode(krp, sum) + (BitsOf(t1, n) + rest);
    ReadGrCode(krp, sum, BitsOf(t1, n) + rest);
    Pow16();
    MinBitsAtMost(sum % 0x1_0000, 16);
    MinBitsAtLeast(sum, 16);
    LeadingBitsSmaller(t1, n, m, rest);
    FromTwoMsInverse(NatOf(Take(BitsOf(t1, n) + rest, m)));
    TwoMsInverse(data[0]);
  }

  // ---------- Whole streams ----------

  /** Whether the symbol coded next is a pair whose sum does not fit 16 bits. */
  predicate PairTooBig(mode: Mode, data: seq<sint16>, kp: Param)
    requires data != []
  {
    mode == RLGR3 && kp / 8 == 0 && TwoMs(data[0]) + TwoMs(Second(data)) > 0xFFFF
  }

  /** Whether every pair the encoder codes, along its adaptive path, has a sum that fits 16 bits. */
  predicate PairsFit(mode: Mode, data: seq<sint16>, kp: Param, krp: Param)
    decreases |data|
  {
    data == [] ||
    var e := EncodeSymbol(mode, data, kp, krp);
    !PairTooBig(mode, data, kp) && PairsFit(mode, data[e.used..], e.kp, e.krp)
  }

  /** Whether the last value is a zero that the encoder codes in run-length mode. */
  predicate EndsInRunZero(mode: Mode, data: seq<sint16>, kp: Param, krp: Param)
    decreases |data|
  {
    data != [] && data[|data| - 1] == 0 &&
    var e := EncodeSymbol(mode, data, kp, krp);
    if e.used == |data| then kp / 8 > 0 else EndsInRunZero(mode, data[e.used..], e.kp, e.krp)
  }

  /** What the decoder makes of data: itself, except that a final run-length zero becomes one. */
  function Restored(mode: Mode, data: seq<sint16>, kp: Param, krp: Param): seq<sint16> {
    if EndsInRunZero(mode, data, kp, krp) then data[..|data| - 1] + [1] else data
  }

  /** One turn of the decoder undoes one turn of the encoder and leaves both with the same parameters. */
  lemma SymbolRoundTrip(mode: Mode, data: seq<sint16>, kp: Param, krp: Param, rest: seq<bool>)
    requires data != [] && !PairTooBig(mode, data, kp)
    ensures var e := EncodeSymbol(mode, data, kp, krp);
      && e.code != []
      && var d := DecodeSymbol(mode, e.code + rest, kp, krp);
      && d.rest == rest && d.kp == e.kp && d.krp == e.krp
      && (e.used < |data| ==> d.values == data[..e.used])
      && Take(d.values, e.used) == if kp / 8 > 0 && data[e.used - 1] == 0 then data[..e.used - 1] + [1] else data[..e.used]
  {
    hide GrCode, RunCode, DecodeRun, DecodeOne, DecodePair, GrNext, RunNext, Update, PairKp, TwoMs, MinBits, BitsOf, Shr;
    CodeNonEmpty(mode, data, kp, krp);
    if kp / 8 > 0 {
      RunSymbol(data, kp, krp, rest);
    } else if mode == RLGR1 {
      OneSymbol(data, kp, krp, rest);
      assert data[..1] == [data[0]];
    } else {
      PairSymbol(data, kp, krp, rest);
    }
  }

  lemma CodeNonEmpty(mode: Mode, data: seq<sint16>, kp: Param, krp: Param)
    requires data != []
    ensures EncodeSymbol(mode, data, kp, krp).code != []
  {
  }

  lemma EncodeFromStep(mode: Mode, data: seq<sint16>, kp: Param, krp: Param, pad: seq<bool>)
    requires data != []
    ensures var e := EncodeSymbol(mode, data, kp, krp);
      EncodeFrom(mode, data, kp, krp) + pad == e.code + (EncodeFrom(mode, data[e.used..], e.kp, e.krp) + pad)
  {
    hide EncodeSymbol;
  }

  lemma RestoredStep(mode: Mode, data: seq<sint16>, kp: Param, krp: Param)
    requires data != []
    ensures var e := EncodeSymbol(mode, data, kp, krp);
      && (e.used < |data| ==>
        Restored(mode, data, kp, krp) == data[..e.used] + Restored(mode, data[e.used..], e.kp, e.krp))
      && (e.used == |data| ==>
        Restored(mode, data, kp, krp) == if kp / 8 > 0 && data[e.used - 1] == 0 then data[..e.used - 1] + [1] else data[..e.used])
  {
    hide EncodeSymbol;
    var e := EncodeSymbol(mode, data, kp, krp);
    assert data == data[..e.used] + data[e.used..];
  }

  lemma TakeConcat<T>(a: seq<T>, b: seq<T>, n: nat)
    ensures Take(a + b, |a| + n) == a + Take(b, n)
    ensures n <= |a| ==> Take(a + b, n) == Take(a, n)
  {
  }

  /** The round trip, from any state and with any bits after the code. */
  lemma {:induction false} RoundTripFrom(mode: Mode, data: seq<sint16>, kp: Param, krp: Param, pad: seq<bool>)
    requires PairsFit(mode, data, kp, krp)
    ensures Take(DecodeFrom(mode, EncodeFrom(mode, data, kp, krp) + pad, kp, krp), |data|) == Restored(mode, data, kp, krp)
    decreases |data|
  {
    hide EncodeSymbol, DecodeSymbol, EncodeFrom, DecodeFrom, Take;
    if data == [] {
      NothingRestored(mode, kp, krp, DecodeFrom(mode, EncodeFrom(mode, data, kp, krp) + pad, kp, krp));
    } else {
      hide Restored;
      var e := EncodeSymbol(mode, data, kp, krp);
      var data' := data[e.used..];
      var tail := EncodeFrom(mode, data', e.kp, e.krp) + pad;
      EncodeFromStep(mode, data, kp, krp, pad);
      SymbolRoundTrip(mode, data, kp, krp, tail);
      RoundTripFrom(mode, data', e.kp, e.krp, pad);
      DecodeFromStep(mode, e.code + tail, kp, krp);
      RestoredStep(mode, data, kp, krp);
      var d := DecodeSymbol(mode, e.code + tail, kp, krp);
      var out := DecodeFrom(mode, tail, e.kp, e.krp);
      if e.used < |data| {
        TakeConcat(data[..e.used], out, |data'|);
      } else {
        TakeAll(d.values, e.used);
        TakeConcat(d.values, out, e.used);
      }
    }
  }

  lemma NothingRestored(mode: Mode, kp: Param, krp: Param, out: seq<sint16>)
    ensures Take(out, 0) == Restored(mode, [], kp, krp)
  {
  }

  lemma TakeAll<T>(s: seq<T>, n: nat)
    ensures |Take(s, n)| == n ==> n <= |s|
  {
  }

  /** A pair that does not fit is never restored: position p of the output is wrong. */
  lemma {:induction false} OverflowFrom(mode: Mode, data: seq<sint16>, kp: Param, krp: Param, pad: seq<bool>)
    returns (p: nat)
    requires !PairsFit(mode, data, kp, krp)
    ensures var out := DecodeFrom(mode, EncodeFrom(mode, data, kp, krp) + pad, kp, krp);
      p < |data| && p < |out| && out[p] != data[p]
    decreases |data|
  {
    hide EncodeSymbol, DecodeSymbol, TwoMs, EncodeFrom, DecodeFrom;
    var e := EncodeSymbol(mode, data, kp, krp);
    var data' := data[e.used..];
    var tail := EncodeFrom(mode, data', e.kp, e.krp) + pad;
    EncodeFromStep(mode, data, kp, krp, pad);
    if PairTooBig(mode, data, kp) {
      FirstValueWrong(mode, data, kp, krp, tail);
      CodeNonEmpty(mode, data, kp, krp);
      DecodeFromStep(mode, e.code + tail, kp, krp);
      p := 0;
    } else {
      SymbolRoundTrip(mode, data, kp, krp, tail);
      var q := OverflowFrom(mode, data', e.kp, e.krp, pad);
      DecodeFromStep(mode, e.code + tail, kp, krp);
      p := e.used + q;
      Shifted(data[..e.used], DecodeFrom(mode, tail, e.kp, e.krp), data, q);
    }
  }

  /** A difference behind a common prefix. */
  lemma Shifted<T>(a: seq<T>, out: seq<T>, data: seq<T>, q: nat)
    requires |a| <= |data| && q < |data[|a|..]| && q < |out| && out[q] != data[|a|..][q]
    ensures |a| + q < |data| && (a + out)[|a| + q] != data[|a| + q]
  {
  }

  lemma FirstValueWrong(mode: Mode, data: seq<sint16>, kp: Param, krp: Param, rest: seq<bool>)
    requires data != [] && PairTooBig(mode, data, kp)
    ensures var e := EncodeSymbol(mode, data, kp, krp);
      e.code != [] && |DecodeSymbol(mode, e.code + rest, kp, krp).values| > 0
      && DecodeSymbol(mode, e.code + rest, kp, krp).values[0] != data[0]
  {
    hide GrCode, TwoMs, MinBits, BitsOf, Shr, ReadGr;
    CodeNonEmpty(mode, data, kp, krp);
    PairOverflow(data, kp, krp, rest);
  }

  /**
   Decoding restores the input exactly when every coded pair fits 16 bits and the input does not end in a
   zero coded in run-length mode. The bytes may hold anything after the code.
   */
  lemma RoundTrip(mode: Mode, data: seq<sint16>, bytes: seq<byte>, pad: seq<bool>)
    requires BytesBits(bytes) == Encode(mode, data) + pad
    ensures Decode(mode, bytes, |data|) == data
        <==> PairsFit(mode, data, 8, 8) && !EndsInRunZero(mode, data, 8, 8)
    ensures PairsFit(mode, data, 8, 8) ==> Decode(mode, bytes, |data|) == Restored(mode, data, 8, 8)
    ensures !PairsFit(mode, data, 8, 8) ==>
      exists p :: 0 <= p < |data| && p < |Decode(mode, bytes, |data|)| && Decode(mode, bytes, |data|)[p] != data[p]
  {
    hide BytesBits, EncodeFrom, DecodeFrom, PairsFit;
    if PairsFit(mode, data, 8, 8) {
      RoundTripFrom(mode, data, 8, 8, pad);
    } else {
      var p := OverflowFrom(mode, data, 8, 8, pad);
      assert Decode(mode, bytes, |data|)[p] != data[p];
    }
  }

  /** RLGR1 codes no pairs, and values from -16384 to 16383 always fit. */
  lemma {:induction false} SmallPairsFit(mode: Mode, data: seq<sint16>, kp: Param, krp: Param)
    requires mode == RLGR1 || forall i :: 0 <= i < |data| ==> -0x4000 <= data[i] < 0x4000
    ensures PairsFit(mode, data, kp, krp)
    decreases |data|
  {
    hide EncodeSymbol;
    if data != [] {
      var e := EncodeSymbol(mode, data, kp, krp);
      SmallPairsFit(mode, data[e.used..], e.kp, e.krp);
    }
  }

  // ---------- A code that was cut short ----------

  /** How many values of data belong to symbols that lie within the first n bits of its code. */
  function Complete(mode: Mode, data: seq<sint16>, kp: Param, krp: Param, n: nat): (c: nat)
    ensures c <= |data|
    decreases |data|
  {
    if data == [] then 0 else
      var e := EncodeSymbol(mode, data, kp, krp);
      if |e.code| > n then 0 else e.used + Complete(mode, data[e.used..], e.kp, e.krp, n - |e.code|)
  }

  lemma EncodeFromCut(mode: Mode, data: seq<sint16>, kp: Param, krp: Param, n: nat)
    requires data != [] && n < |EncodeFrom(mode, data, kp, krp)|
    ensures var e := EncodeSymbol(mode, data, kp, krp);
      var tail := EncodeFrom(mode, data[e.used..], e.kp, e.krp);
      |e.code| <= n ==>
        && n - |e.code| < |tail| && e.used < |data|
        && EncodeFrom(mode, data, kp, krp)[..n] == e.code + tail[..n - |e.code|]
  {
    hide EncodeSymbol;
  }

  lemma {:induction false} CutFrom(mode: Mode, data: seq<sint16>, kp: Param, krp: Param, n: nat)
    requires PairsFit(mode, data, kp, krp) && n < |EncodeFrom(mode, data, kp, krp)|
    ensures var c := Complete(mode, data, kp, krp, n);
      c < |data| && Take(DecodeFrom(mode, EncodeFrom(mode, data, kp, krp)[..n], kp, krp), c) == data[..c]
    decreases |data|
  {
    hide EncodeSymbol, DecodeSymbol, EncodeFrom, DecodeFrom, Take;
    if data == [] {
      NothingCoded(mode, kp, krp);
      assert false;
    }
    var e := EncodeSymbol(mode, data, kp, krp);
    var out := DecodeFrom(mode, EncodeFrom(mode, data, kp, krp)[..n], kp, krp);
    if |e.code| > n {
      NothingRestored(mode, kp, krp, out);
    } else {
      EncodeFromCut(mode, data, kp, krp, n);
      var data' := data[e.used..];
      var tail := EncodeFrom(mode, data', e.kp, e.krp)[..n - |e.code|];
      SymbolRoundTrip(mode, data, kp, krp, tail);
      CutFrom(mode, data', e.kp, e.krp, n - |e.code|);
      DecodeFromStep(mode, e.code + tail, kp, krp);
      var c := Complete(mode, data', e.kp, e.krp, n - |e.code|);
      TakeConcat(data[..e.used], DecodeFrom(mode, tail, e.kp, e.krp), c);
      assert data[..e.used] + data'[..c] == data[..e.used + c];
    }
  }

  lemma NothingCoded(mode: Mode, kp: Param, krp: Param)
    ensures EncodeFrom(mode, [], kp, krp) == []
  {
  }

  /** A code that did not fit its buffer still restores every value whose symbol lies wholly inside. */
  lemma CutRoundTrip(mode: Mode, data: seq<sint16>, bytes: seq<byte>)
    requires PairsFit(mode, data, 8, 8) && 8 * |bytes| < |Encode(mode, data)|
    requires BytesBits(bytes) == Encode(mode, data)[..8 * |bytes|]
    ensures var c := Complete(mode, data, 8, 8, 8 * |bytes|);
      c < |data| && c <= |Decode(mode, bytes, |data|)| && Decode(mode, bytes, |data|)[..c] == data[..c]
  {
    hide BytesBits, EncodeFrom, DecodeFrom, PairsFit, Complete;
    CutFrom(mode, data, 8, 8, 8 * |bytes|);
  }

  // ---------- Inputs that are not restored ----------

  /** Two values of 32767 coded as a pair are never restored: here from the coder's start, behind a single 1. */
  lemma LargePairOverflows()
    ensures !PairsFit(RLGR3, [1, 32767, 32767], 8, 8)
  {
    var data: seq<sint16> := [1, 32767, 32767];
    var e := EncodeSymbol(RLGR3, data, 8, 8);
    assert RunNext(8, 0) == 8;
    assert e.used == 1 && e.kp == 2;
    assert data[1..] == [32767, 32767];
  }

  /** A single zero comes back as one. */
  lemma FinalZeroRaised(mode: Mode, bytes: seq<byte>, pad: seq<bool>)
    requires BytesBits(bytes) == Encode(mode, [0]) + pad
    ensures EndsInRunZero(mode, [0], 8, 8) && Decode(mode, bytes, 1) == [1]
  {
    hide BytesBits, Encode, Decode;
    var data: seq<sint16> := [0];
    assert EncodeSymbol(mode, data, 8, 8).used == 1;
    assert data[1..] == [];
    RoundTrip(mode, data, bytes, pad);
  }
}

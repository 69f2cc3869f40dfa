/**
 One colour component of a RemoteFX tile: wavelet, quantisation, differential coding of LL3, entropy coding, and the
 same stages undone in reverse order.
 */
module Component {
  import opened Bits
  import opened Grid
  import opened DwtLine
  import DwtBlock
  import DwtLevels
  import opened DwtTile
  import opened Quantization
  import Differential
  import TileLossless
  import RlgrSpec
  import RlgrRoundTrip
  import Rlgr

  /** The quantised coefficients of a component. */
  function Coefficients(s: seq<sint16>, q: seq<nat>): (t: seq<sint16>)
    requires |s| == TILE && Values(q)
    ensures |t| == TILE
  {
    QuantisedTile(DwtLevels.EncodedTile(s), q)
  }

  function Samples(t: seq<sint16>, q: seq<nat>): (s: seq<sint16>)
    requires |t| == TILE && Values(q)
    ensures |s| == TILE
  {
    DwtLevels.DecodedTile(DequantisedTile(t, q))
  }

  method EncodeComponent(mode: RlgrSpec.Mode, q: seq<nat>, data: array<sint16>, dwt: array<sint16>, buffer: array<byte>,
                         bufferSize: nat) returns (size: nat)
    requires Values(q) && data.Length == TILE && dwt.Length == TILE && data != dwt && bufferSize <= buffer.Length
    modifies data, dwt, buffer
    ensures data[..] == TileLossless.Prepared(Coefficients(old(data[..]), q))
    ensures var code := RlgrSpec.Encode(mode, data[..]);
      var n := Min(|code|, 8 * bufferSize);
      && size == (n + 7) / 8 <= bufferSize
      && BytesBits(buffer[..bufferSize]) == code[..n] + BytesBits(old(buffer[..bufferSize]))[n..]
  {
    hide BytesBits, RlgrSpec.Encode, DwtLevels.EncodedTile, QuantisedTile, Differential.Differences;
    DwtLevels.Encode(data, dwt);
    Quantization.Encode(data, q);
    ghost var t := data[..];
    Differential.Encode(data, 4032, 64);
    assert data[..] == TileLossless.Prepared(t) by {
      assert t[4032..] == t[4032..4096];
    }
    size := Rlgr.EncodeStream(mode, data[..], buffer, bufferSize);
  }

  method DecodeComponent(mode: RlgrSpec.Mode, q: seq<nat>, data: array<byte>, size: nat, buffer: array<sint16>, idwt: array<sint16>)
    requires Values(q) && size <= data.Length && buffer.Length == TILE && idwt.Length == TILE && buffer != idwt
    modifies buffer, idwt
    ensures buffer[..] == Samples(TileLossless.Decoded(mode, data[..size], old(buffer[..])), q)
  {
    hide BytesBits, RlgrSpec.Decode, DwtLevels.DecodedTile, DequantisedTile, Differential.Sums;
    var count := Rlgr.DecodeStream(mode, data, size, buffer, TILE);
    ghost var d := buffer[..];
    Differential.Decode(buffer, 4032, 64);
    assert buffer[..] == TileLossless.Recovered(d) by {
      assert d[4032..] == d[4032..4096];
    }
    Quantization.Decode(buffer, q);
    DwtLevels.Decode(buffer, idwt);
  }

  // ---------- Round trip ----------

  /** The code's own bytes, cut out of the buffer it was written to, still hold the whole code. */
  lemma CodeBytes(buffer: seq<byte>, code: seq<bool>, rest: seq<bool>) returns (pad: seq<bool>)
    requires BytesBits(buffer) == code + rest
    ensures (|code| + 7) / 8 <= |buffer| && BytesBits(buffer[..(|code| + 7) / 8]) == code + pad
  {
    hide BytesBits;
    var n := (|code| + 7) / 8;
    BytesBitsSplit(buffer, n);
    var head := BytesBits(buffer[..n]);
    pad := head[|code|..];
    assert head == (code + rest)[..8 * n];
    assert head[..|code|] == code;
  }

  // The entropy coder always restores a quantised tile: its values are small.

  lemma QuantisedSmall(v: sint16, f: nat)
    requires f <= MAX_FACTOR
    ensures Within(Quantised(v, f), 1024)
  {
    hide Rounded, Shl, Asr, Pow2;
    var y: int := Rounded(v, f);
    RoundedBounds(y, 5);
    Pow5();
    AsrAtLeast(-1024, y + 16, 5);
    AsrAtLeast(1025, y + 16, 5);
    ShlFive();
  }

  lemma ShlFive()
    ensures Shl(-1024, 5) == -32768 && Shl(1025, 5) == 32800
  {
  }

  lemma PreparedSmall(t: seq<sint16>, i: nat)
    requires |t| == TILE && AllWithin(t, 1024) && i < TILE
    ensures Within(TileLossless.Prepared(t)[i], 2048)
  {
    hide Sub16, Differential.Differences;
    assert Within(t[i], 1024);
    if i >= 4032 {
      Differential.DifferencesAt(t[4032..], i - 4032);
      if i > 4032 {
        assert Within(t[i - 1], 1024);
        SmallDifference(t[i], t[i - 1]);
      }
    }
  }

  lemma SmallDifference(a: int, b: int)
    requires Within(a, 1024) && Within(b, 1024)
    ensures Sub16(a, b) == a - b
  {
  }

  /** Every coded pair of a quantised tile fits 16 bits. */
  lemma CoefficientsPairsFit(mode: RlgrSpec.Mode, e: seq<sint16>, q: seq<nat>)
    requires |e| == TILE && Values(q)
    ensures AllWithin(QuantisedTile(e, q), 1024)
    ensures RlgrRoundTrip.PairsFit(mode, TileLossless.Prepared(QuantisedTile(e, q)), 8, 8)
  {
    hide Quantised, TileLossless.Prepared, RlgrRoundTrip.PairsFit, Factor;
    var t := QuantisedTile(e, q);
    forall i | 0 <= i < TILE
      ensures Within(t[i], 1024)
    {
      QuantisedSmall(e[i], Factor(q, i));
    }
    var d := TileLossless.Prepared(t);
    forall i | 0 <= i < TILE
      ensures -0x4000 <= d[i] < 0x4000
    {
      PreparedSmall(t, i);
    }
    RlgrRoundTrip.SmallPairsFit(mode, d, 8, 8);
  }

  // ---------- Error ----------

  /**
   The largest error of a restored coefficient with step 2^f: the quantiser's own, and one more whole step when the
   entropy coder has raised the coefficient by one.
   */
  function CoefficientError(f: nat, raised: bool): nat {
    (if raised then 97 else 33) * Pow2(f) / 2
  }

  /** The errors of the ten bands; only the last coefficient is ever raised, and it belongs to LL3. */
  function Errors(q: seq<nat>, raised: bool): (m: seq<int>)
    requires Values(q)
    ensures BandWise(m)
  {
    seq(10, k requires 0 <= k < 10 => CoefficientError(q[k] - 6, raised && k == 0))
  }

  /** The quantised tile as it is restored. */
  function Restored(t: seq<sint16>, raised: bool): (r: seq<sint16>)
    requires |t| == TILE
    ensures |r| == TILE
  {
    if raised then t[..TILE - 1] + [Add16(t[TILE - 1], 1)] else t
  }

  lemma RaisedStep(z: int, g: nat)
    requires g <= MAX_FACTOR && Within(z, 1024) && Within(Shl(z, 5 + g), 0x7FFF - 32 * Pow2(g))
    ensures Dequantised(z, g) == Shl(z, 5 + g) && Dequantised(Add16(z, 1), g) == Shl(z, 5 + g) + 32 * Pow2(g)
  {
    hide Shl, Pow2, Wrap16;
    WrapLaps(z + 1);
    ScaledTwice(z, 5, g);
    ScaledTwice(z + 1, 5, g);
    ShlAdd(z, 1, 5 + g);
    PowShl(5 + g);
    PowFive(g);
    WrapLaps(Shl(z, 5 + g));
    WrapLaps(Shl(z + 1, 5 + g));
  }

  lemma PowFive(g: nat)
    ensures Pow2(5 + g) == 32 * Pow2(g)
  {
    ShlPow(g, 5);
    var x := Pow2(g);
    assert Shl(x, 5) == 4 * Shl(x, 3) == 16 * Shl(x, 1) == 32 * x;
  }

  /** The largest coefficient of a tile of samples. */
  const COEFFICIENTS: nat := 24352

  /** One coefficient, whether or not it was raised by one in between. */
  lemma CoefficientNear(v: sint16, g: nat, raised: bool)
    requires g <= MAX_FACTOR && Within(v, COEFFICIENTS) && CoefficientError(g, raised) <= ERROR_RANGE
    ensures var z := Quantised(v, g);
      Errs(Dequantised(if raised then Add16(z, 1) else z, g), v, 0 - CoefficientError(g, raised), CoefficientError(g, raised))
  {
    hide Quantised, Dequantised, Shl, Pow2, Add16;
    PowRange(g);
    DequantisedQuantised(v, g);
    QuantisedSmall(v, g);
    if raised {
      var z := Quantised(v, g);
      RestorableFits(v, g);
      FitsExactly(z, g);
      RaisedStep(z, g);
    }
  }

  /** Without a wrap the dequantised value is the scaled one. */
  lemma FitsExactly(z: sint16, g: nat)
    requires In16(Shl(z, 5 + g))
    ensures Dequantised(z, g) == Shl(z, 5 + g)
  {
    hide Shl, Wrap16;
    ScaledTwice(z, 5, g);
    WrapLaps(Shl(z, 5 + g));
  }

  /** No band's error exceeds what all of them add up to. */
  lemma ErrorBelowTotal(m: seq<int>, k: nat)
    requires BandWise(m) && k < 10
    ensures m[k] <= Total(m)
  {
  }

  /** Every dequantised coefficient stays within the error of its band. */
  lemma CoefficientsNear(e: seq<sint16>, q: seq<nat>, raised: bool)
    requires |e| == TILE && Values(q) && Total(Errors(q, raised)) <= ERROR_RANGE && AllWithin(e, COEFFICIENTS)
    ensures NearByBand(DequantisedTile(Restored(QuantisedTile(e, q), raised), q), e, Errors(q, raised))
  {
    hide Quantised, Dequantised, Pow2, Add16, Total;
    var t, m := QuantisedTile(e, q), Errors(q, raised);
    var u := DequantisedTile(Restored(t, raised), q);
    forall i | 0 <= i < TILE
      ensures Errs(u[i], e[i], -m[BandOf(i)], m[BandOf(i)])
    {
      var g := Factor(q, i);
      var up := raised && i == TILE - 1;
      ErrorBelowTotal(m, BandOf(i));
      assert Within(e[i], COEFFICIENTS);
      CoefficientNear(e[i], g, up);
      assert u[i] == Dequantised(if up then Add16(t[i], 1) else t[i], g);
    }
  }

  /** All coefficients of a tile of samples. */
  lemma EncodedTileWithin(s: seq<sint16>)
    requires |s| == TILE && AllWithin(s, SAMPLES)
    ensures AllWithin(DwtLevels.EncodedTile(s), COEFFICIENTS)
  {
    hide DwtBlock.EncodedBlock, DwtLevels.EncodedTile, DwtBlock.Size;
    DwtLevels.LevelSizes();
    SamplesLevelsWithin(s);
    EncodedParts(s);
    EncodedWithin(s, 32, SAMPLES);
    EncodedWithin(SecondLevel(s), 16, 9218);
    EncodedWithin(ThirdLevel(s), 8, 10822);
  }

  /** Whether the last coefficient comes back one larger: a zero difference coded in run-length mode. */
  predicate Raised(mode: RlgrSpec.Mode, t: seq<sint16>)
    requires |t| == TILE
  {
    RlgrRoundTrip.EndsInRunZero(mode, TileLossless.Prepared(t), 8, 8)
  }

  /** What the quantisation errors of a component add up to in its samples. */
  function SampleError(mode: RlgrSpec.Mode, s: seq<sint16>, q: seq<nat>): int
    requires |s| == TILE && Values(q)
  {
    Total(Errors(q, Raised(mode, Coefficients(s, q))))
  }

  /**
   From samples to bytes and back: every decoded sample is within -T-21..T+6 of the original, where T adds up the
   errors of the bands, 33 * 2^f / 2 each (and 97 * 2^f / 2 in LL3 when the last coefficient is raised), LL3 once,
   HL and LH twice and HH four times.
   */
  lemma ComponentRoundTrip(mode: RlgrSpec.Mode, s: seq<sint16>, q: seq<nat>, bytes: seq<byte>, pad: seq<bool>, stale: seq<sint16>)
    requires |s| == TILE && AllWithin(s, SAMPLES) && Values(q) && |stale| == TILE && SampleError(mode, s, q) <= ERROR_RANGE
    requires BytesBits(bytes) == RlgrSpec.Encode(mode, TileLossless.Prepared(Coefficients(s, q))) + pad
    ensures var error := SampleError(mode, s, q);
      AllNear(Samples(TileLossless.Decoded(mode, bytes, stale), q), s, -error - 21, error + 6)
  {
    hide BytesBits, RlgrSpec.Encode, RlgrRoundTrip.PairsFit, RlgrRoundTrip.EndsInRunZero, DwtLevels.EncodedTile,
      DwtLevels.DecodedTile, QuantisedTile, DequantisedTile, TileLossless.Prepared, TileLossless.Decoded, LevelsWithin,
      AllNear, NearByBand, Total, Errors;
    var t := Coefficients(s, q);
    var raised := Raised(mode, t);
    CoefficientsPairsFit(mode, DwtLevels.EncodedTile(s), q);
    TileLossless.LosslessTile(mode, t, bytes, pad, stale);
    assert TileLossless.Decoded(mode, bytes, stale) == Restored(t, raised);
    RestoredNear(s, q, raised);
    SamplesLevelsWithin(s);
    TileDecodeNear(s, DequantisedTile(Restored(t, raised), q), Errors(q, raised));
  }

  lemma RestoredNear(s: seq<sint16>, q: seq<nat>, raised: bool)
    requires |s| == TILE && AllWithin(s, SAMPLES) && Values(q) && Total(Errors(q, raised)) <= ERROR_RANGE
    ensures NearByBand(DequantisedTile(Restored(Coefficients(s, q), raised), q), DwtLevels.EncodedTile(s), Errors(q, raised))
  {
    hide QuantisedTile, DequantisedTile, DwtLevels.EncodedTile, NearByBand, Total, Errors;
    EncodedTileWithin(s);
    CoefficientsNear(DwtLevels.EncodedTile(s), q, raised);
  }

  /** With the default table every sample comes back within -1385..+1370, and the vector code decodes it like the scalar code. */
  lemma DefaultTable(mode: RlgrSpec.Mode, s: seq<sint16>)
    requires |s| == TILE && AllWithin(s, SAMPLES)
    ensures Values(DEFAULT_QUANTS) && SampleError(mode, s, DEFAULT_QUANTS) <= 1364
    ensures var t := Coefficients(s, DEFAULT_QUANTS);
      DwtLevels.TileDecodeSumsFit(DequantisedTile(Restored(t, Raised(mode, t)), DEFAULT_QUANTS))
  {
    hide QuantisedTile, DequantisedTile, DwtLevels.EncodedTile, NearByBand, DwtLevels.TileDecodeSumsFit, Raised;
    var q := DEFAULT_QUANTS;
    assert Values(q);
    var raised := Raised(mode, Coefficients(s, q));
    DefaultErrors(raised);
    RestoredNear(s, q, raised);
    DecodeSumsFitTile(s, DequantisedTile(Restored(Coefficients(s, q), raised), q), Errors(q, raised));
  }

  lemma DefaultErrors(raised: bool)
    ensures Values(DEFAULT_QUANTS)
    ensures Errors(DEFAULT_QUANTS, raised) == [if raised then 48 else 16, 16, 16, 16, 33, 33, 66, 66, 66, 132]
    ensures Total(Errors(DEFAULT_QUANTS, raised)) == (if raised then 1364 else 1332) && VectorErrors(Errors(DEFAULT_QUANTS, raised))
  {
    assert Pow2(0) == 1 && Pow2(1) == 2 && Pow2(2) == 4 && Pow2(3) == 8;
  }

  /** A component through the encoder and the decoder, with room for the whole code. */
  method EncodeAndDecode(mode: RlgrSpec.Mode, q: seq<nat>, data: array<sint16>, dwt: array<sint16>, buffer: array<byte>, out: array<sint16>)
    returns (size: nat)
    requires Values(q) && data.Length == TILE && dwt.Length == TILE && out.Length == TILE && data != dwt && out != dwt
    requires AllWithin(data[..], SAMPLES) && SampleError(mode, data[..], q) <= ERROR_RANGE
    requires |RlgrSpec.Encode(mode, TileLossless.Prepared(Coefficients(data[..], q)))| <= 8 * buffer.Length
    modifies data, dwt, buffer, out
    ensures size <= buffer.Length
    ensures var error := SampleError(mode, old(data[..]), q);
      AllNear(out[..], old(data[..]), -error - 21, error + 6)
  {
    hide BytesBits, RlgrSpec.Encode, Coefficients, TileLossless.Prepared, TileLossless.Decoded, Samples, AllNear, SampleError, AllWithin;
    ghost var s := data[..];
    size := EncodeComponent(mode, q, data, dwt, buffer, buffer.Length);
    ghost var code := RlgrSpec.Encode(mode, data[..]);
    ghost var rest := BytesBits(old(buffer[..buffer.Length]))[|code|..];
    assert code[..|code|] == code;
    ghost var pad := CodeBytes(buffer[..buffer.Length], code, rest);
    assert buffer[..buffer.Length][..size] == buffer[..size];
    ghost var stale := out[..];
    DecodeComponent(mode, q, buffer, size, out, dwt);
    ComponentRoundTrip(mode, s, q, buffer[..size], pad, stale);
  }
}

/**
 What the three-level transform of a tile and its inverse make of the samples: no value leaves 16 bits, and an error
 in the coefficients of one band reaches the samples with that band's own weight.
 */
module DwtTile {
  import opened Bits
  import opened Grid
  import opened DwtLine
  import opened DwtBlock
  import opened DwtLevels
  import DwtGain
  import Sse2
  import opened Quantization

  /** Every value of u differs from that of t by lo..hi. */
  predicate AllNear(u: seq<sint16>, t: seq<sint16>, lo: int, hi: int) {
    |u| == |t| && forall i :: 0 <= i < |t| ==> Errs(u[i], t[i], lo, hi)
  }

  /** The inputs of the second and third level. */
  function SecondLevel(s: seq<sint16>): (b: seq<sint16>)
    requires |s| == TILE
    ensures |b| == 1024
  {
    LevelSizes();
    EncodedBlock(s, 32)[3072..]
  }

  function ThirdLevel(s: seq<sint16>): (b: seq<sint16>)
    requires |s| == TILE
    ensures |b| == 256
  {
    LevelSizes();
    EncodedBlock(SecondLevel(s), 16)[768..]
  }

  /** The encoded tile, level by level. */
  lemma EncodedParts(s: seq<sint16>)
    requires |s| == TILE
    ensures Size(32) == TILE && Size(16) == 1024 && Size(8) == 256
    ensures EncodedTile(s) == EncodedBlock(s, 32)[..3072] + EncodedBlock(SecondLevel(s), 16)[..768] + EncodedBlock(ThirdLevel(s), 8)
  {
    hide EncodedBlock, Size;
    LevelSizes();
    var e1, e2 := EncodedBlock(s, 32), EncodedBlock(SecondLevel(s), 16);
    assert s[0..] == s;
    assert EncodedLevel(s, 0, 32) == e1;
    var s2 := EncodedLevel(e1, 3072, 16);
    assert s2 == e1[..3072] + e2;
    assert s2[3840..] == e2[768..];
    assert s2[..3840] == e1[..3072] + e2[..768];
  }

  /** The decoded tile of three parts, level by level. */
  lemma DecodedParts(p: seq<sint16>, q: seq<sint16>, r: seq<sint16>)
    requires |p| == 3072 && |q| == 768 && |r| == 256
    ensures Size(32) == TILE && Size(16) == 1024 && Size(8) == 256
    ensures DecodedTile(p + q + r) == DecodedBlock(p + DecodedBlock(q + DecodedBlock(r, 8), 16), 32)
  {
    hide DecodedBlock, Size;
    LevelSizes();
    var e := p + q + r;
    assert e[3840..] == r && e[..3840] == p + q;
    var d1 := DecodedLevel(e, 3840, 8);
    assert d1 == p + q + DecodedBlock(r, 8);
    assert d1[3072..] == q + DecodedBlock(r, 8) && d1[..3072] == p;
    var d2 := DecodedLevel(d1, 3072, 16);
    assert d2 == p + DecodedBlock(q + DecodedBlock(r, 8), 16);
    assert d2[0..] == d2;
  }

  // ---------- Ranges ----------

  /** Every level starts from values within 14000. */
  predicate LevelsWithin(s: seq<sint16>)
    requires |s| == TILE
  {
    AllWithin(s, SAMPLE_RANGE) && AllWithin(SecondLevel(s), SAMPLE_RANGE) && AllWithin(ThirdLevel(s), SAMPLE_RANGE)
  }

  /** The forward transform of a block grows its values to nine quarters at most. */
  lemma EncodedWithin(b: seq<sint16>, W: nat, m: nat)
    requires Block(b, W) && AllWithin(b, m) && m <= SAMPLE_RANGE
    ensures AllWithin(EncodedBlock(b, W), (3 * ((3 * m + 2) / 2) + 2) / 2)
  {
    hide VertEncoded, HorizEncoded, RowLine, LowPass, HighPass, LowExact, HighExact, Size, Row, RowOf, ColOf;
    var d, e := VertEncoded(b, W), EncodedBlock(b, W);
    forall i | 0 <= i < |e|
      ensures Within(e[i], (3 * ((3 * m + 2) / 2) + 2) / 2)
    {
      SizeBands(W);
      RowBound(i, W, 4 * W);
      Split(i, W);
      var q, n := RowOf(i, W), ColOf(i, W);
      assert e[i] == BandCell(e, W, q, n);
      HorizEncodedAt(d, W, q, n);
      RowWithin(b, W, LineOf(q, W), m);
      LowRange(RowLine(d, W, LineOf(q, W)), W, n, (3 * m + 2) / 2);
      HighRange(RowLine(d, W, LineOf(q, W)), W, n, (3 * m + 2) / 2);
    }
  }

  /** The samples of a tile: the colour conversion clamps them to -4096..4095. */
  const SAMPLES: nat := 4096

  /** The cells of the second level are the LL sub-band of the first. */
  lemma SecondCell(s: seq<sint16>, r: nat, c: nat)
    requires |s| == TILE && r < 32 && c < 32
    ensures Size(32) == TILE && Size(16) == 1024
    ensures Cell(SecondLevel(s), 16, r, c) == BandCell(EncodedBlock(s, 32), 32, 96 + r, c)
  {
    hide EncodedBlock, Row;
    LevelSizes();
    RowAdd(96, r, 32);
    Inside(r, c, 32, 32);
    RowProduct(32, 32);
  }

  lemma ThirdCell(s: seq<sint16>, i: nat)
    requires |s| == TILE && i < 256
    ensures Size(16) == 1024 && RowOf(i, 16) < 16
    ensures ThirdLevel(s)[i] == BandCell(EncodedBlock(SecondLevel(s), 16), 16, 48 + RowOf(i, 16), ColOf(i, 16))
  {
    hide EncodedBlock, Row, RowOf, ColOf;
    LevelSizes();
    RowProduct(16, 16);
    RowBound(i, 16, 16);
    Split(i, 16);
    RowAdd(48, RowOf(i, 16), 16);
  }

  function Cells(s: seq<sint16>): DwtGain.Plane
    requires |s| == TILE
  {
    LevelSizes();
    (r: nat, c: nat) => if r < 64 && c < 64 then Cell(s, 32, r, c) else 0
  }

  /** Samples in range keep all three levels in range: the second starts within 9218, the third within 10822. */
  lemma SamplesLevelsWithin(s: seq<sint16>)
    requires |s| == TILE && AllWithin(s, SAMPLES)
    ensures AllWithin(SecondLevel(s), 9218) && AllWithin(ThirdLevel(s), 10822)
    ensures LevelsWithin(s)
  {
    hide EncodedBlock, Size, Row, Cell, BandCell, DwtGain.Down, DwtGain.Across, RowOf, ColOf;
    LevelSizes();
    EncodedWithin(s, 32, SAMPLES);
    var p := Cells(s);
    var p1 := DwtGain.Across(DwtGain.Down(p, 32), 32);
    var b := SecondLevel(s);
    assert DwtGain.PlaneNear(s, 32, 1, p, 0, 0);
    forall r: nat, c: nat | r < 32 && c < 32
      ensures Errs(64 * Cell(b, 16, r, c), p1(r, c), -148, 52)
    {
      SecondCell(s, r, c);
      DwtGain.LowLowKnown(s, 32, 1, p, 0, 0, r, c);
    }
    assert DwtGain.PlaneNear(b, 16, 64, p1, -148, 52);
    forall i | 0 <= i < 256
      ensures Within(ThirdLevel(s)[i], 10822)
    {
      ThirdCell(s, i);
      DwtGain.LowLowKnown(b, 16, 64, p1, -148, 52, RowOf(i, 16), ColOf(i, 16));
      CellsWithin(s);
      DwtGain.TwoLevels(p, 16, RowOf(i, 16), ColOf(i, 16), SAMPLES);
    }
  }

  lemma CellsWithin(s: seq<sint16>)
    requires |s| == TILE && AllWithin(s, SAMPLES)
    ensures forall i: nat, j: nat :: Within(Cells(s)(i, j), SAMPLES)
  {
    hide Row;
    LevelSizes();
    forall i: nat, j: nat | i < 64 && j < 64
      ensures Within(Cells(s)(i, j), SAMPLES)
    {
      Inside(i, j, 64, 64);
    }
  }

  // ---------- Errors ----------

  /** One error for each band, in the order of the quantisation table. */
  predicate BandWise(m: seq<int>) {
    |m| == 10 && forall k :: 0 <= k < 10 ==> 0 <= m[k]
  }

  /** The coefficients of u differ from those of t by no more than the error of their band. */
  predicate NearByBand(u: seq<sint16>, t: seq<sint16>, m: seq<int>)
    requires BandWise(m)
  {
    |u| == |t| == TILE && forall i :: 0 <= i < TILE ==> Errs(u[i], t[i], -m[BandOf(i)], m[BandOf(i)])
  }

  /** What the errors of the bands add up to in a sample: LL counts once, HL and LH twice and HH four times. */
  function Total(m: seq<int>): int
    requires BandWise(m)
  {
    m[0] + 2 * m[1] + 2 * m[2] + 4 * m[3] + 2 * m[4] + 2 * m[5] + 4 * m[6] + 2 * m[7] + 2 * m[8] + 4 * m[9]
  }

  /** The width of the sample range. */
  const ERROR_RANGE := 8192

  function ThirdErrors(m: seq<int>): BandErrors
    requires BandWise(m)
  {
    BandErrors(-m[0], m[0], m[2], m[1], m[3])
  }

  function SecondErrors(m: seq<int>): BandErrors
    requires BandWise(m)
  {
    BandErrors(ThirdErrors(m).SampleFrom(), ThirdErrors(m).SampleTo(), m[5], m[4], m[6])
  }

  function FirstErrors(m: seq<int>): BandErrors
    requires BandWise(m)
  {
    BandErrors(SecondErrors(m).SampleFrom(), SecondErrors(m).SampleTo(), m[8], m[7], m[9])
  }

  lemma SmallSlight(m: BandErrors)
    requires m.la <= 0 <= m.lb && m.hl >= 0 && m.lh >= 0 && m.hh >= 0
    requires m.SampleTo() <= ERROR_RANGE + 21 && -m.SampleFrom() <= ERROR_RANGE + 21
    ensures m.Slight()
  {
  }

  lemma ErrorsSlight(m: seq<int>)
    requires BandWise(m) && Total(m) <= ERROR_RANGE
    ensures ThirdErrors(m).Slight() && SecondErrors(m).Slight() && FirstErrors(m).Slight()
    ensures FirstErrors(m).SampleFrom() == -Total(m) - 21 && FirstErrors(m).SampleTo() == Total(m) + 6
  {
    hide DwtLine.Slight;
    SmallSlight(ThirdErrors(m));
    SmallSlight(SecondErrors(m));
    SmallSlight(FirstErrors(m));
  }

  /** The three high sub-bands of a block, off by no more than m. */
  predicate HighNear(p: seq<sint16>, e: seq<sint16>, W: nat, m: BandErrors)
    requires W > 0
  {
    |p| == Row(3 * W, W) <= |e| && forall i :: 0 <= i < |p| ==> BandNear(p[i], e[i], W, RowOf(i, W), m)
  }

  /** Sub-bands put together from the three high ones and an LL quarter that a deeper level returned. */
  lemma JoinNear(p: seq<sint16>, t: seq<sint16>, e: seq<sint16>, W: nat, m: BandErrors)
    requires Block(e, W) && |p| + |t| == |e| && HighNear(p, e, W, m) && AllNear(t, e[|p|..], m.la, m.lb)
    ensures Block(p + t, W) && BandsNear(p + t, e, W, m)
  {
    hide Row, RowOf, Errs;
    forall q, n | 0 <= q < 4 * W && 0 <= n < W
      ensures BandNear(BandCell(p + t, W, q, n), BandCell(e, W, q, n), W, q, m)
    {
      SizeBands(W);
      Inside(q, n, W, 4 * W);
      var i := Row(q, W) + n;
      if q < 3 * W {
        Inside(q, n, W, 3 * W);
        RowOfRow(q, n, W);
      } else {
        RowMono(3 * W, q, W);
        assert e[|p|..][i - |p|] == e[i];
      }
    }
  }

  /** Decoding one level. */
  lemma LevelRoundTrip(b: seq<sint16>, W: nat, p: seq<sint16>, t: seq<sint16>, m: BandErrors)
    requires Block(b, W) && AllWithin(b, SAMPLE_RANGE) && m.Slight() && |p| + |t| == |b|
    requires HighNear(p, EncodedBlock(b, W), W, m) && AllNear(t, EncodedBlock(b, W)[|p|..], m.la, m.lb)
    ensures Block(p + t, W) && BandsNear(p + t, EncodedBlock(b, W), W, m)
    ensures AllNear(DecodedBlock(p + t, W), b, m.SampleFrom(), m.SampleTo())
  {
    hide Row, EncodedBlock, DecodedBlock, BandsNear, Errs, HighNear;
    JoinNear(p, t, EncodedBlock(b, W), W, m);
    forall i | 0 <= i < |b|
      ensures Errs(DecodedBlock(p + t, W)[i], b[i], m.SampleFrom(), m.SampleTo())
    {
      DecodeNear(p + t, b, W, m, i);
    }
  }

  /** The high sub-bands of a level, cut out of a tile. */
  lemma HighPart(u: seq<sint16>, t: seq<sint16>, m: seq<int>, off: nat, W: nat, e: seq<sint16>, l: BandErrors)
    requires BandWise(m) && NearByBand(u, t, m)
    requires (off == 0 && W == 32) || (off == 3072 && W == 16) || (off == 3840 && W == 8)
    requires l.hl == m[if W == 32 then 8 else if W == 16 then 5 else 2] && l.lh == m[if W == 32 then 7 else if W == 16 then 4 else 1]
    requires l.hh == m[if W == 32 then 9 else if W == 16 then 6 else 3]
    requires Row(3 * W, W) <= |e| && off + Row(3 * W, W) <= TILE && t[off..off + Row(3 * W, W)] == e[..Row(3 * W, W)]
    ensures HighNear(u[off..off + Row(3 * W, W)], e, W, l)
  {
    hide Row, RowOf, ColOf, Errs;
    RowProduct(3 * W, W);
    var p := u[off..off + Row(3 * W, W)];
    forall i | 0 <= i < |p|
      ensures BandNear(p[i], e[i], W, RowOf(i, W), l)
    {
      Split(i, W);
      RowProduct(RowOf(i, W), W);
      assert t[off..off + Row(3 * W, W)][i] == e[i];
    }
  }

  lemma TileSlices(p: seq<sint16>, q: seq<sint16>, r: seq<sint16>)
    requires |p| == 3072 && |q| == 768 && |r| == 256
    ensures (p + q + r)[0..3072] == p && (p + q + r)[3072..3840] == q
    ensures (p + q + r)[3840..4032] == r[..192] && (p + q + r)[4032..4096] == r[192..]
  {
  }

  /** The LL3 band. */
  lemma LowestPart(u: seq<sint16>, t: seq<sint16>, m: seq<int>)
    requires BandWise(m) && NearByBand(u, t, m)
    ensures AllNear(u[4032..4096], t[4032..4096], -m[0], m[0])
  {
    hide Errs;
    forall i | 0 <= i < 64
      ensures Errs(u[4032..4096][i], t[4032..4096][i], -m[0], m[0])
    {
      assert BandOf(4032 + i) == 0;
    }
  }

  /** The four parts of a tile of coefficients. */
  function FirstPart(u: seq<sint16>): seq<sint16>
    requires |u| == TILE
  {
    u[0..3072]
  }

  function SecondPart(u: seq<sint16>): seq<sint16>
    requires |u| == TILE
  {
    u[3072..3840]
  }

  function ThirdPart(u: seq<sint16>): seq<sint16>
    requires |u| == TILE
  {
    u[3840..4032] + u[4032..4096]
  }

  lemma PartsNear(s: seq<sint16>, u: seq<sint16>, m: seq<int>)
    requires |s| == TILE && BandWise(m) && NearByBand(u, EncodedTile(s), m)
    ensures Size(32) == TILE && Size(16) == 1024 && Size(8) == 256
    ensures HighNear(u[0..3072], EncodedBlock(s, 32), 32, FirstErrors(m))
    ensures HighNear(u[3072..3840], EncodedBlock(SecondLevel(s), 16), 16, SecondErrors(m))
    ensures HighNear(u[3840..4032], EncodedBlock(ThirdLevel(s), 8), 8, ThirdErrors(m))
    ensures AllNear(u[4032..4096], EncodedBlock(ThirdLevel(s), 8)[192..], -m[0], m[0])
  {
    hide EncodedBlock, Size, Row, EncodedTile, HighNear, Errs, NearByBand;
    LevelSizes();
    var e0, e1, e2 := EncodedBlock(s, 32), EncodedBlock(SecondLevel(s), 16), EncodedBlock(ThirdLevel(s), 8);
    EncodedParts(s);
    TileSlices(e0[..3072], e1[..768], e2);
    var t := EncodedTile(s);
    HighPart(u, t, m, 0, 32, e0, FirstErrors(m));
    HighPart(u, t, m, 3072, 16, e1, SecondErrors(m));
    HighPart(u, t, m, 3840, 8, e2, ThirdErrors(m));
    LowestPart(u, t, m);
  }

  /** What the inverse transform meets at the three levels, and what it returns. */
  lemma LevelsNear(s: seq<sint16>, u: seq<sint16>, m: seq<int>)
    requires |s| == TILE && LevelsWithin(s) && BandWise(m) && Total(m) <= ERROR_RANGE && NearByBand(u, EncodedTile(s), m)
    ensures Size(32) == TILE && Size(16) == 1024 && Size(8) == 256 && |ThirdPart(u)| == 256
    ensures u == FirstPart(u) + SecondPart(u) + ThirdPart(u)
    ensures var c2 := DecodedBlock(ThirdPart(u), 8);
      var c1 := DecodedBlock(SecondPart(u) + c2, 16);
      && BandsNear(ThirdPart(u), EncodedBlock(ThirdLevel(s), 8), 8, ThirdErrors(m))
      && BandsNear(SecondPart(u) + c2, EncodedBlock(SecondLevel(s), 16), 16, SecondErrors(m))
      && BandsNear(FirstPart(u) + c1, EncodedBlock(s, 32), 32, FirstErrors(m))
      && AllNear(DecodedBlock(FirstPart(u) + c1, 32), s, -Total(m) - 21, Total(m) + 6)
  {
    hide EncodedBlock, DecodedBlock, Size, Row, EncodedTile, AllWithin, AllNear, HighNear, BandsNear, Errs, NearByBand;
    LevelSizes();
    ErrorsSlight(m);
    NearLength(u, EncodedTile(s), m);
    PartsNear(s, u, m);
    assert u == FirstPart(u) + SecondPart(u) + ThirdPart(u);
    LevelRoundTrip(ThirdLevel(s), 8, u[3840..4032], u[4032..4096], ThirdErrors(m));
    var c2 := DecodedBlock(ThirdPart(u), 8);
    LevelRoundTrip(SecondLevel(s), 16, u[3072..3840], c2, SecondErrors(m));
    var c1 := DecodedBlock(SecondPart(u) + c2, 16);
    LevelRoundTrip(s, 32, u[0..3072], c1, FirstErrors(m));
  }

  lemma NearLength(u: seq<sint16>, t: seq<sint16>, m: seq<int>)
    requires BandWise(m) && NearByBand(u, t, m)
    ensures |u| == |t| == TILE
  {
  }

  /**
   Coefficients that are off by at most the error of their band decode, over all three levels, to samples within
   -T-21..T+6 of the tile they were made from, where T counts the LL error once, HL and LH errors twice and HH errors
   four times.
   */
  lemma TileDecodeNear(s: seq<sint16>, u: seq<sint16>, m: seq<int>)
    requires |s| == TILE && LevelsWithin(s) && BandWise(m) && Total(m) <= ERROR_RANGE && NearByBand(u, EncodedTile(s), m)
    ensures AllNear(DecodedTile(u), s, -Total(m) - 21, Total(m) + 6)
  {
    hide EncodedBlock, DecodedBlock, Size, DecodedTile, EncodedTile, LevelsWithin, NearByBand, BandsNear, AllNear, Total;
    NearLength(u, EncodedTile(s), m);
    LevelsNear(s, u, m);
    DecodedParts(FirstPart(u), SecondPart(u), ThirdPart(u));
  }

  const NO_ERROR := [0, 0, 0, 0, 0, 0, 0, 0, 0, 0]

  /** The three-level transform and its inverse return every sample of the tile within -21..+6. */
  lemma TileRoundTrip(s: seq<sint16>)
    requires |s| == TILE && AllWithin(s, SAMPLES)
    ensures AllNear(DecodedTile(EncodedTile(s)), s, -21, 6)
  {
    hide EncodedTile, DecodedTile, LevelsWithin;
    SamplesLevelsWithin(s);
    TileDecodeNear(s, EncodedTile(s), NO_ERROR);
  }

  // ---------- Vector code ----------

  /** The SSE2 forward transform is exact on every tile of samples. */
  lemma EncodeSumsFitTile(s: seq<sint16>)
    requires |s| == TILE && AllWithin(s, SAMPLES)
    ensures TileEncodeSumsFit(s)
  {
    hide EncodedBlock, Size, Sse2.EncodeSumsFit, LevelsWithin;
    LevelSizes();
    SamplesLevelsWithin(s);
    var e1, e2 := EncodedBlock(s, 32), EncodedBlock(SecondLevel(s), 16);
    Sse2.EncodeSumsFitWithin(s, 32);
    Sse2.EncodeSumsFitWithin(SecondLevel(s), 16);
    Sse2.EncodeSumsFitWithin(ThirdLevel(s), 8);
    assert s[0..] == s;
    assert EncodedLevel(s, 0, 32) == e1;
    assert EncodedLevel(e1, 3072, 16) == e1[..3072] + e2;
    assert (e1[..3072] + e2)[3840..] == e2[768..];
  }

  /** Errors that leave room for the sums of the inverse transform at every level. */
  predicate VectorErrors(m: seq<int>)
    requires BandWise(m)
  {
    m[0] + m[2] <= 149 && m[1] + m[3] <= 149 && Total(m) <= 2500
  }

  lemma ErrorsRoom(m: seq<int>)
    requires BandWise(m) && VectorErrors(m)
    ensures Sse2.SumsRoom(10822, ThirdErrors(m)) && Sse2.SumsRoom(9218, SecondErrors(m)) && Sse2.SumsRoom(SAMPLES, FirstErrors(m))
  {
  }

  /** The SSE2 inverse transform is exact on the coefficients of every tile of samples, even when they are off. */
  lemma DecodeSumsFitTile(s: seq<sint16>, u: seq<sint16>, m: seq<int>)
    requires |s| == TILE && AllWithin(s, SAMPLES) && BandWise(m) && VectorErrors(m) && NearByBand(u, EncodedTile(s), m)
    ensures TileDecodeSumsFit(u)
  {
    hide EncodedBlock, DecodedBlock, Size, EncodedTile, NearByBand, BandsNear, Sse2.DecodeSumsFit, Sse2.SumsRoom, LevelsWithin;
    LevelSizes();
    SamplesLevelsWithin(s);
    NearLength(u, EncodedTile(s), m);
    LevelsNear(s, u, m);
    ErrorsSlight(m);
    ErrorsRoom(m);
    var c2 := DecodedBlock(ThirdPart(u), 8);
    var c1 := DecodedBlock(SecondPart(u) + c2, 16);
    Sse2.DecodeSumsFitWithin(ThirdPart(u), ThirdLevel(s), 8, 10822, ThirdErrors(m));
    Sse2.DecodeSumsFitWithin(SecondPart(u) + c2, SecondLevel(s), 16, 9218, SecondErrors(m));
    Sse2.DecodeSumsFitWithin(FirstPart(u) + c1, s, 32, SAMPLES, FirstErrors(m));
    SumsFitParts(FirstPart(u), SecondPart(u), ThirdPart(u));
  }

  lemma SumsFitParts(p: seq<sint16>, q: seq<sint16>, r: seq<sint16>)
    requires |p| == 3072 && |q| == 768 && |r| == 256 && Size(32) == TILE && Size(16) == 1024 && Size(8) == 256
    requires Sse2.DecodeSumsFit(r, 8) && Sse2.DecodeSumsFit(q + DecodedBlock(r, 8), 16)
    requires Sse2.DecodeSumsFit(p + DecodedBlock(q + DecodedBlock(r, 8), 16), 32)
    ensures TileDecodeSumsFit(p + q + r)
  {
    hide DecodedBlock, Size, Sse2.DecodeSumsFit;
    var e := p + q + r;
    assert e[3840..] == r && e[..3840] == p + q;
    var d1 := DecodedLevel(e, 3840, 8);
    assert d1 == p + q + DecodedBlock(r, 8);
    assert d1[3072..] == q + DecodedBlock(r, 8) && d1[..3072] == p;
    var d2 := DecodedLevel(d1, 3072, 16);
    assert d2 == p + DecodedBlock(q + DecodedBlock(r, 8), 16);
    assert d2[0..] == d2;
  }
}

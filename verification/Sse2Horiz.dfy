/** The horizontal wavelet passes of the SSE2 code: eight coefficients of a row at a time. */
module Sse2Horiz {
  import opened Bits
  import opened Grid
  import opened DwtLine
  import opened DwtBlock
  import opened Sse2Lanes
  import opened Sse2Store

  /** Every sum that the forward row filters halve fits 16 bits. */
  ghost predicate RowSumsFit(d: seq<sint16>, W: nat)
    requires Block(d, W)
  {
    forall r :: 0 <= r < 2 * W ==> ForwardSumsFit(RowLine(d, W, r), W)
  }

  /** Every sum that the inverse row filters halve fits 16 bits. */
  ghost predicate BandSumsFit(e: seq<sint16>, W: nat)
    requires Block(e, W)
  {
    forall r :: 0 <= r < 2 * W ==> InverseSumsFit(LowBand(e, W, r), HighBand(e, W, r), W)
  }

  /** The stacked sub-bands as a grid. */
  lemma BandGrid(e: seq<sint16>, W: nat)
    requires Block(e, W)
    ensures IsGrid(e, W, 4 * W)
  {
    SizeBands(W);
  }

  /** Eight coefficients of sub-band row q. */
  function BandLanes(e: seq<sint16>, W: nat, q: nat, n: nat): Vec
    requires Block(e, W) && q < 4 * W && n + 8 <= W
  {
    BandGrid(e, W);
    Oct(e, W, 4 * W, q, n)
  }

  lemma BandLaneAt(e: seq<sint16>, W: nat, q: nat, n: nat, k: nat)
    requires Block(e, W) && q < 4 * W && n + 8 <= W && k < 8
    ensures BandLanes(e, W, q, n)[k] == BandCell(e, W, q, n + k)
  {
    BandGrid(e, W);
    OctAt(e, W, 4 * W, q, n, k);
  }

  // ---------- Forward ----------

  /** Eight even or odd samples of a row, from column c on. */
  lemma PairsAt(a: array<sint16>, d: seq<sint16>, W: nat, y: nat, c: nat, k: nat)
    requires Block(d, W) && y < 2 * W && Size(W) <= a.Length && a[..Size(W)] == d && k < 8 && c + 2 * k < 2 * W
    ensures LoadPairs(a, Row(y, 2 * W) + c, 0)[k] == RowLine(d, W, y)[c + 2 * k]
  {
    hide Row;
    Inside(y, c + 2 * k, 2 * W, 2 * W);
    assert a[..Size(W)][Row(y, 2 * W) + c + 2 * k] == a[Row(y, 2 * W) + c + 2 * k];
  }

  /** Three vectors that hold the samples around coefficients n up to n + 8 of a line. */
  ghost predicate Samples(x: seq<sint16>, W: nat, n: nat, p: Vec, q: Vec, r: Vec)
    requires Line(x, W) && n + 8 <= W
  {
    forall k :: 0 <= k < 8 ==> p[k] == x[2 * (n + k)] && q[k] == x[2 * (n + k) + 1] && r[k] == x[2 * Next(n + k, W)]
  }

  /** The three loads of one step; the last lane of the third is patched at the row's end. */
  method LoadSamples(dwt: array<sint16>, W: nat, y: nat, n: nat, ghost d: seq<sint16>) returns (p: Vec, q: Vec, r: Vec)
    requires Block(d, W) && y < 2 * W && (n + 16 <= W || n + 8 == W)
    requires Size(W) <= dwt.Length && dwt[..Size(W)] == d
    ensures Samples(RowLine(d, W, y), W, n, p, q, r)
  {
    hide Row, LoadPairs, RowLine, Size;
    var s := Row(y, 2 * W);
    p := LoadPairs(dwt, s + 2 * n, 0);
    q := LoadPairs(dwt, s + (2 * n + 1), 0);
    r := if n == W - 8 then p[1..] + [p[7]] else LoadPairs(dwt, s + (2 * n + 2), 0);
    forall k | 0 <= k < 8
      ensures p[k] == RowLine(d, W, y)[2 * (n + k)] && q[k] == RowLine(d, W, y)[2 * (n + k) + 1]
    {
      PairsAt(dwt, d, W, y, 2 * n, k);
      PairsAt(dwt, d, W, y, 2 * n + 1, k);
    }
    forall k | 0 <= k < 8
      ensures r[k] == RowLine(d, W, y)[2 * Next(n + k, W)]
    {
      if n != W - 8 {
        PairsAt(dwt, d, W, y, 2 * n + 2, k);
      }
    }
  }

  lemma HighOct(d: seq<sint16>, W: nat, y: nat, n: nat, p: Vec, q: Vec, r: Vec)
    requires Block(d, W) && y < 2 * W && n + 8 <= W && RowSumsFit(d, W) && Samples(RowLine(d, W, y), W, n, p, q, r)
    ensures HighV(p, q, r) == BandLanes(HorizEncoded(d, W), W, HighRow(y, W), n)
  {
    hide HorizEncoded, HighPass, LowPass, ForwardSumsFitAt, BandLanes, HighV, BandCell, Add16, Sub16, RowLine;
    var t := HorizEncoded(d, W);
    forall k | 0 <= k < 8
      ensures HighV(p, q, r)[k] == BandLanes(t, W, HighRow(y, W), n)[k]
    {
      VectorLanes(p, q, r, k);
      BandLaneAt(t, W, HighRow(y, W), n, k);
      HorizEncodedAt(d, W, HighRow(y, W), n + k);
      HighLane(RowLine(d, W, y), W, n + k);
    }
  }

  /** The high-pass values at and before coefficients n up to n + 8 of a line. */
  ghost predicate Highs(x: seq<sint16>, W: nat, n: nat, hm: Vec, h: Vec)
    requires Line(x, W) && n + 8 <= W
  {
    forall k :: 0 <= k < 8 ==> hm[k] == HighPass(x, W, Prev(n + k)) && h[k] == HighPass(x, W, n + k)
  }

  lemma LowOct(d: seq<sint16>, W: nat, y: nat, n: nat, hm: Vec, h: Vec, p: Vec, q: Vec, r: Vec)
    requires Block(d, W) && y < 2 * W && n + 8 <= W && RowSumsFit(d, W)
    requires Samples(RowLine(d, W, y), W, n, p, q, r) && Highs(RowLine(d, W, y), W, n, hm, h)
    ensures LowV(hm, h, p) == BandLanes(HorizEncoded(d, W), W, LowRow(y, W), n)
  {
    hide HorizEncoded, HighPass, LowPass, ForwardSumsFitAt, BandLanes, LowV, BandCell, Add16, Sub16, RowLine;
    var t := HorizEncoded(d, W);
    forall k | 0 <= k < 8
      ensures LowV(hm, h, p)[k] == BandLanes(t, W, LowRow(y, W), n)[k]
    {
      VectorLanes(hm, h, p, k);
      BandLaneAt(t, W, LowRow(y, W), n, k);
      HorizEncodedAt(d, W, LowRow(y, W), n + k);
      LowLane(RowLine(d, W, y), W, n + k);
    }
  }

  /** The unaligned load one place back: lane k is coefficient n + k - 1, and lane 0 is patched at the row's start. */
  method LoadBack(a: array<sint16>, off: nat, W: nat, q: nat, n: nat, junk: sint16, ghost t: seq<sint16>) returns (v: Vec)
    requires Block(t, W) && q < 4 * W && n + 8 <= W && Has(a, off, t, W, q, 0, n) && Has(a, off, t, W, q, n, n + 8)
    ensures forall k :: 0 <= k < 8 ==> v[k] == BandCell(t, W, q, Prev(n + k))
  {
    hide Row, Has, BandCell;
    BandGrid(t, W);
    v := LoadV(a, off + Row(q, W) + n - 1, junk);
    forall k | 0 <= k < 8 && n + k > 0
      ensures v[k] == BandCell(t, W, q, n + k - 1)
    {
      BandHasAt(a, off, t, W, q, n, n + k - 1);
    }
    if n == 0 {
      v := v[0 := v[1]];
    }
  }

  lemma BandHasAt(a: array<sint16>, off: nat, t: seq<sint16>, W: nat, q: nat, n: nat, c: nat)
    requires Block(t, W) && q < 4 * W && n + 8 <= W && c < n + 8
    requires Has(a, off, t, W, q, 0, n) && Has(a, off, t, W, q, n, n + 8)
    ensures off + Row(q, W) + c < a.Length && a[off + Row(q, W) + c] == BandCell(t, W, q, c)
  {
    hide Row, Has;
    BandGrid(t, W);
    if c < n {
      HasAt(a, off, t, W, 4 * W, q, 0, n, c);
    } else {
      HasAt(a, off, t, W, 4 * W, q, n, n + 8, c);
    }
  }

  lemma HighsOf(d: seq<sint16>, W: nat, y: nat, n: nat, hm: Vec, h: Vec)
    requires Block(d, W) && y < 2 * W && n + 8 <= W
    requires h == BandLanes(HorizEncoded(d, W), W, HighRow(y, W), n)
    requires forall k :: 0 <= k < 8 ==> hm[k] == BandCell(HorizEncoded(d, W), W, HighRow(y, W), Prev(n + k))
    ensures Highs(RowLine(d, W, y), W, n, hm, h)
  {
    hide HorizEncoded, HighPass, LowPass, BandLanes, BandCell, RowLine;
    var t := HorizEncoded(d, W);
    forall k | 0 <= k < 8
      ensures hm[k] == HighPass(RowLine(d, W, y), W, Prev(n + k)) && h[k] == HighPass(RowLine(d, W, y), W, n + k)
    {
      BandLaneAt(t, W, HighRow(y, W), n, k);
      HorizEncodedAt(d, W, HighRow(y, W), n + k);
      HorizEncodedAt(d, W, HighRow(y, W), Prev(n + k));
    }
  }

  /** Eight coefficients of both sub-band rows of line y. */
  method EncodeOct(dwt: array<sint16>, buffer: array<sint16>, off: nat, W: nat, y: nat, n: nat, junk: sint16, ghost d: seq<sint16>)
    requires Block(d, W) && y < 2 * W && (n + 16 <= W || n + 8 == W) && RowSumsFit(d, W) && buffer != dwt
    requires Size(W) <= dwt.Length && dwt[..Size(W)] == d && off + Size(W) <= buffer.Length
    requires Has(buffer, off, HorizEncoded(d, W), W, HighRow(y, W), 0, n)
    modifies buffer
    ensures Has(buffer, off, HorizEncoded(d, W), W, HighRow(y, W), n, n + 8)
    ensures Has(buffer, off, HorizEncoded(d, W), W, LowRow(y, W), n, n + 8)
    ensures forall j :: 0 <= j < buffer.Length && Outside(j, off, Size(W), W, LowRow(y, W), n, n + 8) ==>
      Outside(j, off, Size(W), W, HighRow(y, W), n, n + 8) ==> buffer[j] == old(buffer[j])
  {
    hide HorizEncoded, Row, In, Has, HighV, LowV, LoadV, RowLine, RowSumsFit, Samples, Highs, Oct, BandCell;
    ghost var t := HorizEncoded(d, W);
    BandGrid(t, W);
    var p, q, r := LoadSamples(dwt, W, y, n, d);
    HighOct(d, W, y, n, p, q, r);
    var h := HighV(p, q, r);
    StoreOct(buffer, off, t, W, 4 * W, HighRow(y, W), n, h);
    var hm := LoadBack(buffer, off, W, HighRow(y, W), n, junk, t);
    HighsOf(d, W, y, n, hm, h);
    LowOct(d, W, y, n, hm, h, p, q, r);
    var l := LowV(hm, h, p);
    StoreOct(buffer, off, t, W, 4 * W, LowRow(y, W), n, l);
  }

  /** The forward filter on line y. */
  method EncodeLine(dwt: array<sint16>, buffer: array<sint16>, off: nat, W: nat, y: nat, junk: sint16, ghost d: seq<sint16>)
    requires Block(d, W) && y < 2 * W && W % 8 == 0 && RowSumsFit(d, W) && buffer != dwt
    requires Size(W) <= dwt.Length && dwt[..Size(W)] == d && off + Size(W) <= buffer.Length
    modifies buffer
    ensures forall i :: 0 <= i < Size(W) && LineOf(RowOf(i, W), W) == y ==> buffer[off + i] == HorizEncoded(d, W)[i]
    ensures forall j :: 0 <= j < buffer.Length && (j < off || j >= off + Size(W) || LineOf(RowOf(j - off, W), W) != y) ==>
      buffer[j] == old(buffer[j])
  {
    hide HorizEncoded, RowOf, ColOf, Size, RowSumsFit;
    ghost var t := HorizEncoded(d, W);
    BandGrid(t, W);
    var n := 0;
    while n < W
      invariant 0 <= n <= W && n % 8 == 0
      invariant Has(buffer, off, t, W, HighRow(y, W), 0, n) && Has(buffer, off, t, W, LowRow(y, W), 0, n)
      invariant forall j :: 0 <= j < buffer.Length && (j < off || j >= off + Size(W) || LineOf(RowOf(j - off, W), W) != y) ==>
        buffer[j] == old(buffer[j])
    {
      EncodeOct(dwt, buffer, off, W, y, n, junk, d);
      n := n + 8;
    }
    forall i | 0 <= i < Size(W) && LineOf(RowOf(i, W), W) == y
      ensures buffer[off + i] == t[i]
    {
      RowsOfLine(i, W);
    }
  }

  /** A sub-band row is one of the two rows of its line. */
  lemma RowsOfLine(i: nat, W: nat)
    requires W > 0 && i < Size(W)
    ensures var q := RowOf(i, W); LineOf(q, W) < 2 * W && (q == LowRow(LineOf(q, W), W) || q == HighRow(LineOf(q, W), W))
  {
    hide RowOf, Row;
    SizeBands(W);
    RowBound(i, W, 4 * W);
  }

  /** W lines from a given one on: the low lines first, then the high ones. */
  method EncodeHalf(dwt: array<sint16>, buffer: array<sint16>, off: nat, W: nat, first: nat, junk: sint16, ghost d: seq<sint16>)
    requires Block(d, W) && first + W <= 2 * W && W % 8 == 0 && RowSumsFit(d, W) && buffer != dwt
    requires Size(W) <= dwt.Length && dwt[..Size(W)] == d && off + Size(W) <= buffer.Length
    requires forall i :: 0 <= i < Size(W) && LineOf(RowOf(i, W), W) < first ==> buffer[off + i] == HorizEncoded(d, W)[i]
    modifies buffer
    ensures forall i :: 0 <= i < Size(W) && LineOf(RowOf(i, W), W) < first + W ==> buffer[off + i] == HorizEncoded(d, W)[i]
    ensures forall j :: 0 <= j < buffer.Length && (j < off || j >= off + Size(W)) ==> buffer[j] == old(buffer[j])
  {
    hide HorizEncoded, RowOf, Size, RowSumsFit;
    ghost var t := HorizEncoded(d, W);
    var y := first;
    while y < first + W
      invariant first <= y <= first + W
      invariant forall i :: 0 <= i < Size(W) && LineOf(RowOf(i, W), W) < y ==> buffer[off + i] == t[i]
      invariant forall j :: 0 <= j < buffer.Length && (j < off || j >= off + Size(W)) ==> buffer[j] == old(buffer[j])
    {
      EncodeLine(dwt, buffer, off, W, y, junk, d);
      y := y + 1;
    }
  }

  /** The forward pass over rows. */
  method HorizEncode(dwt: array<sint16>, buffer: array<sint16>, off: nat, W: nat, junk: sint16)
    requires W > 0 && W % 8 == 0 && off + Size(W) <= buffer.Length && Size(W) <= dwt.Length && buffer != dwt
    requires RowSumsFit(dwt[..Size(W)], W)
    modifies buffer
    ensures buffer[..] == old(buffer[..off]) + HorizEncoded(dwt[..Size(W)], W) + old(buffer[off + Size(W)..])
  {
    hide HorizEncoded, RowOf, Size, RowSumsFit;
    ghost var d := dwt[..Size(W)];
    EncodeHalf(dwt, buffer, off, W, 0, junk, d);
    EncodeHalf(dwt, buffer, off, W, W, junk, d);
    LinesCovered(W);
    Rebuilt(buffer[..], old(buffer[..]), off, HorizEncoded(d, W));
  }

  // ---------- Inverse ----------

  /** The sub-bands after the even samples have replaced the low-pass values in place. */
  function EvenCell(e: seq<sint16>, W: nat, q: nat, n: nat): sint16
    requires Block(e, W) && q < 4 * W && n < W
  {
    var y := LineOf(q, W);
    if q == LowRow(y, W) then Even(LowBand(e, W, y), HighBand(e, W, y), W, n) else BandCell(e, W, q, n)
  }

  function EvensInPlace(e: seq<sint16>, W: nat): (t: seq<sint16>)
    requires Block(e, W)
    ensures Block(t, W)
  {
    SizeBands(W);
    seq(Size(W), i requires 0 <= i < Size(W) => (RowBound(i, W, 4 * W); EvenCell(e, W, RowOf(i, W), ColOf(i, W))))
  }

  lemma EvensInPlaceAt(e: seq<sint16>, W: nat, q: nat, n: nat)
    requires Block(e, W) && q < 4 * W && n < W
    ensures BandCell(EvensInPlace(e, W), W, q, n) == EvenCell(e, W, q, n)
  {
    hide EvenCell, Row, RowOf, ColOf;
    SizeBands(W);
    Inside(q, n, W, 4 * W);
    RowOfRow(q, n, W);
  }

  lemma EvenOct(e: seq<sint16>, W: nat, y: nat, n: nat, hm: Vec)
    requires Block(e, W) && y < 2 * W && n + 8 <= W && BandSumsFit(e, W)
    requires forall k :: 0 <= k < 8 ==> hm[k] == BandCell(e, W, HighRow(y, W), Prev(n + k))
    ensures EvenV(BandLanes(e, W, LowRow(y, W), n), AddV(AddV(BandLanes(e, W, HighRow(y, W), n), hm), SplatOne()))
         == BandLanes(EvensInPlace(e, W), W, LowRow(y, W), n)
  {
    hide EvensInPlace, Even, InverseSumsFitAt, BandLanes, EvenV, AddV, SplatOne, BandCell, Add16, Sub16;
    var t := EvensInPlace(e, W);
    var l, h := BandLanes(e, W, LowRow(y, W), n), BandLanes(e, W, HighRow(y, W), n);
    forall k | 0 <= k < 8
      ensures EvenV(l, AddV(AddV(h, hm), SplatOne()))[k] == BandLanes(t, W, LowRow(y, W), n)[k]
    {
      VectorLanes(l, h, hm, k);
      BandLaneAt(e, W, LowRow(y, W), n, k);
      BandLaneAt(e, W, HighRow(y, W), n, k);
      BandLaneAt(t, W, LowRow(y, W), n, k);
      EvensInPlaceAt(e, W, LowRow(y, W), n + k);
      EvenLane(LowBand(e, W, y), HighBand(e, W, y), W, n + k);
    }
  }

  /** The even samples of eight coefficients, stored over the low-pass values. */
  method DecodeEvenOct(buffer: array<sint16>, off: nat, W: nat, y: nat, n: nat, junk: sint16, ghost e: seq<sint16>)
    requires Block(e, W) && y < 2 * W && n + 8 <= W && BandSumsFit(e, W) && off + Size(W) <= buffer.Length
    requires Has(buffer, off, e, W, LowRow(y, W), n, n + 8)
    requires Has(buffer, off, e, W, HighRow(y, W), 0, n) && Has(buffer, off, e, W, HighRow(y, W), n, n + 8)
    modifies buffer
    ensures Has(buffer, off, EvensInPlace(e, W), W, LowRow(y, W), n, n + 8)
    ensures forall j :: 0 <= j < buffer.Length && Outside(j, off, Size(W), W, LowRow(y, W), n, n + 8) ==>
      buffer[j] == old(buffer[j])
  {
    hide EvensInPlace, Row, In, Has, Oct, EvenV, AddV, SplatOne, LoadV, LowBand, HighBand, BandSumsFit, BandCell;
    ghost var t := EvensInPlace(e, W);
    BandGrid(e, W);
    BandGrid(t, W);
    LoadOct(buffer, off, e, W, 4 * W, LowRow(y, W), n, 0);
    LoadOct(buffer, off, e, W, 4 * W, HighRow(y, W), n, 0);
    var l := LoadV(buffer, off + Row(LowRow(y, W), W) + n, 0);
    var h := LoadV(buffer, off + Row(HighRow(y, W), W) + n, 0);
    var hm := LoadBack(buffer, off, W, HighRow(y, W), n, junk, e);
    EvenOct(e, W, y, n, hm);
    var v := EvenV(l, AddV(AddV(h, hm), SplatOne()));
    StoreOct(buffer, off, t, W, 4 * W, LowRow(y, W), n, v);
  }

  /** The even and odd samples of eight coefficients make two octets of the line. */
  lemma UnpackOct(e: seq<sint16>, W: nat, y: nat, n: nat, ev: Vec, od: Vec, j: nat)
    requires Block(e, W) && y < 2 * W && n + 8 <= W && (j == 0 || j == 4)
    requires forall k :: 0 <= k < 8 ==> ev[k] == Even(LowBand(e, W, y), HighBand(e, W, y), W, n + k)
    requires forall k :: 0 <= k < 8 ==> od[k] == Odd(LowBand(e, W, y), HighBand(e, W, y), W, n + k)
    ensures Unpack(ev, od, j) == Oct(HorizDecoded(e, W), 2 * W, 2 * W, y, 2 * n + 2 * j)
  {
    hide HorizDecoded, Even, Odd, LowBand, HighBand, Oct, Row;
    var t := HorizDecoded(e, W);
    forall k | 0 <= k < 8
      ensures Unpack(ev, od, j)[k] == Oct(t, 2 * W, 2 * W, y, 2 * n + 2 * j)[k]
    {
      OctAt(t, 2 * W, 2 * W, y, 2 * n + 2 * j, k);
      HorizDecodedAt(e, W, y, 2 * n + 2 * j + k);
      assert (2 * n + 2 * j + k) / 2 == n + (j + k / 2);
    }
  }

  /** The unaligned load one place on: lane k is coefficient n + k + 1, and lane 7 is patched at the row's end. */
  method LoadAhead(a: array<sint16>, off: nat, W: nat, q: nat, n: nat, junk: sint16, ghost t: seq<sint16>) returns (v: Vec)
    requires Block(t, W) && q < 4 * W && (n + 16 <= W || n + 8 == W) && Has(a, off, t, W, q, 0, W)
    ensures forall k :: 0 <= k < 8 ==> v[k] == BandCell(t, W, q, Next(n + k, W))
  {
    hide Row, Has, BandCell;
    BandGrid(t, W);
    v := LoadV(a, off + Row(q, W) + n + 1, junk);
    forall k | 0 <= k < 8 && n + k + 1 < W
      ensures v[k] == BandCell(t, W, q, n + k + 1)
    {
      BandHasAll(a, off, t, W, q, n + k + 1);
    }
    if n == W - 8 {
      v := v[7 := v[6]];
    }
  }

  lemma BandHasAll(a: array<sint16>, off: nat, t: seq<sint16>, W: nat, q: nat, c: nat)
    requires Block(t, W) && q < 4 * W && c < W && Has(a, off, t, W, q, 0, W)
    ensures off + Row(q, W) + c < a.Length && a[off + Row(q, W) + c] == BandCell(t, W, q, c)
  {
    hide Row, Has;
    BandGrid(t, W);
    HasAt(a, off, t, W, 4 * W, q, 0, W, c);
  }

  /** A part of a row that an array holds. */
  lemma HasPart(a: array<sint16>, off: nat, t: seq<sint16>, w: nat, r: nat, lo: nat, hi: nat, lo': nat, hi': nat)
    requires Has(a, off, t, w, r, lo, hi) && lo <= lo' && hi' <= hi
    ensures Has(a, off, t, w, r, lo', hi')
  {
    hide RowOf, ColOf;
  }

  lemma OddOct(e: seq<sint16>, W: nat, y: nat, n: nat, en: Vec, k: nat)
    requires Block(e, W) && y < 2 * W && n + 8 <= W && BandSumsFit(e, W) && k < 8
    requires en[k] == BandCell(EvensInPlace(e, W), W, LowRow(y, W), Next(n + k, W))
    ensures var ev := BandLanes(EvensInPlace(e, W), W, LowRow(y, W), n);
      && ev[k] == Even(LowBand(e, W, y), HighBand(e, W, y), W, n + k)
      && OddV(BandLanes(e, W, HighRow(y, W), n), ev, en)[k] == Odd(LowBand(e, W, y), HighBand(e, W, y), W, n + k)
  {
    hide EvensInPlace, Even, Odd, InverseSumsFitAt, BandLanes, OddV, BandCell, Add16, Sub16;
    var t := EvensInPlace(e, W);
    VectorLanes(BandLanes(e, W, HighRow(y, W), n), BandLanes(t, W, LowRow(y, W), n), en, k);
    BandLaneAt(e, W, HighRow(y, W), n, k);
    BandLaneAt(t, W, LowRow(y, W), n, k);
    EvensInPlaceAt(e, W, LowRow(y, W), n + k);
    EvensInPlaceAt(e, W, LowRow(y, W), Next(n + k, W));
    OddLane(LowBand(e, W, y), HighBand(e, W, y), W, n + k);
  }

  /** The samples of eight coefficients: two octets of line y. */
  method LoadOdds(buffer: array<sint16>, off: nat, W: nat, y: nat, n: nat, junk: sint16, ghost e: seq<sint16>)
    returns (ev: Vec, od: Vec)
    requires Block(e, W) && y < 2 * W && (n + 16 <= W || n + 8 == W) && BandSumsFit(e, W) && off + Size(W) <= buffer.Length
    requires Has(buffer, off, EvensInPlace(e, W), W, LowRow(y, W), 0, W) && Has(buffer, off, e, W, HighRow(y, W), 0, W)
    ensures forall k :: 0 <= k < 8 ==> ev[k] == Even(LowBand(e, W, y), HighBand(e, W, y), W, n + k)
    ensures forall k :: 0 <= k < 8 ==> od[k] == Odd(LowBand(e, W, y), HighBand(e, W, y), W, n + k)
  {
    hide EvensInPlace, Row, Has, Oct, OddV, LoadV, LowBand, HighBand, BandSumsFit, BandCell, Even, Odd;
    ghost var t := EvensInPlace(e, W);
    BandGrid(e, W);
    BandGrid(t, W);
    HasPart(buffer, off, e, W, HighRow(y, W), 0, W, n, n + 8);
    HasPart(buffer, off, t, W, LowRow(y, W), 0, W, n, n + 8);
    LoadOct(buffer, off, e, W, 4 * W, HighRow(y, W), n, 0);
    LoadOct(buffer, off, t, W, 4 * W, LowRow(y, W), n, 0);
    var h := LoadV(buffer, off + Row(HighRow(y, W), W) + n, 0);
    ev := LoadV(buffer, off + Row(LowRow(y, W), W) + n, 0);
    var en := LoadAhead(buffer, off, W, LowRow(y, W), n, junk, t);
    od := OddV(h, ev, en);
    forall k | 0 <= k < 8
      ensures ev[k] == Even(LowBand(e, W, y), HighBand(e, W, y), W, n + k)
      ensures od[k] == Odd(LowBand(e, W, y), HighBand(e, W, y), W, n + k)
    {
      OddOct(e, W, y, n, en, k);
    }
  }

  method DecodeOddOct(buffer: array<sint16>, off: nat, idwt: array<sint16>, W: nat, y: nat, n: nat, junk: sint16,
                      ghost e: seq<sint16>)
    requires Block(e, W) && y < 2 * W && (n + 16 <= W || n + 8 == W) && BandSumsFit(e, W) && off + Size(W) <= buffer.Length
    requires buffer != idwt && Size(W) <= idwt.Length
    requires Has(buffer, off, EvensInPlace(e, W), W, LowRow(y, W), 0, W) && Has(buffer, off, e, W, HighRow(y, W), 0, W)
    modifies idwt
    ensures Has(idwt, 0, HorizDecoded(e, W), 2 * W, y, 2 * n, 2 * n + 8)
    ensures Has(idwt, 0, HorizDecoded(e, W), 2 * W, y, 2 * n + 8, 2 * n + 16)
    ensures forall j :: 0 <= j < idwt.Length && Outside(j, 0, Size(W), 2 * W, y, 2 * n, 2 * n + 16) ==> idwt[j] == old(idwt[j])
  {
    hide EvensInPlace, HorizDecoded, RowOf, ColOf, Oct, Unpack, LowBand, HighBand, BandSumsFit, Even, Odd, Row;
    var ev, od := LoadOdds(buffer, off, W, y, n, junk, e);
    UnpackOct(e, W, y, n, ev, od, 0);
    UnpackOct(e, W, y, n, ev, od, 4);
    StoreOct(idwt, 0, HorizDecoded(e, W), 2 * W, 2 * W, y, 2 * n, Unpack(ev, od, 0));
    StoreOct(idwt, 0, HorizDecoded(e, W), 2 * W, 2 * W, y, 2 * n + 8, Unpack(ev, od, 4));
  }

  /** The even samples of a line replace its low-pass row. */
  method DecodeEvens(buffer: array<sint16>, off: nat, W: nat, y: nat, junk: sint16, ghost e: seq<sint16>)
    requires Block(e, W) && y < 2 * W && W % 8 == 0 && BandSumsFit(e, W) && off + Size(W) <= buffer.Length
    requires Has(buffer, off, e, W, LowRow(y, W), 0, W) && Has(buffer, off, e, W, HighRow(y, W), 0, W)
    modifies buffer
    ensures Has(buffer, off, EvensInPlace(e, W), W, LowRow(y, W), 0, W) && Has(buffer, off, e, W, HighRow(y, W), 0, W)
    ensures forall j :: 0 <= j < buffer.Length && Outside(j, off, Size(W), W, LowRow(y, W), 0, W) ==> buffer[j] == old(buffer[j])
  {
    hide EvensInPlace, RowOf, ColOf, Size, BandSumsFit;
    ghost var t := EvensInPlace(e, W);
    var n := 0;
    while n < W
      invariant 0 <= n <= W && n % 8 == 0
      invariant Has(buffer, off, t, W, LowRow(y, W), 0, n) && Has(buffer, off, e, W, LowRow(y, W), n, W)
      invariant Has(buffer, off, e, W, HighRow(y, W), 0, W)
      invariant forall j :: 0 <= j < buffer.Length && Outside(j, off, Size(W), W, LowRow(y, W), 0, W) ==> buffer[j] == old(buffer[j])
    {
      DecodeEvenOct(buffer, off, W, y, n, junk, e);
      n := n + 8;
    }
  }

  method DecodeOdds(buffer: array<sint16>, off: nat, idwt: array<sint16>, W: nat, y: nat, junk: sint16, ghost e: seq<sint16>)
    requires Block(e, W) && y < 2 * W && W % 8 == 0 && BandSumsFit(e, W) && off + Size(W) <= buffer.Length
    requires buffer != idwt && Size(W) <= idwt.Length
    requires Has(buffer, off, EvensInPlace(e, W), W, LowRow(y, W), 0, W) && Has(buffer, off, e, W, HighRow(y, W), 0, W)
    modifies idwt
    ensures Has(idwt, 0, HorizDecoded(e, W), 2 * W, y, 0, 2 * W)
    ensures forall j :: 0 <= j < idwt.Length && Outside(j, 0, Size(W), 2 * W, y, 0, 2 * W) ==> idwt[j] == old(idwt[j])
  {
    hide EvensInPlace, HorizDecoded, RowOf, ColOf, Size, BandSumsFit;
    ghost var t := HorizDecoded(e, W);
    var n := 0;
    while n < W
      invariant 0 <= n <= W && n % 8 == 0
      invariant Has(idwt, 0, t, 2 * W, y, 0, 2 * n)
      invariant forall j :: 0 <= j < idwt.Length && Outside(j, 0, Size(W), 2 * W, y, 0, 2 * W) ==> idwt[j] == old(idwt[j])
    {
      DecodeOddOct(buffer, off, idwt, W, y, n, junk, e);
      n := n + 8;
    }
  }

  /** The inverse filter on line y; its low-pass row is lost. */
  method DecodeLine(buffer: array<sint16>, off: nat, idwt: array<sint16>, W: nat, y: nat, junk: sint16, ghost e: seq<sint16>)
    requires Block(e, W) && y < 2 * W && W % 8 == 0 && BandSumsFit(e, W) && off + Size(W) <= buffer.Length
    requires buffer != idwt && Size(W) <= idwt.Length
    requires forall i :: 0 <= i < Size(W) && LineOf(RowOf(i, W), W) == y ==> buffer[off + i] == e[i]
    modifies buffer, idwt
    ensures forall i :: 0 <= i < Size(W) && RowOf(i, 2 * W) == y ==> idwt[i] == HorizDecoded(e, W)[i]
    ensures forall j :: 0 <= j < idwt.Length && (j >= Size(W) || RowOf(j, 2 * W) != y) ==> idwt[j] == old(idwt[j])
    ensures forall j :: 0 <= j < buffer.Length && (j < off || j >= off + Size(W) || LineOf(RowOf(j - off, W), W) != y) ==>
      buffer[j] == old(buffer[j])
  {
    hide EvensInPlace, HorizDecoded, RowOf, ColOf, Size, BandSumsFit;
    DecodeEvens(buffer, off, W, y, junk, e);
    DecodeOdds(buffer, off, idwt, W, y, junk, e);
  }

  /** W lines from a given one on. */
  method DecodeHalf(buffer: array<sint16>, off: nat, idwt: array<sint16>, W: nat, first: nat, junk: sint16, ghost e: seq<sint16>)
    requires Block(e, W) && first + W <= 2 * W && W % 8 == 0 && BandSumsFit(e, W) && off + Size(W) <= buffer.Length
    requires buffer != idwt && Size(W) <= idwt.Length
    requires forall i :: 0 <= i < Size(W) && LineOf(RowOf(i, W), W) >= first ==> buffer[off + i] == e[i]
    requires forall i :: 0 <= i < Size(W) && RowOf(i, 2 * W) < first ==> idwt[i] == HorizDecoded(e, W)[i]
    modifies buffer, idwt
    ensures forall i :: 0 <= i < Size(W) && LineOf(RowOf(i, W), W) >= first + W ==> buffer[off + i] == e[i]
    ensures forall i :: 0 <= i < Size(W) && RowOf(i, 2 * W) < first + W ==> idwt[i] == HorizDecoded(e, W)[i]
    ensures forall j :: 0 <= j < buffer.Length && (j < off || j >= off + Size(W)) ==> buffer[j] == old(buffer[j])
  {
    hide HorizDecoded, RowOf, Size, BandSumsFit;
    ghost var t := HorizDecoded(e, W);
    var y := first;
    while y < first + W
      invariant first <= y <= first + W
      invariant forall i :: 0 <= i < Size(W) && LineOf(RowOf(i, W), W) >= y ==> buffer[off + i] == e[i]
      invariant forall i :: 0 <= i < Size(W) && RowOf(i, 2 * W) < y ==> idwt[i] == t[i]
      invariant forall j :: 0 <= j < buffer.Length && (j < off || j >= off + Size(W)) ==> buffer[j] == old(buffer[j])
    {
      DecodeLine(buffer, off, idwt, W, y, junk, e);
      y := y + 1;
    }
  }

  /** The inverse pass over rows. The block in the buffer is left half overwritten. */
  method HorizDecode(buffer: array<sint16>, off: nat, idwt: array<sint16>, W: nat, junk: sint16)
    requires W > 0 && W % 8 == 0 && off + Size(W) <= buffer.Length && Size(W) <= idwt.Length && buffer != idwt
    requires BandSumsFit(buffer[off..off + Size(W)], W)
    modifies buffer, idwt
    ensures idwt[..Size(W)] == HorizDecoded(old(buffer[off..off + Size(W)]), W)
    ensures forall j :: 0 <= j < buffer.Length && (j < off || j >= off + Size(W)) ==> buffer[j] == old(buffer[j])
  {
    hide HorizDecoded, RowOf, Size, BandSumsFit;
    ghost var e := buffer[off..off + Size(W)];
    DecodeHalf(buffer, off, idwt, W, 0, junk, e);
    DecodeHalf(buffer, off, idwt, W, W, junk, e);
    RowsCovered(W);
  }
}

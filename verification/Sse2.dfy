/**
 The SSE2 wavelet blocks. They leave the same buffer as the scalar blocks whenever every sum that is halved fits
 a 16-bit lane: the scalar code forms those sums in 32 bits.
 */
module Sse2 {
  import opened Bits
  import opened DwtLine
  import opened DwtBlock
  import opened Sse2Lanes
  import Sse2Vert
  import Sse2Horiz

  ghost predicate EncodeSumsFit(b: seq<sint16>, W: nat)
    requires Block(b, W)
  {
    Sse2Vert.ColumnSumsFit(b, W) && Sse2Horiz.RowSumsFit(VertEncoded(b, W), W)
  }

  ghost predicate DecodeSumsFit(e: seq<sint16>, W: nat)
    requires Block(e, W)
  {
    Sse2Horiz.BandSumsFit(e, W) && Sse2Vert.ColumnPartSumsFit(HorizDecoded(e, W), W)
  }

  /** Encodes the block at off in place; same result as the scalar method. */
  method EncodeBlock(buffer: array<sint16>, off: nat, dwt: array<sint16>, W: nat, junk: sint16)
    requires W > 0 && W % 8 == 0 && off + Size(W) <= buffer.Length && Size(W) <= dwt.Length && buffer != dwt
    requires EncodeSumsFit(buffer[off..off + Size(W)], W)
    modifies buffer, dwt
    ensures buffer[..] == old(buffer[..off]) + EncodedBlock(old(buffer[off..off + Size(W)]), W) + old(buffer[off + Size(W)..])
  {
    hide VertEncoded, HorizEncoded, Size;
    Sse2Vert.VertEncode(buffer, off, dwt, W);
    Sse2Horiz.HorizEncode(dwt, buffer, off, W, junk);
  }

  /** Decodes the block at off in place; same result as the scalar method. */
  method DecodeBlock(buffer: array<sint16>, off: nat, idwt: array<sint16>, W: nat, junk: sint16)
    requires W > 0 && W % 8 == 0 && off + Size(W) <= buffer.Length && Size(W) <= idwt.Length && buffer != idwt
    requires DecodeSumsFit(buffer[off..off + Size(W)], W)
    modifies buffer, idwt
    ensures buffer[..] == old(buffer[..off]) + DecodedBlock(old(buffer[off..off + Size(W)]), W) + old(buffer[off + Size(W)..])
  {
    hide HorizDecoded, VertDecoded, Size;
    Sse2Horiz.HorizDecode(buffer, off, idwt, W, junk);
    ghost var half := buffer[..];
    Sse2Vert.VertDecode(idwt, buffer, off, W);
    assert half[..off] == old(buffer[..off]);
    assert half[off + Size(W)..] == old(buffer[off + Size(W)..]);
  }

  // ---------- When the sums fit ----------

  const LINE_RANGE := 16383
  const VECTOR_RANGE := 10921

  lemma ForwardFits(x: seq<sint16>, W: nat)
    requires Line(x, W) && AllWithin(x, LINE_RANGE)
    ensures ForwardSumsFit(x, W)
  {
    hide HighPass, HighExact;
    forall n | 0 <= n < W
      ensures ForwardSumsFitAt(x, W, n)
    {
      assert Within(x[2 * n], LINE_RANGE) && Within(x[2 * n + 1], LINE_RANGE) && Within(x[2 * Next(n, W)], LINE_RANGE);
      HighRange(x, W, n, LINE_RANGE);
      HighRange(x, W, Prev(n), LINE_RANGE);
    }
  }

  /** The sums of the forward transform fit for every block of samples within 10921. */
  lemma EncodeSumsFitWithin(b: seq<sint16>, W: nat)
    requires Block(b, W) && AllWithin(b, VECTOR_RANGE)
    ensures EncodeSumsFit(b, W)
  {
    hide VertEncoded, Column, RowLine, ForwardSumsFit;
    forall c | 0 <= c < 2 * W
      ensures ForwardSumsFit(Column(b, W, c), W)
    {
      ColumnWithin(b, W, c, VECTOR_RANGE);
      ForwardFits(Column(b, W, c), W);
    }
    forall r | 0 <= r < 2 * W
      ensures ForwardSumsFit(RowLine(VertEncoded(b, W), W, r), W)
    {
      RowWithin(b, W, r, VECTOR_RANGE);
      ForwardFits(RowLine(VertEncoded(b, W), W, r), W);
    }
  }

  /** The sums of the inverse filter fit for the coefficients of a small line, even when slightly off. */
  lemma InverseFits(l: seq<sint16>, h: seq<sint16>, x: seq<sint16>, W: nat, la: int, lb: int, ha: int, hb: int, m: nat)
    requires Line(x, W) && AllWithin(x, m) && Slight(m, la, lb, ha, hb) && Near(l, h, x, W, la, lb, ha, hb)
    requires m + hb - la <= LINE_RANGE && m + lb - ha <= LINE_RANGE
    ensures InverseSumsFit(l, h, W)
  {
    hide Even, HighExact, LowExact, EvenExact, OddExact, Odd, OddErrs;
    forall n | 0 <= n < W
      ensures InverseSumsFitAt(l, h, W, n)
    {
      HighRange(x, W, n, m);
      HighRange(x, W, Prev(n), m);
      DecodeError(l, h, x, W, n, la, lb, ha, hb, m);
      DecodeError(l, h, x, W, Next(n, W), la, lb, ha, hb, m);
      assert Within(x[2 * n], m) && Within(x[2 * Next(n, W)], m);
    }
  }

  /** Errors that leave room for the sums of the inverse transform of samples within v. */
  predicate SumsRoom(v: nat, m: BandErrors) {
    var rows := (3 * v + 2) / 2;
    && rows + m.hl - m.la <= LINE_RANGE && rows + m.hl + m.lb <= LINE_RANGE && rows + m.hh + m.lh <= LINE_RANGE
    && v + m.RowTo(false) - m.RowFrom(true) <= LINE_RANGE && v + m.RowTo(true) - m.RowFrom(false) <= LINE_RANGE
  }

  /** A row of the horizontal pass. */
  lemma RowSumsFitNear(e: seq<sint16>, b: seq<sint16>, W: nat, v: nat, m: BandErrors, r: nat)
    requires Block(b, W) && r < 2 * W && AllWithin(b, v) && v <= VECTOR_RANGE && m.Slight() && SumsRoom(v, m)
    requires Block(e, W) && BandsNear(e, EncodedBlock(b, W), W, m)
    ensures InverseSumsFit(LowBand(e, W, r), HighBand(e, W, r), W)
  {
    hide VertEncoded, HorizEncoded, RowLine, LowBand, HighBand, InverseSumsFit, Near, BandsNear;
    var rows := (3 * v + 2) / 2;
    RowWithin(b, W, r, v);
    RowNear(e, VertEncoded(b, W), W, r, m);
    InverseFits(LowBand(e, W, r), HighBand(e, W, r), RowLine(VertEncoded(b, W), W, r), W,
                m.LowFrom(r < W), m.LowTo(r < W), -m.Detail(r < W), m.Detail(r < W), rows);
  }

  /**
   The sums of the inverse transform fit for the sub-bands of every block of samples within v, at most 10921, even
   when they are slightly off.
   */
  lemma DecodeSumsFitWithin(e: seq<sint16>, b: seq<sint16>, W: nat, v: nat, m: BandErrors)
    requires Block(b, W) && AllWithin(b, v) && v <= VECTOR_RANGE && m.Slight() && SumsRoom(v, m)
    requires Block(e, W) && BandsNear(e, EncodedBlock(b, W), W, m)
    ensures DecodeSumsFit(e, W)
  {
    hide VertEncoded, HorizEncoded, HorizDecoded, Column, ColumnPart, RowLine, LowBand, HighBand, InverseSumsFit, Near, BandsNear;
    var d := HorizDecoded(e, W);
    forall r | 0 <= r < 2 * W
      ensures InverseSumsFit(LowBand(e, W, r), HighBand(e, W, r), W)
    {
      RowSumsFitNear(e, b, W, v, m, r);
    }
    forall c | 0 <= c < 2 * W
      ensures InverseSumsFit(ColumnPart(d, W, 0, c), ColumnPart(d, W, W, c), W)
    {
      ColumnNear(e, b, W, c, m);
      ColumnWithin(b, W, c, v);
      InverseFits(ColumnPart(d, W, 0, c), ColumnPart(d, W, W, c), Column(b, W, c), W,
                  m.RowFrom(true), m.RowTo(true), m.RowFrom(false), m.RowTo(false), v);
    }
  }
}

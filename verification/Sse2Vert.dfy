/** The vertical wavelet passes of the SSE2 code: row by row, eight columns at a time. */
module Sse2Vert {
  import opened Bits
  import opened Grid
  import opened DwtLine
  import opened DwtBlock
  import opened Sse2Lanes
  import opened Sse2Store

  /** Every sum that the forward column filters halve fits 16 bits. */
  ghost predicate ColumnSumsFit(b: seq<sint16>, W: nat)
    requires Block(b, W)
  {
    forall c :: 0 <= c < 2 * W ==> ForwardSumsFit(Column(b, W, c), W)
  }

  /** Every sum that the inverse column filters halve fits 16 bits. */
  ghost predicate ColumnPartSumsFit(d: seq<sint16>, W: nat)
    requires Block(d, W)
  {
    forall c :: 0 <= c < 2 * W ==> InverseSumsFit(ColumnPart(d, W, 0, c), ColumnPart(d, W, W, c), W)
  }

  // ---------- Forward ----------

  /** Eight cells of row r of a block. */
  function Lanes(b: seq<sint16>, W: nat, r: nat, x: nat): Vec
    requires Block(b, W) && r < 2 * W && x + 8 <= 2 * W
  {
    Oct(b, 2 * W, 2 * W, r, x)
  }

  lemma LaneAt(b: seq<sint16>, W: nat, r: nat, x: nat, k: nat)
    requires Block(b, W) && r < 2 * W && x + 8 <= 2 * W && k < 8
    ensures Lanes(b, W, r, x)[k] == Cell(b, W, r, x + k)
  {
    OctAt(b, 2 * W, 2 * W, r, x, k);
  }

  lemma HighOct(b: seq<sint16>, W: nat, n: nat, x: nat)
    requires Block(b, W) && n < W && x + 8 <= 2 * W && ColumnSumsFit(b, W)
    ensures HighV(Lanes(b, W, 2 * n, x), Lanes(b, W, 2 * n + 1, x), Lanes(b, W, 2 * Next(n, W), x))
         == Lanes(VertEncoded(b, W), W, W + n, x)
  {
    hide VertEncoded, HighPass, LowPass, Row, ForwardSumsFitAt, Lanes, HighV, Cell, Add16, Sub16;
    var p, q, r := Lanes(b, W, 2 * n, x), Lanes(b, W, 2 * n + 1, x), Lanes(b, W, 2 * Next(n, W), x);
    forall k | 0 <= k < 8
      ensures HighV(p, q, r)[k] == Lanes(VertEncoded(b, W), W, W + n, x)[k]
    {
      VectorLanes(p, q, r, k);
      LaneAt(b, W, 2 * n, x, k);
      LaneAt(b, W, 2 * n + 1, x, k);
      LaneAt(b, W, 2 * Next(n, W), x, k);
      LaneAt(VertEncoded(b, W), W, W + n, x, k);
      VertEncodedAt(b, W, W + n, x + k);
      HighLane(Column(b, W, x + k), W, n);
    }
  }

  lemma LowOct(b: seq<sint16>, W: nat, n: nat, x: nat)
    requires Block(b, W) && n < W && x + 8 <= 2 * W && ColumnSumsFit(b, W)
    ensures var t := VertEncoded(b, W);
      LowV(Lanes(t, W, W + Prev(n), x), Lanes(t, W, W + n, x), Lanes(b, W, 2 * n, x)) == Lanes(t, W, n, x)
  {
    hide VertEncoded, HighPass, LowPass, Row, ForwardSumsFitAt, Lanes, LowV, Cell, Add16, Sub16;
    var t := VertEncoded(b, W);
    var hm, h, p := Lanes(t, W, W + Prev(n), x), Lanes(t, W, W + n, x), Lanes(b, W, 2 * n, x);
    forall k | 0 <= k < 8
      ensures LowV(hm, h, p)[k] == Lanes(t, W, n, x)[k]
    {
      VectorLanes(hm, h, p, k);
      LaneAt(t, W, W + Prev(n), x, k);
      LaneAt(t, W, W + n, x, k);
      LaneAt(b, W, 2 * n, x, k);
      LaneAt(t, W, n, x, k);
      VertEncodedAt(b, W, n, x + k);
      VertEncodedAt(b, W, W + n, x + k);
      VertEncodedAt(b, W, W + Prev(n), x + k);
      LowLane(Column(b, W, x + k), W, n);
    }
  }

  /** Eight columns of one row pair: the high-pass octet first, then the low-pass octet. */
  method EncodeOct(buffer: array<sint16>, off: nat, dwt: array<sint16>, W: nat, n: nat, x: nat, ghost b: seq<sint16>)
    requires Block(b, W) && n < W && x + 8 <= 2 * W && ColumnSumsFit(b, W) && buffer != dwt
    requires off + Size(W) <= buffer.Length && buffer[off..off + Size(W)] == b && Size(W) <= dwt.Length
    requires n > 0 ==> Has(dwt, 0, VertEncoded(b, W), 2 * W, W + n - 1, x, x + 8)
    modifies dwt
    ensures Has(dwt, 0, VertEncoded(b, W), 2 * W, n, x, x + 8)
    ensures Has(dwt, 0, VertEncoded(b, W), 2 * W, W + n, x, x + 8)
    ensures forall j :: 0 <= j < dwt.Length && Outside(j, 0, Size(W), 2 * W, n, x, x + 8) ==>
      Outside(j, 0, Size(W), 2 * W, W + n, x, x + 8) ==> dwt[j] == old(dwt[j])
  {
    hide VertEncoded, Row, In, Has, Oct, HighV, LowV, LoadV, Column, ColumnSumsFit, Add16, Sub16;
    ghost var t := VertEncoded(b, W);
    var w := 2 * W;
    GridOct(buffer, off, b, w, w, 2 * n, x, 0);
    GridOct(buffer, off, b, w, w, 2 * n + 1, x, 0);
    GridOct(buffer, off, b, w, w, 2 * Next(n, W), x, 0);
    var p := LoadV(buffer, off + Row(2 * n, w) + x, 0);
    var q := LoadV(buffer, off + Row(2 * n + 1, w) + x, 0);
    var r := if n < W - 1 then LoadV(buffer, off + Row(2 * n + 2, w) + x, 0) else p;
    HighOct(b, W, n, x);
    assert r == Oct(b, w, w, 2 * Next(n, W), x);
    var h := HighV(p, q, r);
    assert h == Oct(t, w, w, W + n, x);
    StoreOct(dwt, 0, t, w, w, W + n, x, h);
    var hm := h;
    if n > 0 {
      LoadOct(dwt, 0, t, w, w, W + n - 1, x, 0);
      hm := LoadV(dwt, Row(W + n - 1, w) + x, 0);
    }
    LowOct(b, W, n, x);
    assert hm == Oct(t, w, w, W + Prev(n), x);
    var l := LowV(hm, h, p);
    StoreOct(dwt, 0, t, w, w, n, x, l);
  }

  /** One row pair. */
  method EncodeRows(buffer: array<sint16>, off: nat, dwt: array<sint16>, W: nat, n: nat, ghost b: seq<sint16>)
    requires Block(b, W) && n < W && W % 4 == 0 && ColumnSumsFit(b, W) && buffer != dwt
    requires off + Size(W) <= buffer.Length && buffer[off..off + Size(W)] == b && Size(W) <= dwt.Length
    requires n > 0 ==> Has(dwt, 0, VertEncoded(b, W), 2 * W, W + n - 1, 0, 2 * W)
    modifies dwt
    ensures Has(dwt, 0, VertEncoded(b, W), 2 * W, n, 0, 2 * W) && Has(dwt, 0, VertEncoded(b, W), 2 * W, W + n, 0, 2 * W)
    ensures forall j :: 0 <= j < dwt.Length && RowOf(j, 2 * W) != n && RowOf(j, 2 * W) != W + n ==> dwt[j] == old(dwt[j])
  {
    hide VertEncoded, ColOf, RowOf, Size, ColumnSumsFit;
    ghost var t := VertEncoded(b, W);
    var x := 0;
    while x < 2 * W
      invariant 0 <= x <= 2 * W && x % 8 == 0
      invariant n > 0 ==> Has(dwt, 0, t, 2 * W, W + n - 1, 0, 2 * W)
      invariant Has(dwt, 0, t, 2 * W, n, 0, x) && Has(dwt, 0, t, 2 * W, W + n, 0, x)
      invariant forall j :: 0 <= j < dwt.Length && RowOf(j, 2 * W) != n && RowOf(j, 2 * W) != W + n ==> dwt[j] == old(dwt[j])
    {
      EncodeOct(buffer, off, dwt, W, n, x, b);
      x := x + 8;
    }
  }

  /** The forward pass over columns, in row order. */
  method VertEncode(buffer: array<sint16>, off: nat, dwt: array<sint16>, W: nat)
    requires W > 0 && W % 4 == 0 && off + Size(W) <= buffer.Length && Size(W) <= dwt.Length && buffer != dwt
    requires ColumnSumsFit(buffer[off..off + Size(W)], W)
    modifies dwt
    ensures dwt[..Size(W)] == VertEncoded(buffer[off..off + Size(W)], W)
  {
    hide VertEncoded, ColOf, RowOf, Size, ColumnSumsFit;
    ghost var b := buffer[off..off + Size(W)];
    ghost var t := VertEncoded(b, W);
    var n := 0;
    while n < W
      invariant 0 <= n <= W
      invariant forall i :: 0 <= i < Size(W) && (RowOf(i, 2 * W) < n || W <= RowOf(i, 2 * W) < W + n) ==> dwt[i] == t[i]
    {
      EncodeRows(buffer, off, dwt, W, n, b);
      n := n + 1;
    }
    RowsCovered(W);
  }

  // ---------- Inverse ----------

  lemma EvenOct(d: seq<sint16>, W: nat, n: nat, x: nat)
    requires Block(d, W) && n < W && x + 8 <= 2 * W && ColumnPartSumsFit(d, W)
    ensures EvenV(Lanes(d, W, n, x), AddV(AddV(Lanes(d, W, W + n, x), SplatOne()), Lanes(d, W, W + Prev(n), x)))
         == Lanes(VertDecoded(d, W), W, 2 * n, x)
  {
    hide VertDecoded, Even, Odd, Row, InverseSumsFitAt, Lanes, EvenV, AddV, SplatOne, Cell, Add16, Sub16;
    var t := VertDecoded(d, W);
    var l, h, hm := Lanes(d, W, n, x), Lanes(d, W, W + n, x), Lanes(d, W, W + Prev(n), x);
    forall k | 0 <= k < 8
      ensures EvenV(l, AddV(AddV(h, SplatOne()), hm))[k] == Lanes(t, W, 2 * n, x)[k]
    {
      VectorLanes(l, h, hm, k);
      LaneAt(d, W, n, x, k);
      LaneAt(d, W, W + n, x, k);
      LaneAt(d, W, W + Prev(n), x, k);
      LaneAt(t, W, 2 * n, x, k);
      VertDecodedAt(d, W, 2 * n, x + k);
      EvenLane(ColumnPart(d, W, 0, x + k), ColumnPart(d, W, W, x + k), W, n);
    }
  }

  lemma OddOct(d: seq<sint16>, W: nat, n: nat, x: nat)
    requires Block(d, W) && n < W && x + 8 <= 2 * W && ColumnPartSumsFit(d, W)
    ensures var t := VertDecoded(d, W);
      OddV(Lanes(d, W, W + n, x), Lanes(t, W, 2 * n, x), Lanes(t, W, 2 * Next(n, W), x)) == Lanes(t, W, 2 * n + 1, x)
  {
    hide VertDecoded, Even, Odd, Row, InverseSumsFitAt, Lanes, OddV, Cell, Add16, Sub16;
    var t := VertDecoded(d, W);
    var h, e, en := Lanes(d, W, W + n, x), Lanes(t, W, 2 * n, x), Lanes(t, W, 2 * Next(n, W), x);
    forall k | 0 <= k < 8
      ensures OddV(h, e, en)[k] == Lanes(t, W, 2 * n + 1, x)[k]
    {
      VectorLanes(h, e, en, k);
      LaneAt(d, W, W + n, x, k);
      LaneAt(t, W, 2 * n, x, k);
      LaneAt(t, W, 2 * Next(n, W), x, k);
      LaneAt(t, W, 2 * n + 1, x, k);
      VertDecodedAt(d, W, 2 * n, x + k);
      VertDecodedAt(d, W, 2 * n + 1, x + k);
      VertDecodedAt(d, W, 2 * Next(n, W), x + k);
      OddLane(ColumnPart(d, W, 0, x + k), ColumnPart(d, W, W, x + k), W, n);
    }
  }

  /** Eight columns of even row 2n. */
  method DecodeEvenOct(idwt: array<sint16>, buffer: array<sint16>, off: nat, W: nat, n: nat, x: nat, ghost d: seq<sint16>)
    requires Block(d, W) && n < W && x + 8 <= 2 * W && ColumnPartSumsFit(d, W) && buffer != idwt
    requires Size(W) <= idwt.Length && idwt[..Size(W)] == d && off + Size(W) <= buffer.Length
    modifies buffer
    ensures Has(buffer, off, VertDecoded(d, W), 2 * W, 2 * n, x, x + 8)
    ensures forall j :: 0 <= j < buffer.Length && Outside(j, off, Size(W), 2 * W, 2 * n, x, x + 8) ==>
      buffer[j] == old(buffer[j])
  {
    hide VertDecoded, Row, In, Has, Oct, EvenV, AddV, SplatOne, LoadV, ColumnPart, ColumnPartSumsFit, Add16, Sub16;
    var w := 2 * W;
    GridOct(idwt, 0, d, w, w, n, x, 0);
    GridOct(idwt, 0, d, w, w, W + n, x, 0);
    GridOct(idwt, 0, d, w, w, W + Prev(n), x, 0);
    var l := LoadV(idwt, Row(n, w) + x, 0);
    var h := LoadV(idwt, Row(W + n, w) + x, 0);
    var hm := if n == 0 then h else LoadV(idwt, Row(W + n - 1, w) + x, 0);
    assert hm == Oct(d, w, w, W + Prev(n), x);
    EvenOct(d, W, n, x);
    var v := EvenV(l, AddV(AddV(h, SplatOne()), hm));
    StoreOct(buffer, off, VertDecoded(d, W), w, w, 2 * n, x, v);
  }

  /** Eight columns of odd row 2n + 1, from the even rows already in place. */
  method DecodeOddOct(idwt: array<sint16>, buffer: array<sint16>, off: nat, W: nat, n: nat, x: nat, ghost d: seq<sint16>)
    requires Block(d, W) && n < W && x + 8 <= 2 * W && ColumnPartSumsFit(d, W) && buffer != idwt
    requires Size(W) <= idwt.Length && idwt[..Size(W)] == d && off + Size(W) <= buffer.Length
    requires Has(buffer, off, VertDecoded(d, W), 2 * W, 2 * n, x, x + 8)
    requires Has(buffer, off, VertDecoded(d, W), 2 * W, 2 * Next(n, W), x, x + 8)
    modifies buffer
    ensures Has(buffer, off, VertDecoded(d, W), 2 * W, 2 * n + 1, x, x + 8)
    ensures forall j :: 0 <= j < buffer.Length && Outside(j, off, Size(W), 2 * W, 2 * n + 1, x, x + 8) ==>
      buffer[j] == old(buffer[j])
  {
    hide VertDecoded, Row, In, Has, Oct, OddV, LoadV, ColumnPart, ColumnPartSumsFit, Add16, Sub16;
    ghost var t := VertDecoded(d, W);
    var w := 2 * W;
    GridOct(idwt, 0, d, w, w, W + n, x, 0);
    LoadOct(buffer, off, t, w, w, 2 * n, x, 0);
    LoadOct(buffer, off, t, w, w, 2 * Next(n, W), x, 0);
    var h := LoadV(idwt, Row(W + n, w) + x, 0);
    var e := LoadV(buffer, off + Row(2 * n, w) + x, 0);
    var en := if n == W - 1 then e else LoadV(buffer, off + Row(2 * n + 2, w) + x, 0);
    assert en == Oct(t, w, w, 2 * Next(n, W), x);
    OddOct(d, W, n, x);
    var v := OddV(h, e, en);
    StoreOct(buffer, off, t, w, w, 2 * n + 1, x, v);
  }

  /** The even rows, in row order. */
  method DecodeEvens(idwt: array<sint16>, buffer: array<sint16>, off: nat, W: nat, ghost d: seq<sint16>)
    requires Block(d, W) && W % 4 == 0 && ColumnPartSumsFit(d, W) && buffer != idwt
    requires Size(W) <= idwt.Length && idwt[..Size(W)] == d && off + Size(W) <= buffer.Length
    modifies buffer
    ensures forall i :: 0 <= i < Size(W) && RowOf(i, 2 * W) % 2 == 0 ==> buffer[off + i] == VertDecoded(d, W)[i]
    ensures forall j :: 0 <= j < buffer.Length && (j < off || j >= off + Size(W)) ==> buffer[j] == old(buffer[j])
  {
    hide VertDecoded, ColOf, RowOf, Size, ColumnPartSumsFit;
    ghost var t := VertDecoded(d, W);
    var n := 0;
    while n < W
      invariant 0 <= n <= W
      invariant forall i :: 0 <= i < Size(W) && RowOf(i, 2 * W) % 2 == 0 && RowOf(i, 2 * W) < 2 * n ==> buffer[off + i] == t[i]
      invariant forall j :: 0 <= j < buffer.Length && (j < off || j >= off + Size(W)) ==> buffer[j] == old(buffer[j])
    {
      var x := 0;
      while x < 2 * W
        invariant 0 <= x <= 2 * W && x % 8 == 0
        invariant forall i :: 0 <= i < Size(W) && RowOf(i, 2 * W) % 2 == 0 && RowOf(i, 2 * W) < 2 * n ==> buffer[off + i] == t[i]
        invariant forall i :: 0 <= i < Size(W) && RowOf(i, 2 * W) == 2 * n && ColOf(i, 2 * W) < x ==> buffer[off + i] == t[i]
        invariant forall j :: 0 <= j < buffer.Length && (j < off || j >= off + Size(W)) ==> buffer[j] == old(buffer[j])
      {
        DecodeEvenOct(idwt, buffer, off, W, n, x, d);
        x := x + 8;
      }
      n := n + 1;
    }
    RowsCovered(W);
  }

  /** The odd rows between them. */
  method DecodeOdds(idwt: array<sint16>, buffer: array<sint16>, off: nat, W: nat, ghost d: seq<sint16>)
    requires Block(d, W) && W % 4 == 0 && ColumnPartSumsFit(d, W) && buffer != idwt
    requires Size(W) <= idwt.Length && idwt[..Size(W)] == d && off + Size(W) <= buffer.Length
    requires forall i :: 0 <= i < Size(W) && RowOf(i, 2 * W) % 2 == 0 ==> buffer[off + i] == VertDecoded(d, W)[i]
    modifies buffer
    ensures forall i :: 0 <= i < Size(W) ==> buffer[off + i] == VertDecoded(d, W)[i]
    ensures forall j :: 0 <= j < buffer.Length && (j < off || j >= off + Size(W)) ==> buffer[j] == old(buffer[j])
  {
    hide VertDecoded, ColOf, RowOf, Size, ColumnPartSumsFit;
    ghost var t := VertDecoded(d, W);
    var n := 0;
    while n < W
      invariant 0 <= n <= W
      invariant forall i :: 0 <= i < Size(W) && (RowOf(i, 2 * W) % 2 == 0 || RowOf(i, 2 * W) < 2 * n) ==> buffer[off + i] == t[i]
      invariant forall j :: 0 <= j < buffer.Length && (j < off || j >= off + Size(W)) ==> buffer[j] == old(buffer[j])
    {
      var x := 0;
      while x < 2 * W
        invariant 0 <= x <= 2 * W && x % 8 == 0
        invariant forall i :: 0 <= i < Size(W) && (RowOf(i, 2 * W) % 2 == 0 || RowOf(i, 2 * W) < 2 * n) ==> buffer[off + i] == t[i]
        invariant forall i :: 0 <= i < Size(W) && RowOf(i, 2 * W) == 2 * n + 1 && ColOf(i, 2 * W) < x ==> buffer[off + i] == t[i]
        invariant forall j :: 0 <= j < buffer.Length && (j < off || j >= off + Size(W)) ==> buffer[j] == old(buffer[j])
      {
        DecodeOddOct(idwt, buffer, off, W, n, x, d);
        x := x + 8;
      }
      n := n + 1;
    }
    RowsCovered(W);
  }

  /** The inverse pass over columns: all even rows, then all odd rows. */
  method VertDecode(idwt: array<sint16>, buffer: array<sint16>, off: nat, W: nat)
    requires W > 0 && W % 4 == 0 && off + Size(W) <= buffer.Length && Size(W) <= idwt.Length && buffer != idwt
    requires ColumnPartSumsFit(idwt[..Size(W)], W)
    modifies buffer
    ensures buffer[..] == old(buffer[..off]) + VertDecoded(idwt[..Size(W)], W) + old(buffer[off + Size(W)..])
  {
    hide VertDecoded, RowOf, Size, ColumnPartSumsFit;
    ghost var d := idwt[..Size(W)];
    DecodeEvens(idwt, buffer, off, W, d);
    DecodeOdds(idwt, buffer, off, W, d);
    Rebuilt(buffer[..], old(buffer[..]), off, VertDecoded(d, W));
  }
}

/** The scalar wavelet passes, in place on buffers with a scratch buffer, proved against DwtBlock. */
module Dwt {
  import opened Bits
  import opened Grid
  import opened DwtLine
  import opened DwtBlock

  /** Whether index i is one of n cells at a stride from base. */
  ghost predicate OnLine(i: int, base: nat, stride: nat, n: nat) {
    exists k :: 0 <= k < n && i == base + Row(k, stride)
  }

  lemma OnLineAt(base: nat, stride: nat, W: nat, n: nat)
    requires n < W
    ensures OnLine(base + Row(n, stride), base, stride, W)
  {
  }

  /** Cells of two separate lines do not coincide. */
  lemma Distinct(lBase: nat, hBase: nat, stride: nat, W: nat, m: nat, n: nat)
    requires stride > 0 && n < W && m < W
    requires lBase + Row(W, stride) <= hBase || hBase + Row(W, stride) <= lBase
    ensures lBase + Row(m, stride) != hBase + Row(n, stride)
  {
    hide Row;
    RowMono(n, W, stride);
    RowMono(m, W, stride);
  }

  /** The samples of a line, at a stride in an array. */
  ghost predicate LineAt(a: array<sint16>, base: nat, stride: nat, x: seq<sint16>)
    reads a
  {
    forall k :: 0 <= k < |x| ==> base + Row(k, stride) < a.Length && a[base + Row(k, stride)] == x[k]
  }

  ghost predicate Room(a: array<sint16>, base: nat, stride: nat, n: nat) {
    forall k :: 0 <= k < n ==> base + Row(k, stride) < a.Length
  }

  /** One coefficient pair of the forward filter. The previous high-pass value is read back from dst. */
  method ForwardStep(src: array<sint16>, base: nat, dst: array<sint16>, l: nat, h: nat, hPrev: nat, stride: nat, W: nat,
                     n: nat, ghost x: seq<sint16>)
    requires Line(x, W) && n < W && src != dst && LineAt(src, base, stride, x)
    requires l < dst.Length && h < dst.Length && l != h && hPrev < dst.Length
    requires if n == 0 then hPrev == h else hPrev != h && dst[hPrev] == HighPass(x, W, n - 1)
    modifies dst
    ensures dst[l] == LowPass(x, W, n) && dst[h] == HighPass(x, W, n)
    ensures forall i :: 0 <= i < dst.Length && i != l && i != h ==> dst[i] == old(dst[i])
  {
    hide Wrap16, HighValue, LowValue, Row, HighPass, LowPass;
    var p := src[base + Row(2 * n, stride)];
    var q := src[base + Row(2 * n + 1, stride)];
    var r := src[base + Row(if n < W - 1 then 2 * n + 2 else 2 * n, stride)];
    assert p == x[2 * n] && q == x[2 * n + 1] && r == x[2 * Next(n, W)];
    ForwardValues(x, W, n);
    dst[h] := Wrap16(HighValue(p, q, r));
    dst[l] := Wrap16(LowValue(p, dst[hPrev], dst[h]));
  }

  /**
   The forward filter on one line. Sample k is at src[base + k * stride]; coefficient n goes to
   dst[lBase + n * stride] and dst[hBase + n * stride]. The vertical pass runs it with the stride of a row, the
   horizontal pass with stride one.
   */
  method ForwardLine(src: array<sint16>, base: nat, dst: array<sint16>, lBase: nat, hBase: nat, stride: nat, W: nat,
                     ghost x: seq<sint16>)
    requires Line(x, W) && stride > 0 && src != dst && LineAt(src, base, stride, x)
    requires Room(dst, lBase, stride, W) && Room(dst, hBase, stride, W)
    requires lBase + Row(W, stride) <= hBase || hBase + Row(W, stride) <= lBase
    modifies dst
    ensures forall n :: 0 <= n < W ==> dst[lBase + Row(n, stride)] == LowPass(x, W, n)
    ensures forall n :: 0 <= n < W ==> dst[hBase + Row(n, stride)] == HighPass(x, W, n)
    ensures forall i :: 0 <= i < dst.Length && !OnLine(i, lBase, stride, W) && !OnLine(i, hBase, stride, W) ==>
      dst[i] == old(dst[i])
  {
    hide Row, HighPass, LowPass, OnLine, LineAt;
    var n := 0;
    while n < W
      invariant 0 <= n <= W
      invariant forall m :: 0 <= m < n ==> dst[lBase + Row(m, stride)] == LowPass(x, W, m)
      invariant forall m :: 0 <= m < n ==> dst[hBase + Row(m, stride)] == HighPass(x, W, m)
      invariant forall i :: 0 <= i < dst.Length && !OnLine(i, lBase, stride, W) && !OnLine(i, hBase, stride, W) ==>
        dst[i] == old(dst[i])
    {
      Distinct(lBase, hBase, stride, W, n, n);
      if n > 0 {
        OneLineDistinct(hBase, stride, n - 1, n);
      }
      var l, h := lBase + Row(n, stride), hBase + Row(n, stride);
      OnLineAt(lBase, stride, W, n);
      OnLineAt(hBase, stride, W, n);
      ForwardStep(src, base, dst, l, h, if n == 0 then h else hBase + Row(n - 1, stride), stride, W, n, x);
      forall m | 0 <= m < n
        ensures dst[lBase + Row(m, stride)] == LowPass(x, W, m)
        ensures dst[hBase + Row(m, stride)] == HighPass(x, W, m)
      {
        OneLineDistinct(lBase, stride, m, n);
        OneLineDistinct(hBase, stride, m, n);
        Distinct(lBase, hBase, stride, W, m, n);
        Distinct(lBase, hBase, stride, W, n, m);
      }
      n := n + 1;
    }
  }

  /** Cells of one line at different places do not coincide. */
  lemma OneLineDistinct(base: nat, stride: nat, m: nat, n: nat)
    requires stride > 0 && m != n
    ensures base + Row(m, stride) != base + Row(n, stride)
  {
    hide Row;
    if m < n {
      RowMono(m, n, stride);
    } else {
      RowMono(n, m, stride);
    }
  }

  /** The even samples of a line. */
  method InverseEvens(src: array<sint16>, lBase: nat, hBase: nat, dst: array<sint16>, base: nat, stride: nat, W: nat,
                      ghost l: seq<sint16>, ghost h: seq<sint16>)
    requires Bands(l, h, W) && stride > 0 && src != dst
    requires LineAt(src, lBase, stride, l) && LineAt(src, hBase, stride, h) && Room(dst, base, stride, 2 * W)
    modifies dst
    ensures forall n :: 0 <= n < W ==> dst[base + Row(2 * n, stride)] == Even(l, h, W, n)
    ensures forall i :: 0 <= i < dst.Length && !OnLine(i, base, stride, 2 * W) ==> dst[i] == old(dst[i])
  {
    hide Row, Even, Wrap16, EvenValue;
    var n := 0;
    while n < W
      invariant 0 <= n <= W
      invariant forall m :: 0 <= m < n ==> dst[base + Row(2 * m, stride)] == Even(l, h, W, m)
      invariant forall i :: 0 <= i < dst.Length && !OnLine(i, base, stride, 2 * W) ==> dst[i] == old(dst[i])
    {
      var i := base + Row(2 * n, stride);
      assert OnLine(i, base, stride, 2 * W);
      InverseValues(l, h, W, n);
      var hm := src[hBase + Row(if n > 0 then n - 1 else n, stride)];
      dst[i] := Wrap16(EvenValue(src[lBase + Row(n, stride)], hm, src[hBase + Row(n, stride)]));
      forall m | 0 <= m < n
        ensures dst[base + Row(2 * m, stride)] == Even(l, h, W, m)
      {
        OneLineDistinct(base, stride, 2 * m, 2 * n);
      }
      n := n + 1;
    }
  }

  /** The odd samples of a line, from the even ones already in place. */
  method InverseOdds(src: array<sint16>, hBase: nat, dst: array<sint16>, base: nat, stride: nat, W: nat,
                     ghost l: seq<sint16>, ghost h: seq<sint16>)
    requires Bands(l, h, W) && stride > 0 && src != dst
    requires LineAt(src, hBase, stride, h) && Room(dst, base, stride, 2 * W)
    requires forall n :: 0 <= n < W ==> dst[base + Row(2 * n, stride)] == Even(l, h, W, n)
    modifies dst
    ensures forall n :: 0 <= n < W ==> dst[base + Row(2 * n, stride)] == Even(l, h, W, n)
    ensures forall n :: 0 <= n < W ==> dst[base + Row(2 * n + 1, stride)] == Odd(l, h, W, n)
    ensures forall i :: 0 <= i < dst.Length && !OnLine(i, base, stride, 2 * W) ==> dst[i] == old(dst[i])
  {
    hide Row, Even, Odd, Wrap16, OddValue;
    var n := 0;
    while n < W
      invariant 0 <= n <= W
      invariant forall m :: 0 <= m < W ==> dst[base + Row(2 * m, stride)] == Even(l, h, W, m)
      invariant forall m :: 0 <= m < n ==> dst[base + Row(2 * m + 1, stride)] == Odd(l, h, W, m)
      invariant forall i :: 0 <= i < dst.Length && !OnLine(i, base, stride, 2 * W) ==> dst[i] == old(dst[i])
    {
      var i := base + Row(2 * n + 1, stride);
      assert OnLine(i, base, stride, 2 * W);
      InverseValues(l, h, W, n);
      var e := dst[base + Row(2 * n, stride)];
      var en := dst[base + Row(if n < W - 1 then 2 * (n + 1) else 2 * n, stride)];
      assert e == Even(l, h, W, n) && en == Even(l, h, W, Next(n, W));
      dst[i] := Wrap16(OddValue(src[hBase + Row(n, stride)], e, en));
      forall m | 0 <= m < W
        ensures dst[base + Row(2 * m, stride)] == Even(l, h, W, m)
      {
        OneLineDistinct(base, stride, 2 * m, 2 * n + 1);
      }
      forall m | 0 <= m < n
        ensures dst[base + Row(2 * m + 1, stride)] == Odd(l, h, W, m)
      {
        OneLineDistinct(base, stride, 2 * m + 1, 2 * n + 1);
      }
      n := n + 1;
    }
  }

  /** The inverse filter on one line: the even samples first, then the odd ones between them. */
  method InverseLine(src: array<sint16>, lBase: nat, hBase: nat, dst: array<sint16>, base: nat, stride: nat, W: nat,
                     ghost l: seq<sint16>, ghost h: seq<sint16>)
    requires Bands(l, h, W) && stride > 0 && src != dst
    requires LineAt(src, lBase, stride, l) && LineAt(src, hBase, stride, h) && Room(dst, base, stride, 2 * W)
    modifies dst
    ensures forall n :: 0 <= n < W ==> dst[base + Row(2 * n, stride)] == Even(l, h, W, n)
    ensures forall n :: 0 <= n < W ==> dst[base + Row(2 * n + 1, stride)] == Odd(l, h, W, n)
    ensures forall i :: 0 <= i < dst.Length && !OnLine(i, base, stride, 2 * W) ==> dst[i] == old(dst[i])
  {
    hide Row, Even, Odd;
    InverseEvens(src, lBase, hBase, dst, base, stride, W, l, h);
    InverseOdds(src, hBase, dst, base, stride, W, l, h);
  }

  // ---------- Columns ----------

  /** A column of a block in an array is a line with the stride of a row. */
  lemma ColumnLine(a: array<sint16>, off: nat, b: seq<sint16>, W: nat, c: nat)
    requires Block(b, W) && c < 2 * W && off + Size(W) <= a.Length && a[off..off + Size(W)] == b
    ensures LineAt(a, off + c, 2 * W, Column(b, W, c))
  {
    hide Row;
    forall k | 0 <= k < 2 * W
      ensures off + c + Row(k, 2 * W) < a.Length && a[off + c + Row(k, 2 * W)] == Column(b, W, c)[k]
    {
      Inside(k, c, 2 * W, 2 * W);
    }
  }

  lemma ColumnPartLine(a: array<sint16>, d: seq<sint16>, W: nat, first: nat, c: nat)
    requires Block(d, W) && c < 2 * W && first + W <= 2 * W && Size(W) <= a.Length && a[..Size(W)] == d
    ensures LineAt(a, c + Row(first, 2 * W), 2 * W, ColumnPart(d, W, first, c))
  {
    hide Row;
    forall k | 0 <= k < W
      ensures c + Row(first, 2 * W) + Row(k, 2 * W) < a.Length
      ensures a[c + Row(first, 2 * W) + Row(k, 2 * W)] == ColumnPart(d, W, first, c)[k]
    {
      RowAdd(first, k, 2 * W);
      Inside(first + k, c, 2 * W, 2 * W);
    }
  }

  lemma ColumnRoom(a: array<sint16>, off: nat, W: nat, c: nat, first: nat, n: nat)
    requires W > 0 && c < 2 * W && first + n <= 2 * W && off + Size(W) <= a.Length
    ensures Room(a, off + c + Row(first, 2 * W), 2 * W, n)
  {
    hide Row;
    forall k | 0 <= k < n
      ensures off + c + Row(first, 2 * W) + Row(k, 2 * W) < a.Length
    {
      RowAdd(first, k, 2 * W);
      Inside(first + k, c, 2 * W, 2 * W);
    }
  }

  /** An index in another column, or past the block, is not on the line of column c. */
  lemma OffColumn(i: int, off: nat, W: nat, c: nat, first: nat, n: nat)
    requires W > 0 && c < 2 * W && first + n <= 2 * W
    requires i < off || i >= off + Size(W) || ColOf(i - off, 2 * W) != c
    ensures !OnLine(i, off + c + Row(first, 2 * W), 2 * W, n)
  {
    hide Row;
    if OnLine(i, off + c + Row(first, 2 * W), 2 * W, n) {
      var k :| 0 <= k < n && i == off + c + Row(first, 2 * W) + Row(k, 2 * W);
      RowAdd(first, k, 2 * W);
      Inside(first + k, c, 2 * W, 2 * W);
      RowOfRow(first + k, c, 2 * W);
    }
  }

  /** Where index i of a block lies on the line of its column. */
  lemma OnColumn(i: nat, W: nat)
    requires W > 0 && i < Size(W)
    ensures var r, c := RowOf(i, 2 * W), ColOf(i, 2 * W);
      && r < 2 * W && i == c + Row(r, 2 * W)
      && (r >= W ==> i == c + Row(W, 2 * W) + Row(r - W, 2 * W))
      && i == c + Row(2 * (r / 2) + r % 2, 2 * W)
  {
    hide Row, RowOf, ColOf;
    var r := RowOf(i, 2 * W);
    Split(i, 2 * W);
    RowBound(i, 2 * W, 2 * W);
    assert r == 2 * (r / 2) + r % 2;
    if r >= W {
      RowAdd(W, r - W, 2 * W);
    }
  }

  /** The forward filter on column c. */
  method VertEncodeColumn(buffer: array<sint16>, off: nat, dwt: array<sint16>, W: nat, c: nat, ghost b: seq<sint16>)
    requires Block(b, W) && c < 2 * W && Size(W) <= dwt.Length && buffer != dwt
    requires off + Size(W) <= buffer.Length && buffer[off..off + Size(W)] == b
    modifies dwt
    ensures forall i :: 0 <= i < Size(W) && ColOf(i, 2 * W) == c ==> dwt[i] == VertEncoded(b, W)[i]
    ensures forall i :: 0 <= i < dwt.Length && (i >= Size(W) || ColOf(i, 2 * W) != c) ==> dwt[i] == old(dwt[i])
  {
    hide Row, LineAt, Room, OnLine, HighPass, LowPass, Column, RowOf, ColOf, Size;
    ColumnLine(buffer, off, b, W, c);
    RowZero(2 * W);
    ColumnRoom(dwt, 0, W, c, 0, W);
    ColumnRoom(dwt, 0, W, c, W, W);
    ForwardLine(buffer, off + c, dwt, c, c + Row(W, 2 * W), 2 * W, W, Column(b, W, c));
    forall i | 0 <= i < dwt.Length && (i >= Size(W) || ColOf(i, 2 * W) != c)
      ensures dwt[i] == old(dwt[i])
    {
      OffColumn(i, 0, W, c, 0, W);
      OffColumn(i, 0, W, c, W, W);
    }
    forall i | 0 <= i < Size(W) && ColOf(i, 2 * W) == c
      ensures dwt[i] == VertEncoded(b, W)[i]
    {
      OnColumn(i, W);
    }
  }

  lemma RowZero(w: nat)
    ensures Row(0, w) == 0
  {
  }

  /** The forward pass over columns: low rows above high rows in the scratch buffer. */
  method VertEncode(buffer: array<sint16>, off: nat, dwt: array<sint16>, W: nat)
    requires W > 0 && off + Size(W) <= buffer.Length && Size(W) <= dwt.Length && buffer != dwt
    modifies dwt
    ensures dwt[..Size(W)] == VertEncoded(buffer[off..off + Size(W)], W)
    ensures dwt[Size(W)..] == old(dwt[Size(W)..])
  {
    hide VertEncoded, ColOf, Size;
    ghost var b := buffer[off..off + Size(W)];
    var x := 0;
    while x < 2 * W
      invariant 0 <= x <= 2 * W
      invariant forall i :: 0 <= i < Size(W) && ColOf(i, 2 * W) < x ==> dwt[i] == VertEncoded(b, W)[i]
      invariant forall i :: Size(W) <= i < dwt.Length ==> dwt[i] == old(dwt[i])
    {
      VertEncodeColumn(buffer, off, dwt, W, x, b);
      x := x + 1;
    }
  }

  /** The inverse filter on column c. */
  method VertDecodeColumn(idwt: array<sint16>, buffer: array<sint16>, off: nat, W: nat, c: nat, ghost d: seq<sint16>)
    requires Block(d, W) && c < 2 * W && off + Size(W) <= buffer.Length && buffer != idwt
    requires Size(W) <= idwt.Length && idwt[..Size(W)] == d
    modifies buffer
    ensures forall i :: 0 <= i < Size(W) && ColOf(i, 2 * W) == c ==> buffer[off + i] == VertDecoded(d, W)[i]
    ensures forall i :: 0 <= i < buffer.Length && (i < off || i >= off + Size(W) || ColOf(i - off, 2 * W) != c) ==>
      buffer[i] == old(buffer[i])
  {
    hide Row, LineAt, Room, OnLine, Even, Odd, ColumnPart, RowOf, ColOf, Size;
    RowZero(2 * W);
    ColumnPartLine(idwt, d, W, 0, c);
    ColumnPartLine(idwt, d, W, W, c);
    ColumnRoom(buffer, off, W, c, 0, 2 * W);
    InverseLine(idwt, c, c + Row(W, 2 * W), buffer, off + c, 2 * W, W, ColumnPart(d, W, 0, c), ColumnPart(d, W, W, c));
    forall i | 0 <= i < buffer.Length && (i < off || i >= off + Size(W) || ColOf(i - off, 2 * W) != c)
      ensures buffer[i] == old(buffer[i])
    {
      OffColumn(i, off, W, c, 0, 2 * W);
    }
    forall i | 0 <= i < Size(W) && ColOf(i, 2 * W) == c
      ensures buffer[off + i] == VertDecoded(d, W)[i]
    {
      OnColumn(i, W);
    }
  }

  /** The inverse pass over columns, back into the block. */
  method VertDecode(idwt: array<sint16>, buffer: array<sint16>, off: nat, W: nat)
    requires W > 0 && off + Size(W) <= buffer.Length && Size(W) <= idwt.Length && buffer != idwt
    modifies buffer
    ensures buffer[..] == old(buffer[..off]) + VertDecoded(idwt[..Size(W)], W) + old(buffer[off + Size(W)..])
  {
    hide VertDecoded, ColOf, Size;
    ghost var d := idwt[..Size(W)];
    var x := 0;
    while x < 2 * W
      invariant 0 <= x <= 2 * W
      invariant forall i :: 0 <= i < Size(W) && ColOf(i, 2 * W) < x ==> buffer[off + i] == VertDecoded(d, W)[i]
      invariant forall i :: 0 <= i < buffer.Length && (i < off || i >= off + Size(W)) ==> buffer[i] == old(buffer[i])
    {
      VertDecodeColumn(idwt, buffer, off, W, x, d);
      x := x + 1;
    }
    assert buffer[off..off + Size(W)] == VertDecoded(d, W);
    SplitThree(buffer[..], off, Size(W));
  }

  // ---------- Rows ----------

  lemma {:induction false} RowOne(k: nat)
    ensures Row(k, 1) == k
  {
    if k > 0 {
      RowOne(k - 1);
    }
  }

  lemma RowLineAt(a: array<sint16>, d: seq<sint16>, W: nat, r: nat)
    requires Block(d, W) && r < 2 * W && Size(W) <= a.Length && a[..Size(W)] == d
    ensures LineAt(a, Row(r, 2 * W), 1, RowLine(d, W, r))
  {
    hide Row;
    forall k | 0 <= k < 2 * W
      ensures Row(r, 2 * W) + Row(k, 1) < a.Length && a[Row(r, 2 * W) + Row(k, 1)] == RowLine(d, W, r)[k]
    {
      RowOne(k);
      Inside(r, k, 2 * W, 2 * W);
    }
  }

  lemma BandLineAt(a: array<sint16>, off: nat, e: seq<sint16>, W: nat, q: nat)
    requires Block(e, W) && q < 4 * W && off + Size(W) <= a.Length && a[off..off + Size(W)] == e
    ensures LineAt(a, off + Row(q, W), 1, BandRow(e, W, q))
  {
    hide Row, BandCell;
    SizeBands(W);
    forall k | 0 <= k < W
      ensures off + Row(q, W) + Row(k, 1) < a.Length && a[off + Row(q, W) + Row(k, 1)] == BandRow(e, W, q)[k]
    {
      RowOne(k);
      Inside(q, k, W, 4 * W);
      BandCellAt(e, W, q, k);
    }
  }

  lemma RowRoom(a: array<sint16>, off: nat, w: nat, q: nat, rows: nat)
    requires q < rows && off + Row(rows, w) <= a.Length
    ensures Room(a, off + Row(q, w), 1, w)
  {
    hide Row;
    forall k | 0 <= k < w
      ensures off + Row(q, w) + Row(k, 1) < a.Length
    {
      RowOne(k);
      Inside(q, k, w, rows);
    }
  }

  /** An index in another row is not on the line of row q. */
  lemma OffRow(i: int, off: nat, w: nat, q: nat, rows: nat)
    requires w > 0 && q < rows && (i < off || i >= off + Row(rows, w) || RowOf(i - off, w) != q)
    ensures !OnLine(i, off + Row(q, w), 1, w)
  {
    hide Row;
    if OnLine(i, off + Row(q, w), 1, w) {
      var k :| 0 <= k < w && i == off + Row(q, w) + Row(k, 1);
      RowOne(k);
      Inside(q, k, w, rows);
      RowOfRow(q, k, w);
    }
  }

  /** Where index i lies on the line of its row. */
  lemma OnRow(i: nat, w: nat, rows: nat)
    requires w > 0 && i < Row(rows, w)
    ensures var q, c := RowOf(i, w), ColOf(i, w);
      && q < rows && i == Row(q, w) + Row(c, 1) && i == Row(q, w) + Row(2 * (c / 2) + c % 2, 1)
  {
    hide Row, RowOf, ColOf;
    var c := ColOf(i, w);
    Split(i, w);
    RowBound(i, w, rows);
    RowOne(c);
    assert c == 2 * (c / 2) + c % 2;
  }

  lemma BandRowsApart(r: nat, W: nat, off: nat)
    requires W > 0 && r < 2 * W
    ensures var l, h := off + Row(LowRow(r, W), W), off + Row(HighRow(r, W), W);
      l + Row(W, 1) <= h || h + Row(W, 1) <= l
  {
    hide Row;
    RowOne(W);
    if r < W {
      RowMono(r, 3 * W + r, W);
    } else {
      RowMono(r, W + r, W);
    }
  }

  /** The forward filter on row r of the scratch buffer, into two sub-band rows of the block. */
  method HorizEncodeRow(dwt: array<sint16>, buffer: array<sint16>, off: nat, W: nat, r: nat, ghost d: seq<sint16>)
    requires Block(d, W) && r < 2 * W && off + Size(W) <= buffer.Length && buffer != dwt
    requires Size(W) <= dwt.Length && dwt[..Size(W)] == d
    modifies buffer
    ensures forall i :: 0 <= i < Size(W) && LineOf(RowOf(i, W), W) == r ==> buffer[off + i] == HorizEncoded(d, W)[i]
    ensures forall i :: 0 <= i < buffer.Length && (i < off || i >= off + Size(W) || LineOf(RowOf(i - off, W), W) != r) ==>
      buffer[i] == old(buffer[i])
  {
    hide Row, LineAt, Room, OnLine, HighPass, LowPass, RowLine, RowOf, ColOf, Size;
    SizeBands(W);
    RowLineAt(dwt, d, W, r);
    RowRoom(buffer, off, W, LowRow(r, W), 4 * W);
    RowRoom(buffer, off, W, HighRow(r, W), 4 * W);
    BandRowsApart(r, W, off);
    ForwardLine(dwt, Row(r, 2 * W), buffer, off + Row(LowRow(r, W), W), off + Row(HighRow(r, W), W), 1, W, RowLine(d, W, r));
    forall i | 0 <= i < buffer.Length && (i < off || i >= off + Size(W) || LineOf(RowOf(i - off, W), W) != r)
      ensures buffer[i] == old(buffer[i])
    {
      OffRow(i, off, W, LowRow(r, W), 4 * W);
      OffRow(i, off, W, HighRow(r, W), 4 * W);
    }
    forall i | 0 <= i < Size(W) && LineOf(RowOf(i, W), W) == r
      ensures buffer[off + i] == HorizEncoded(d, W)[i]
    {
      OnRow(i, W, 4 * W);
    }
  }

  /** The forward pass over rows: the low rows give LL and HL, the high rows LH and HH. */
  method HorizEncode(dwt: array<sint16>, buffer: array<sint16>, off: nat, W: nat)
    requires W > 0 && off + Size(W) <= buffer.Length && Size(W) <= dwt.Length && buffer != dwt
    modifies buffer
    ensures buffer[..] == old(buffer[..off]) + HorizEncoded(dwt[..Size(W)], W) + old(buffer[off + Size(W)..])
  {
    hide HorizEncoded, RowOf, Size;
    ghost var d := dwt[..Size(W)];
    var y := 0;
    while y < W
      invariant 0 <= y <= W
      invariant forall i :: 0 <= i < Size(W) && (LineOf(RowOf(i, W), W) < y || W <= LineOf(RowOf(i, W), W) < W + y) ==>
        buffer[off + i] == HorizEncoded(d, W)[i]
      invariant forall i :: 0 <= i < buffer.Length && (i < off || i >= off + Size(W)) ==> buffer[i] == old(buffer[i])
    {
      HorizEncodeRow(dwt, buffer, off, W, y, d);
      HorizEncodeRow(dwt, buffer, off, W, W + y, d);
      y := y + 1;
    }
    LinesCovered(W);
    assert buffer[off..off + Size(W)] == HorizEncoded(d, W);
    SplitThree(buffer[..], off, Size(W));
  }

  /** The inverse filter from two sub-band rows into row r of the scratch buffer. */
  method HorizDecodeRow(buffer: array<sint16>, off: nat, idwt: array<sint16>, W: nat, r: nat, ghost e: seq<sint16>)
    requires Block(e, W) && r < 2 * W && Size(W) <= idwt.Length && buffer != idwt
    requires off + Size(W) <= buffer.Length && buffer[off..off + Size(W)] == e
    modifies idwt
    ensures forall i :: 0 <= i < Size(W) && RowOf(i, 2 * W) == r ==> idwt[i] == HorizDecoded(e, W)[i]
    ensures forall i :: 0 <= i < idwt.Length && (i >= Size(W) || RowOf(i, 2 * W) != r) ==> idwt[i] == old(idwt[i])
  {
    hide Row, LineAt, Room, OnLine, Even, Odd, BandRow, RowOf, ColOf;
    BandLineAt(buffer, off, e, W, LowRow(r, W));
    BandLineAt(buffer, off, e, W, HighRow(r, W));
    RowRoom(idwt, 0, 2 * W, r, 2 * W);
    InverseLine(buffer, off + Row(LowRow(r, W), W), off + Row(HighRow(r, W), W), idwt, Row(r, 2 * W), 1, W,
                LowBand(e, W, r), HighBand(e, W, r));
    forall i | 0 <= i < idwt.Length && (i >= Size(W) || RowOf(i, 2 * W) != r)
      ensures idwt[i] == old(idwt[i])
    {
      OffRow(i, 0, 2 * W, r, 2 * W);
    }
    forall i | 0 <= i < Size(W) && RowOf(i, 2 * W) == r
      ensures idwt[i] == HorizDecoded(e, W)[i]
    {
      OnRow(i, 2 * W, 2 * W);
    }
  }

  /** The inverse pass over rows, into the scratch buffer. */
  method HorizDecode(buffer: array<sint16>, off: nat, idwt: array<sint16>, W: nat)
    requires W > 0 && off + Size(W) <= buffer.Length && Size(W) <= idwt.Length && buffer != idwt
    modifies idwt
    ensures idwt[..Size(W)] == HorizDecoded(buffer[off..off + Size(W)], W)
    ensures idwt[Size(W)..] == old(idwt[Size(W)..])
  {
    hide HorizDecoded, RowOf, Size;
    ghost var e := buffer[off..off + Size(W)];
    var y := 0;
    while y < W
      invariant 0 <= y <= W
      invariant forall i :: 0 <= i < Size(W) && (RowOf(i, 2 * W) < y || W <= RowOf(i, 2 * W) < W + y) ==>
        idwt[i] == HorizDecoded(e, W)[i]
      invariant forall i :: Size(W) <= i < idwt.Length ==> idwt[i] == old(idwt[i])
    {
      HorizDecodeRow(buffer, off, idwt, W, y, e);
      HorizDecodeRow(buffer, off, idwt, W, W + y, e);
      y := y + 1;
    }
    RowsCovered(W);
  }

  // ---------- Blocks ----------

  /** Encodes the block at off in place. */
  method EncodeBlock(buffer: array<sint16>, off: nat, dwt: array<sint16>, W: nat)
    requires W > 0 && off + Size(W) <= buffer.Length && Size(W) <= dwt.Length && buffer != dwt
    modifies buffer, dwt
    ensures buffer[..] == old(buffer[..off]) + EncodedBlock(old(buffer[off..off + Size(W)]), W) + old(buffer[off + Size(W)..])
  {
    hide VertEncoded, HorizEncoded, Size;
    VertEncode(buffer, off, dwt, W);
    HorizEncode(dwt, buffer, off, W);
  }

  /** Decodes the block at off in place. */
  method DecodeBlock(buffer: array<sint16>, off: nat, idwt: array<sint16>, W: nat)
    requires W > 0 && off + Size(W) <= buffer.Length && Size(W) <= idwt.Length && buffer != idwt
    modifies buffer, idwt
    ensures buffer[..] == old(buffer[..off]) + DecodedBlock(old(buffer[off..off + Size(W)]), W) + old(buffer[off + Size(W)..])
  {
    hide HorizDecoded, VertDecoded, Size;
    HorizDecode(buffer, off, idwt, W);
    VertDecode(idwt, buffer, off, W);
  }
}

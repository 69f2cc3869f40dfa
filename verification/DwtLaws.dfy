/**
 The forward wavelet in plain terms: what each coefficient measures, with the neighbours written out at both ends of a
 line, and which sub-bands see which direction of the picture.
 */
module DwtLaws {
  import opened Bits
  import opened Grid
  import opened DwtLine
  import opened DwtBlock
  import opened DwtLevels
  import opened DwtTile
  import DwtGain
  import opened Quantization

  // ---------- One line ----------

  function Bend(p: int, q: int, r: int): int {
    2 * q - p - r
  }

  /** A high-pass value is a quarter of twice the odd sample less its even neighbours; the last has one neighbour only. */
  lemma HighLaw(x: seq<sint16>, W: nat, n: nat, b: nat)
    requires Line(x, W) && n < W && AllWithin(x, b) && b <= 0x7FFF
    ensures n < W - 1 ==> Errs(4 * HighPass(x, W, n), Bend(x[2 * n], x[2 * n + 1], x[2 * n + 2]), -2, 1)
    ensures n == W - 1 ==> Errs(4 * HighPass(x, W, n), Bend(x[2 * W - 2], x[2 * W - 1], x[2 * W - 2]), -2, 0)
  {
    HighRange(x, W, n, b);
  }

  /** A low-pass value is an eighth of six times the even sample, twice the odd ones beside it, less the next even ones. */
  lemma LowLaw(x: seq<sint16>, W: nat, n: nat, b: nat)
    requires Line(x, W) && n < W && AllWithin(x, b) && 3 * b + 2 <= 0xFFFE
    ensures 0 < n < W - 1 ==>
      Errs(8 * LowPass(x, W, n), DwtGain.Taps(x[2 * n - 2], x[2 * n - 1], x[2 * n], x[2 * n + 1], x[2 * n + 2]), -8, 2)
    ensures 0 < n == W - 1 ==>
      Errs(8 * LowPass(x, W, n), DwtGain.Taps(x[2 * n - 2], x[2 * n - 1], x[2 * n], x[2 * n + 1], x[2 * n]), -8, 2)
    ensures n == 0 && W > 1 ==> Errs(8 * LowPass(x, W, 0), DwtGain.Taps(x[2], x[1], x[0], x[1], x[2]), -8, 2)
  {
    hide LowPass;
    LowRange(x, W, n, b);
    HighRange(x, W, n, b);
    HighRange(x, W, Prev(n), b);
  }

  /** v is the 16-bit value of x. */
  predicate Agrees(v: sint16, x: int) {
    (x - v) % 0x1_0000 == 0
  }

  function Sum(a: int, b: int): int {
    a + b
  }

  /** The low-pass value of any line, in range or not. */
  lemma LowWraps(x: seq<sint16>, W: nat, n: nat)
    requires Line(x, W) && n < W
    ensures n > 0 ==> Agrees(LowPass(x, W, n), Sum(x[2 * n], Sum(HighPass(x, W, n - 1), HighPass(x, W, n)) / 2))
    ensures n == 0 ==> Agrees(LowPass(x, W, 0), Sum(x[0], HighPass(x, W, 0)))
  {
    hide HighPass;
  }

  /** Even and odd samples from any coefficients, in range or not. */
  lemma InverseWraps(l: seq<sint16>, h: seq<sint16>, W: nat, n: nat)
    requires Bands(l, h, W) && n < W
    ensures n > 0 ==> Agrees(Even(l, h, W, n), Sum(l[n], -(Sum(Sum(h[n - 1], h[n]), 1) / 2)))
    ensures n == 0 ==> Agrees(Even(l, h, W, 0), Sum(l[0], -(h[0] as int)))
    ensures n < W - 1 ==> Agrees(Odd(l, h, W, n), Sum(Sum(h[n], h[n]), Sum(Even(l, h, W, n), Even(l, h, W, n + 1)) / 2))
    ensures n == W - 1 ==> Agrees(Odd(l, h, W, n), Sum(Sum(h[n], h[n]), Even(l, h, W, n)))
  {
    EvenWraps(l, h, W, n);
    OddWraps(l, h, W, n);
  }

  lemma EvenWraps(l: seq<sint16>, h: seq<sint16>, W: nat, n: nat)
    requires Bands(l, h, W) && n < W
    ensures n > 0 ==> Agrees(Even(l, h, W, n), Sum(l[n], -(Sum(Sum(h[n - 1], h[n]), 1) / 2)))
    ensures n == 0 ==> Agrees(Even(l, h, W, 0), Sum(l[0], -(h[0] as int)))
  {
  }

  lemma OddWraps(l: seq<sint16>, h: seq<sint16>, W: nat, n: nat)
    requires Bands(l, h, W) && n < W
    ensures n < W - 1 ==> Agrees(Odd(l, h, W, n), Sum(Sum(h[n], h[n]), Sum(Even(l, h, W, n), Even(l, h, W, n + 1)) / 2))
    ensures n == W - 1 ==> Agrees(Odd(l, h, W, n), Sum(Sum(h[n], h[n]), Even(l, h, W, n)))
  {
    hide Even;
  }

  /** A constant line has no detail. */
  lemma FlatLine(x: seq<sint16>, W: nat, n: nat, v: sint16)
    requires Line(x, W) && n < W && forall i :: 0 <= i < 2 * W ==> x[i] == v
    ensures HighPass(x, W, n) == 0 && LowPass(x, W, n) == v
  {
    assert HighPass(x, W, Prev(n)) == 0;
  }

  // ---------- One block ----------

  predicate FlatRows(b: seq<sint16>, W: nat, v: seq<sint16>)
    requires Block(b, W)
  {
    |v| == 2 * W && forall r, c :: 0 <= r < 2 * W && 0 <= c < 2 * W ==> Cell(b, W, r, c) == v[r]
  }

  predicate FlatColumns(b: seq<sint16>, W: nat, v: seq<sint16>)
    requires Block(b, W)
  {
    |v| == 2 * W && forall r, c :: 0 <= r < 2 * W && 0 <= c < 2 * W ==> Cell(b, W, r, c) == v[c]
  }

  lemma FlatRowsVert(b: seq<sint16>, W: nat, v: seq<sint16>, r: nat, c: nat)
    requires Block(b, W) && FlatRows(b, W, v) && r < 2 * W && c < 2 * W
    ensures Cell(VertEncoded(b, W), W, r, c) == if r < W then LowPass(v, W, r) else HighPass(v, W, r - W)
  {
    hide VertEncoded, Cell, LowPass, HighPass;
    VertEncodedAt(b, W, r, c);
    assert Column(b, W, c) == v;
  }

  lemma FlatColumnsVert(b: seq<sint16>, W: nat, v: seq<sint16>, r: nat, c: nat)
    requires Block(b, W) && FlatColumns(b, W, v) && r < 2 * W && c < 2 * W
    ensures Cell(VertEncoded(b, W), W, r, c) == if r < W then v[c] else 0
  {
    hide VertEncoded, Cell, LowPass, HighPass;
    VertEncodedAt(b, W, r, c);
    FlatLine(Column(b, W, c), W, if r < W then r else r - W, v[c]);
  }

  /** A picture that only changes from row to row: nothing in HL and HH, its line transform in LH and LL. */
  lemma FlatRowsBands(b: seq<sint16>, W: nat, v: seq<sint16>, r: nat, n: nat)
    requires Block(b, W) && FlatRows(b, W, v) && r < W && n < W
    ensures var e := EncodedBlock(b, W);
      && BandCell(e, W, r, n) == 0 && BandCell(e, W, 2 * W + r, n) == 0
      && BandCell(e, W, W + r, n) == HighPass(v, W, r) && BandCell(e, W, 3 * W + r, n) == LowPass(v, W, r)
  {
    hide VertEncoded, HorizEncoded, Cell, BandCell, LowPass, HighPass;
    var d := VertEncoded(b, W);
    var low, high := RowLine(d, W, r), RowLine(d, W, W + r);
    forall c | 0 <= c < 2 * W
      ensures low[c] == LowPass(v, W, r)
    {
      FlatRowsVert(b, W, v, r, c);
    }
    forall c | 0 <= c < 2 * W
      ensures high[c] == HighPass(v, W, r)
    {
      FlatRowsVert(b, W, v, W + r, c);
    }
    FlatLine(low, W, n, LowPass(v, W, r));
    FlatLine(high, W, n, HighPass(v, W, r));
    HorizEncodedAt(d, W, r, n);
    HorizEncodedAt(d, W, W + r, n);
    HorizEncodedAt(d, W, 2 * W + r, n);
    HorizEncodedAt(d, W, 3 * W + r, n);
  }

  /** A picture that only changes from column to column: nothing in LH and HH, its line transform in HL and LL. */
  lemma FlatColumnsBands(b: seq<sint16>, W: nat, v: seq<sint16>, r: nat, n: nat)
    requires Block(b, W) && FlatColumns(b, W, v) && r < W && n < W
    ensures var e := EncodedBlock(b, W);
      && BandCell(e, W, W + r, n) == 0 && BandCell(e, W, 2 * W + r, n) == 0
      && BandCell(e, W, r, n) == HighPass(v, W, n) && BandCell(e, W, 3 * W + r, n) == LowPass(v, W, n)
  {
    hide VertEncoded, HorizEncoded, Cell, BandCell, LowPass, HighPass;
    var d := VertEncoded(b, W);
    var low, high := RowLine(d, W, r), RowLine(d, W, W + r);
    forall c | 0 <= c < 2 * W
      ensures low[c] == v[c]
    {
      FlatColumnsVert(b, W, v, r, c);
    }
    forall c | 0 <= c < 2 * W
      ensures high[c] == 0
    {
      FlatColumnsVert(b, W, v, W + r, c);
    }
    assert low == v;
    FlatLine(high, W, n, 0);
    HorizEncodedAt(d, W, r, n);
    HorizEncodedAt(d, W, W + r, n);
    HorizEncodedAt(d, W, 2 * W + r, n);
    HorizEncodedAt(d, W, 3 * W + r, n);
  }

  // ---------- A tile ----------

  /** Bands 7 to 9 are the first level, 4 to 6 the second, 1 to 3 the third, and 0 is what remains. */
  lemma BandLevels(i: nat)
    requires i < TILE
    ensures i < 3072 <==> BandOf(i) >= 7
    ensures 3072 <= i < 3840 <==> 4 <= BandOf(i) <= 6
    ensures i >= 4032 <==> BandOf(i) == 0
  {
  }

  /** The line that one level makes of a flat picture's line. */
  function LowLine(v: seq<sint16>, W: nat): (l: seq<sint16>)
    requires Line(v, W)
    ensures |l| == W
  {
    seq(W, n requires 0 <= n < W => LowPass(v, W, n))
  }

  lemma FlatBand(e: seq<sint16>, W: nat, i: nat)
    requires Block(e, W) && i < |e|
    ensures RowOf(i, W) < 4 * W && e[i] == BandCell(e, W, RowOf(i, W), ColOf(i, W))
  {
    hide Row, RowOf, ColOf;
    SizeBands(W);
    RowBound(i, W, 4 * W);
    Split(i, W);
  }

  /** HL and HH of one level are zero when rows are flat, LH and HH when columns are; LL is flat in the same way. */
  lemma FlatLevel(b: seq<sint16>, W: nat, v: seq<sint16>, rows: bool, i: nat)
    requires Block(b, W) && i < |b| && (if rows then FlatRows(b, W, v) else FlatColumns(b, W, v))
    ensures var e, q := EncodedBlock(b, W), RowOf(i, W);
      && (rows && (q < W || 2 * W <= q < 3 * W) ==> e[i] == 0)
      && (!rows && W <= q < 3 * W ==> e[i] == 0)
  {
    hide EncodedBlock, BandCell, RowOf, ColOf, LowPass, HighPass, FlatRows, FlatColumns, Size;
    var e := EncodedBlock(b, W);
    FlatBand(e, W, i);
    var q := RowOf(i, W);
    var r := if q < W then q else if q < 2 * W then q - W else if q < 3 * W then q - 2 * W else q - 3 * W;
    if rows {
      FlatRowsBands(b, W, v, r, ColOf(i, W));
    } else {
      FlatColumnsBands(b, W, v, r, ColOf(i, W));
    }
  }

  predicate Flat(b: seq<sint16>, W: nat, v: seq<sint16>, rows: bool)
    requires Block(b, W)
  {
    |v| == 2 * W && if rows then FlatRows(b, W, v) else FlatColumns(b, W, v)
  }

  lemma ThirdLevelCell(s: seq<sint16>, r: nat, c: nat)
    requires |s| == TILE && r < 16 && c < 16
    ensures Size(16) == 1024 && Size(8) == 256
    ensures Cell(ThirdLevel(s), 8, r, c) == BandCell(EncodedBlock(SecondLevel(s), 16), 16, 48 + r, c)
  {
    hide EncodedBlock, Row;
    LevelSizes();
    RowAdd(48, r, 16);
    Inside(r, c, 16, 16);
    RowProduct(16, 16);
  }

  lemma SecondFlat(s: seq<sint16>, v: seq<sint16>, rows: bool)
    requires |s| == TILE && Size(32) == TILE && Flat(s, 32, v, rows)
    ensures Size(16) == 1024 && Flat(SecondLevel(s), 16, LowLine(v, 32), rows)
  {
    hide EncodedBlock, Cell, BandCell, LowPass, SecondLevel, Size;
    LevelSizes();
    forall r, c | 0 <= r < 32 && 0 <= c < 32
      ensures Cell(SecondLevel(s), 16, r, c) == LowLine(v, 32)[if rows then r else c]
    {
      SecondCell(s, r, c);
      if rows {
        FlatRowsBands(s, 32, v, r, c);
      } else {
        FlatColumnsBands(s, 32, v, r, c);
      }
    }
  }

  lemma ThirdFlat(s: seq<sint16>, v: seq<sint16>, rows: bool)
    requires |s| == TILE && Size(16) == 1024 && Flat(SecondLevel(s), 16, v, rows)
    ensures Size(8) == 256 && Flat(ThirdLevel(s), 8, LowLine(v, 16), rows)
  {
    hide EncodedBlock, Cell, BandCell, LowPass, SecondLevel, ThirdLevel, Size;
    LevelSizes();
    forall r, c | 0 <= r < 16 && 0 <= c < 16
      ensures Cell(ThirdLevel(s), 8, r, c) == LowLine(v, 16)[if rows then r else c]
    {
      ThirdLevelCell(s, r, c);
      if rows {
        FlatRowsBands(SecondLevel(s), 16, v, r, c);
      } else {
        FlatColumnsBands(SecondLevel(s), 16, v, r, c);
      }
    }
  }

  /** The row of a coefficient in its level, by its number. */
  lemma BandRows(i: nat, W: nat)
    requires (W == 32 && i < 4096) || (W == 16 && i < 1024) || (W == 8 && i < 256)
    ensures RowOf(i, W) < W <==> (if W == 32 then i < 1024 else if W == 16 then i < 256 else i < 64)
    ensures RowOf(i, W) < 2 * W <==> (if W == 32 then i < 2048 else if W == 16 then i < 512 else i < 128)
    ensures RowOf(i, W) < 3 * W <==> (if W == 32 then i < 3072 else if W == 16 then i < 768 else i < 192)
  {
    hide Row, RowOf, ColOf;
    Split(i, W);
    RowProduct(RowOf(i, W), W);
  }

  /**
   A tile that only changes from row to row has coefficients in LL3 and in the LH bands only, one that only changes from
   column to column in LL3 and in the HL bands only: bands 1, 4 and 7, and 2, 5 and 8 of the quantisation table.
   */
  lemma FlatTile(s: seq<sint16>, v: seq<sint16>, rows: bool, i: nat)
    requires |s| == TILE && Size(32) == TILE && Flat(s, 32, v, rows) && i < TILE
    requires BandOf(i) != 0 && (rows ==> BandOf(i) % 3 != 1) && (!rows ==> BandOf(i) % 3 != 2)
    ensures EncodedTile(s)[i] == 0
  {
    hide EncodedBlock, EncodedTile, SecondLevel, ThirdLevel, LowLine, FlatRows, FlatColumns, Size, Row, RowOf;
    EncodedParts(s);
    SecondFlat(s, v, rows);
    ThirdFlat(s, LowLine(v, 32), rows);
    var e0, e1, e2 := EncodedBlock(s, 32), EncodedBlock(SecondLevel(s), 16), EncodedBlock(ThirdLevel(s), 8);
    if i < 3072 {
      FlatLevel(s, 32, v, rows, i);
      BandRows(i, 32);
      assert EncodedTile(s)[i] == e0[i];
    } else if i < 3840 {
      FlatLevel(SecondLevel(s), 16, LowLine(v, 32), rows, i - 3072);
      BandRows(i - 3072, 16);
      assert EncodedTile(s)[i] == e1[i - 3072];
    } else {
      FlatLevel(ThirdLevel(s), 8, LowLine(LowLine(v, 32), 16), rows, i - 3840);
      BandRows(i - 3840, 8);
      assert EncodedTile(s)[i] == e2[i - 3840];
    }
  }
}

/**
 The two-dimensional transform of a block of 2W x 2W samples. The forward transform runs over columns, giving
 W low rows above W high rows, and then over rows, giving four W x W sub-bands stored in the order
 HL, LH, HH, LL. The inverse runs over rows and then over columns.
 */
module DwtBlock {
  import opened Bits
  import opened Grid
  import opened DwtLine

  function Size(W: nat): nat {
    Row(2 * W, 2 * W)
  }

  predicate Block(b: seq<sint16>, W: nat) {
    W > 0 && |b| == Size(W)
  }

  lemma SizeBands(W: nat)
    ensures Size(W) == Row(4 * W, W)
  {
    RowHalves(2 * W, W);
  }

  /** The cell in row r and column c. */
  function Cell(b: seq<sint16>, W: nat, r: nat, c: nat): sint16
    requires Block(b, W) && r < 2 * W && c < 2 * W
  {
    Inside(r, c, 2 * W, 2 * W);
    b[Row(r, 2 * W) + c]
  }

  function Column(b: seq<sint16>, W: nat, c: nat): (x: seq<sint16>)
    requires Block(b, W) && c < 2 * W
    ensures Line(x, W)
  {
    seq(2 * W, k requires 0 <= k < 2 * W => Cell(b, W, k, c))
  }

  function RowLine(b: seq<sint16>, W: nat, r: nat): (x: seq<sint16>)
    requires Block(b, W) && r < 2 * W
    ensures Line(x, W)
  {
    seq(2 * W, k requires 0 <= k < 2 * W => Cell(b, W, r, k))
  }

  /** W rows of a column, from a given row on. */
  function ColumnPart(b: seq<sint16>, W: nat, first: nat, c: nat): (x: seq<sint16>)
    requires Block(b, W) && c < 2 * W && first + W <= 2 * W
    ensures |x| == W
  {
    seq<sint16>(W, k requires 0 <= k < W => Cell(b, W, first + k, c))
  }

  /** The cell in row r, column n of the four stacked sub-bands. */
  function BandCell(e: seq<sint16>, W: nat, r: nat, n: nat): sint16
    requires Block(e, W) && r < 4 * W && n < W
  {
    SizeBands(W);
    Inside(r, n, W, 4 * W);
    e[Row(r, W) + n]
  }

  lemma BandCellAt(e: seq<sint16>, W: nat, r: nat, n: nat)
    requires Block(e, W) && r < 4 * W && n < W
    ensures Row(r, W) + n < |e| && BandCell(e, W, r, n) == e[Row(r, W) + n]
  {
    SizeBands(W);
    Inside(r, n, W, 4 * W);
  }

  function BandRow(e: seq<sint16>, W: nat, r: nat): (x: seq<sint16>)
    requires Block(e, W) && r < 4 * W
    ensures |x| == W
  {
    seq(W, k requires 0 <= k < W => BandCell(e, W, r, k))
  }

  // ---------- The four passes ----------

  function VertEncodedCell(b: seq<sint16>, W: nat, r: nat, c: nat): sint16
    requires Block(b, W) && r < 2 * W && c < 2 * W
  {
    if r < W then LowPass(Column(b, W, c), W, r) else HighPass(Column(b, W, c), W, r - W)
  }

  function VertEncoded(b: seq<sint16>, W: nat): (d: seq<sint16>)
    requires Block(b, W)
    ensures Block(d, W)
  {
    seq(Size(W), i requires 0 <= i < Size(W) =>
      (RowBound(i, 2 * W, 2 * W); VertEncodedCell(b, W, RowOf(i, 2 * W), ColOf(i, 2 * W))))
  }

  /** Sub-band rows: HL from the low rows, LH and HH from the high rows, LL from the low rows. */
  function HorizEncodedCell(d: seq<sint16>, W: nat, r: nat, n: nat): sint16
    requires Block(d, W) && r < 4 * W && n < W
  {
    if r < W then HighPass(RowLine(d, W, r), W, n)
    else if r < 2 * W then LowPass(RowLine(d, W, r), W, n)
    else if r < 3 * W then HighPass(RowLine(d, W, r - W), W, n)
    else LowPass(RowLine(d, W, r - 3 * W), W, n)
  }

  function HorizEncoded(d: seq<sint16>, W: nat): (e: seq<sint16>)
    requires Block(d, W)
    ensures Block(e, W)
  {
    SizeBands(W);
    seq(Size(W), i requires 0 <= i < Size(W) =>
      (RowBound(i, W, 4 * W); HorizEncodedCell(d, W, RowOf(i, W), ColOf(i, W))))
  }

  function EncodedBlock(b: seq<sint16>, W: nat): (e: seq<sint16>)
    requires Block(b, W)
    ensures Block(e, W)
  {
    HorizEncoded(VertEncoded(b, W), W)
  }

  /** The low-pass half of line r: LL for a low row, LH for a high row. */
  function LowBand(e: seq<sint16>, W: nat, r: nat): (x: seq<sint16>)
    requires Block(e, W) && r < 2 * W
    ensures |x| == W
  {
    if r < W then BandRow(e, W, 3 * W + r) else BandRow(e, W, r)
  }

  /** The high-pass half of line r: HL for a low row, HH for a high row. */
  function HighBand(e: seq<sint16>, W: nat, r: nat): (x: seq<sint16>)
    requires Block(e, W) && r < 2 * W
    ensures |x| == W
  {
    if r < W then BandRow(e, W, r) else BandRow(e, W, W + r)
  }

  function HorizDecodedCell(e: seq<sint16>, W: nat, r: nat, c: nat): sint16
    requires Block(e, W) && r < 2 * W && c < 2 * W
  {
    if c % 2 == 0 then Even(LowBand(e, W, r), HighBand(e, W, r), W, c / 2)
    else Odd(LowBand(e, W, r), HighBand(e, W, r), W, c / 2)
  }

  function HorizDecoded(e: seq<sint16>, W: nat): (d: seq<sint16>)
    requires Block(e, W)
    ensures Block(d, W)
  {
    seq(Size(W), i requires 0 <= i < Size(W) =>
      (RowBound(i, 2 * W, 2 * W); HorizDecodedCell(e, W, RowOf(i, 2 * W), ColOf(i, 2 * W))))
  }

  function VertDecodedCell(d: seq<sint16>, W: nat, r: nat, c: nat): sint16
    requires Block(d, W) && r < 2 * W && c < 2 * W
  {
    if r % 2 == 0 then Even(ColumnPart(d, W, 0, c), ColumnPart(d, W, W, c), W, r / 2)
    else Odd(ColumnPart(d, W, 0, c), ColumnPart(d, W, W, c), W, r / 2)
  }

  function VertDecoded(d: seq<sint16>, W: nat): (b: seq<sint16>)
    requires Block(d, W)
    ensures Block(b, W)
  {
    seq(Size(W), i requires 0 <= i < Size(W) =>
      (RowBound(i, 2 * W, 2 * W); VertDecodedCell(d, W, RowOf(i, 2 * W), ColOf(i, 2 * W))))
  }

  function DecodedBlock(e: seq<sint16>, W: nat): (b: seq<sint16>)
    requires Block(e, W)
    ensures Block(b, W)
  {
    VertDecoded(HorizDecoded(e, W), W)
  }

  // ---------- Cells of the passes ----------

  lemma VertEncodedAt(b: seq<sint16>, W: nat, r: nat, c: nat)
    requires Block(b, W) && r < 2 * W && c < 2 * W
    ensures Cell(VertEncoded(b, W), W, r, c) == VertEncodedCell(b, W, r, c)
  {
    hide VertEncodedCell, Row, RowOf, ColOf;
    Inside(r, c, 2 * W, 2 * W);
    RowOfRow(r, c, 2 * W);
  }

  lemma HorizEncodedAt(d: seq<sint16>, W: nat, r: nat, n: nat)
    requires Block(d, W) && r < 4 * W && n < W
    ensures BandCell(HorizEncoded(d, W), W, r, n) == HorizEncodedCell(d, W, r, n)
  {
    hide HorizEncodedCell, Row, RowOf, ColOf;
    SizeBands(W);
    Inside(r, n, W, 4 * W);
    RowOfRow(r, n, W);
  }

  lemma HorizDecodedAt(e: seq<sint16>, W: nat, r: nat, c: nat)
    requires Block(e, W) && r < 2 * W && c < 2 * W
    ensures Cell(HorizDecoded(e, W), W, r, c) == HorizDecodedCell(e, W, r, c)
  {
    hide HorizDecodedCell, Row, RowOf, ColOf;
    Inside(r, c, 2 * W, 2 * W);
    RowOfRow(r, c, 2 * W);
  }

  lemma VertDecodedAt(d: seq<sint16>, W: nat, r: nat, c: nat)
    requires Block(d, W) && r < 2 * W && c < 2 * W
    ensures Cell(VertDecoded(d, W), W, r, c) == VertDecodedCell(d, W, r, c)
  {
    hide VertDecodedCell, Row, RowOf, ColOf;
    Inside(r, c, 2 * W, 2 * W);
    RowOfRow(r, c, 2 * W);
  }

  /** Every index of a block is a cell. */
  lemma CellOf(b: seq<sint16>, W: nat, i: nat) returns (r: nat, c: nat)
    requires Block(b, W) && i < |b|
    ensures r < 2 * W && c < 2 * W && i == Row(r, 2 * W) + c && b[i] == Cell(b, W, r, c)
  {
    r, c := RowOf(i, 2 * W), ColOf(i, 2 * W);
    RowBound(i, 2 * W, 2 * W);
    Split(i, 2 * W);
  }

  /** Every index of a block lies in one of its rows. */
  lemma RowsCovered(W: nat)
    requires W > 0
    ensures forall i :: 0 <= i < Size(W) ==> RowOf(i, 2 * W) < 2 * W
  {
    hide RowOf, Row;
    forall i | 0 <= i < Size(W)
      ensures RowOf(i, 2 * W) < 2 * W
    {
      RowBound(i, 2 * W, 2 * W);
    }
  }

  /** The stacked sub-band rows that hold the low-pass and the high-pass half of line r. */
  function LowRow(r: nat, W: nat): nat {
    if r < W then 3 * W + r else r
  }

  function HighRow(r: nat, W: nat): nat {
    if r < W then r else W + r
  }

  /** The line a stacked sub-band row belongs to. */
  function LineOf(q: nat, W: nat): nat {
    if q < 2 * W then q else if q < 3 * W then q - W else q - 3 * W
  }

  lemma LinesCovered(W: nat)
    requires W > 0
    ensures forall i :: 0 <= i < Size(W) ==> LineOf(RowOf(i, W), W) < 2 * W
  {
    hide RowOf, Row, Size;
    SizeBands(W);
    forall i | 0 <= i < Size(W)
      ensures LineOf(RowOf(i, W), W) < 2 * W
    {
      RowBound(i, W, 4 * W);
    }
  }

  // ---------- Round trip ----------

  /** The forward transform of a block stores nothing that 16 bits do not hold. */
  predicate EncodeFits(b: seq<sint16>, W: nat)
    requires Block(b, W)
  {
    && (forall c, n :: 0 <= c < 2 * W && 0 <= n < W ==>
          LowPass(Column(b, W, c), W, n) == LowExact(Column(b, W, c), W, n)
          && HighPass(Column(b, W, c), W, n) == HighExact(Column(b, W, c), W, n))
    && (forall r, n :: 0 <= r < 2 * W && 0 <= n < W ==>
          LowPass(RowLine(VertEncoded(b, W), W, r), W, n) == LowExact(RowLine(VertEncoded(b, W), W, r), W, n)
          && HighPass(RowLine(VertEncoded(b, W), W, r), W, n) == HighExact(RowLine(VertEncoded(b, W), W, r), W, n))
  }

  /** Nor does the inverse transform. */
  predicate DecodeFits(e: seq<sint16>, W: nat)
    requires Block(e, W)
  {
    && (forall r, n :: 0 <= r < 2 * W && 0 <= n < W ==>
          Even(LowBand(e, W, r), HighBand(e, W, r), W, n) == EvenExact(LowBand(e, W, r), HighBand(e, W, r), W, n)
          && Odd(LowBand(e, W, r), HighBand(e, W, r), W, n) == OddExact(LowBand(e, W, r), HighBand(e, W, r), W, n))
    && (forall c, n :: 0 <= c < 2 * W && 0 <= n < W ==>
          var d := HorizDecoded(e, W);
          Even(ColumnPart(d, W, 0, c), ColumnPart(d, W, W, c), W, n) == EvenExact(ColumnPart(d, W, 0, c), ColumnPart(d, W, W, c), W, n)
          && Odd(ColumnPart(d, W, 0, c), ColumnPart(d, W, W, c), W, n) == OddExact(ColumnPart(d, W, 0, c), ColumnPart(d, W, W, c), W, n))
  }

  /** Samples that a block transform takes without a wrap, and what its rows then hold at most. */
  const SAMPLE_RANGE := 14000
  const ROW_RANGE := 21001

  lemma ColumnWithin(b: seq<sint16>, W: nat, c: nat, m: nat)
    requires Block(b, W) && c < 2 * W && AllWithin(b, m)
    ensures AllWithin(Column(b, W, c), m)
  {
    hide Row;
    forall k | 0 <= k < 2 * W
      ensures Within(Column(b, W, c)[k], m)
    {
      Inside(k, c, 2 * W, 2 * W);
    }
  }

  /** The vertical pass grows a row by at most one half, and one. */
  lemma RowWithin(b: seq<sint16>, W: nat, r: nat, m: nat)
    requires Block(b, W) && r < 2 * W && AllWithin(b, m) && 3 * m + 2 <= 0xFFFE
    ensures AllWithin(RowLine(VertEncoded(b, W), W, r), (3 * m + 2) / 2)
  {
    hide VertEncoded, Cell, LowPass, HighPass, LowExact, HighExact, Column;
    forall c | 0 <= c < 2 * W
      ensures Within(RowLine(VertEncoded(b, W), W, r)[c], (3 * m + 2) / 2)
    {
      VertEncodedAt(b, W, r, c);
      ColumnWithin(b, W, c, m);
      if r < W {
        LowRange(Column(b, W, c), W, r, m);
      } else {
        HighRange(Column(b, W, c), W, r - W, m);
      }
    }
  }

  lemma EncodeNeverWraps(b: seq<sint16>, W: nat)
    requires Block(b, W) && AllWithin(b, SAMPLE_RANGE)
    ensures EncodeFits(b, W)
  {
    hide VertEncoded, LowPass, HighPass, LowExact, HighExact, Column, RowLine;
    forall c, n | 0 <= c < 2 * W && 0 <= n < W
      ensures LowPass(Column(b, W, c), W, n) == LowExact(Column(b, W, c), W, n)
      ensures HighPass(Column(b, W, c), W, n) == HighExact(Column(b, W, c), W, n)
    {
      ColumnWithin(b, W, c, SAMPLE_RANGE);
      LowRange(Column(b, W, c), W, n, SAMPLE_RANGE);
      HighRange(Column(b, W, c), W, n, SAMPLE_RANGE);
    }
    forall r, n | 0 <= r < 2 * W && 0 <= n < W
      ensures LowPass(RowLine(VertEncoded(b, W), W, r), W, n) == LowExact(RowLine(VertEncoded(b, W), W, r), W, n)
      ensures HighPass(RowLine(VertEncoded(b, W), W, r), W, n) == HighExact(RowLine(VertEncoded(b, W), W, r), W, n)
    {
      RowWithin(b, W, r, SAMPLE_RANGE);
      LowRange(RowLine(VertEncoded(b, W), W, r), W, n, ROW_RANGE);
      HighRange(RowLine(VertEncoded(b, W), W, r), W, n, ROW_RANGE);
    }
  }

  // ---------- Errors ----------

  /** How far the sub-bands of a block may be off: LL by la..lb, the others by at most their own error. */
  datatype BandErrors = BandErrors(la: int, lb: int, hl: int, lh: int, hh: int) {
    // The bands of row r of the horizontal pass: LL and HL in the top half, LH and HH below.

    function LowFrom(top: bool): int {
      if top then la else -lh
    }

    function LowTo(top: bool): int {
      if top then lb else lh
    }

    function Detail(top: bool): int {
      if top then hl else hh
    }

    /** What a row of the horizontal pass is off by after decoding. */
    function RowFrom(top: bool): int {
      LowFrom(top) - 2 * Detail(top) - 2
    }

    function RowTo(top: bool): int {
      LowTo(top) + 2 * Detail(top)
    }

    /** What a sample is off by. */
    function SampleFrom(): int {
      la - 2 * hl - 2 * lh - 4 * hh - 7
    }

    function SampleTo(): int {
      lb + 2 * hl + 2 * lh + 4 * hh + 2
    }

    /** Errors that leave room in 16 bits, in the rows between the two passes and in the samples. */
    predicate Slight() {
      && DwtLine.Slight(ROW_RANGE, la, lb, -hl, hl) && DwtLine.Slight(ROW_RANGE, -lh, lh, -hh, hh)
      && DwtLine.Slight(SAMPLE_RANGE, RowFrom(true), RowTo(true), RowFrom(false), RowTo(false))
    }
  }

  const EXACT := BandErrors(0, 0, 0, 0, 0)

  /** Sub-bands that differ from e by no more than m. */
  predicate BandsNear(e': seq<sint16>, e: seq<sint16>, W: nat, m: BandErrors)
    requires Block(e, W) && Block(e', W)
  {
    forall q, n :: 0 <= q < 4 * W && 0 <= n < W ==> BandNear(BandCell(e', W, q, n), BandCell(e, W, q, n), W, q, m)
  }

  predicate BandNear(v': int, v: int, W: nat, q: nat, m: BandErrors) {
    if q < W then Errs(v', v, -m.hl, m.hl)
    else if q < 2 * W then Errs(v', v, -m.lh, m.lh)
    else if q < 3 * W then Errs(v', v, -m.hh, m.hh)
    else Errs(v', v, m.la, m.lb)
  }

  /** The bands of a row, when the sub-bands differ. */
  lemma RowNear(e: seq<sint16>, d: seq<sint16>, W: nat, r: nat, m: BandErrors)
    requires Block(d, W) && r < 2 * W && AllWithin(RowLine(d, W, r), ROW_RANGE)
    requires Block(e, W) && BandsNear(e, HorizEncoded(d, W), W, m)
    ensures Near(LowBand(e, W, r), HighBand(e, W, r), RowLine(d, W, r), W, m.LowFrom(r < W), m.LowTo(r < W), -m.Detail(r < W), m.Detail(r < W))
  {
    hide HorizEncoded, BandCell, LowPass, HighPass, LowExact, HighExact, RowLine;
    var x := RowLine(d, W, r);
    forall n | 0 <= n < W
      ensures Errs(LowBand(e, W, r)[n], LowExact(x, W, n), m.LowFrom(r < W), m.LowTo(r < W))
      ensures Errs(HighBand(e, W, r)[n], HighExact(x, W, n), -m.Detail(r < W), m.Detail(r < W))
    {
      HorizEncodedAt(d, W, LowRow(r, W), n);
      HorizEncodedAt(d, W, HighRow(r, W), n);
      LowRange(x, W, n, ROW_RANGE);
      HighRange(x, W, n, ROW_RANGE);
    }
  }

  /** The horizontal passes restore a row up to -2..0 and what its bands differ by. */
  lemma RowRoundTrip(e: seq<sint16>, d: seq<sint16>, W: nat, r: nat, c: nat, m: BandErrors)
    requires Block(d, W) && r < 2 * W && c < 2 * W && AllWithin(RowLine(d, W, r), ROW_RANGE) && m.Slight()
    requires Block(e, W) && BandsNear(e, HorizEncoded(d, W), W, m)
    ensures Errs(Cell(HorizDecoded(e, W), W, r, c), Cell(d, W, r, c), m.RowFrom(r < W), m.RowTo(r < W))
    ensures Even(LowBand(e, W, r), HighBand(e, W, r), W, c / 2) == EvenExact(LowBand(e, W, r), HighBand(e, W, r), W, c / 2)
    ensures Odd(LowBand(e, W, r), HighBand(e, W, r), W, c / 2) == OddExact(LowBand(e, W, r), HighBand(e, W, r), W, c / 2)
  {
    hide HorizEncoded, HorizDecoded, Cell, Even, Odd, EvenExact, OddExact, LowBand, HighBand, BandsNear, Near;
    var x := RowLine(d, W, r);
    HorizDecodedAt(e, W, r, c);
    RowNear(e, d, W, r, m);
    DecodeError(LowBand(e, W, r), HighBand(e, W, r), x, W, c / 2, m.LowFrom(r < W), m.LowTo(r < W), -m.Detail(r < W), m.Detail(r < W), ROW_RANGE);
    assert x[c] == Cell(d, W, r, c);
  }

  /** A decoded row value against the column transform it stands for. */
  lemma ColumnNearAt(e: seq<sint16>, b: seq<sint16>, W: nat, r: nat, c: nat, m: BandErrors)
    requires Block(b, W) && r < 2 * W && c < 2 * W && AllWithin(b, SAMPLE_RANGE) && m.Slight()
    requires Block(e, W) && BandsNear(e, EncodedBlock(b, W), W, m)
    ensures r < W ==> Errs(Cell(HorizDecoded(e, W), W, r, c), LowExact(Column(b, W, c), W, r), m.RowFrom(true), m.RowTo(true))
    ensures r >= W ==> Errs(Cell(HorizDecoded(e, W), W, r, c), HighExact(Column(b, W, c), W, r - W), m.RowFrom(false), m.RowTo(false))
  {
    hide HorizEncoded, HorizDecoded, VertEncoded, Cell, LowPass, HighPass, LowExact, HighExact, Column, RowLine, BandsNear;
    RowWithin(b, W, r, SAMPLE_RANGE);
    RowRoundTrip(e, VertEncoded(b, W), W, r, c, m);
    VertEncodedAt(b, W, r, c);
    ColumnWithin(b, W, c, SAMPLE_RANGE);
    if r < W {
      LowRange(Column(b, W, c), W, r, SAMPLE_RANGE);
    } else {
      HighRange(Column(b, W, c), W, r - W, SAMPLE_RANGE);
    }
  }

  lemma ColumnNear(e: seq<sint16>, b: seq<sint16>, W: nat, c: nat, m: BandErrors)
    requires Block(b, W) && c < 2 * W && AllWithin(b, SAMPLE_RANGE) && m.Slight()
    requires Block(e, W) && BandsNear(e, EncodedBlock(b, W), W, m)
    ensures var d := HorizDecoded(e, W);
      Near(ColumnPart(d, W, 0, c), ColumnPart(d, W, W, c), Column(b, W, c), W, m.RowFrom(true), m.RowTo(true), m.RowFrom(false), m.RowTo(false))
  {
    hide EncodedBlock, HorizDecoded, Cell, LowExact, HighExact, Column, Errs, BandsNear;
    var d := HorizDecoded(e, W);
    forall n | 0 <= n < W
      ensures Errs(ColumnPart(d, W, 0, c)[n], LowExact(Column(b, W, c), W, n), m.RowFrom(true), m.RowTo(true))
      ensures Errs(ColumnPart(d, W, W, c)[n], HighExact(Column(b, W, c), W, n), m.RowFrom(false), m.RowTo(false))
    {
      ColumnNearAt(e, b, W, n, c, m);
      ColumnNearAt(e, b, W, W + n, c, m);
    }
  }

  /** Decoding the sub-bands of a block never wraps, even when they are slightly off. */
  lemma DecodeNeverWraps(e: seq<sint16>, b: seq<sint16>, W: nat, m: BandErrors)
    requires Block(b, W) && AllWithin(b, SAMPLE_RANGE) && m.Slight()
    requires Block(e, W) && BandsNear(e, EncodedBlock(b, W), W, m)
    ensures DecodeFits(e, W)
  {
    hide HorizEncoded, HorizDecoded, VertEncoded, Cell, Even, Odd, EvenExact, OddExact, LowBand, HighBand, Column, ColumnPart, Near, BandsNear;
    var d := HorizDecoded(e, W);
    forall r, n | 0 <= r < 2 * W && 0 <= n < W
      ensures Even(LowBand(e, W, r), HighBand(e, W, r), W, n) == EvenExact(LowBand(e, W, r), HighBand(e, W, r), W, n)
      ensures Odd(LowBand(e, W, r), HighBand(e, W, r), W, n) == OddExact(LowBand(e, W, r), HighBand(e, W, r), W, n)
    {
      RowWithin(b, W, r, SAMPLE_RANGE);
      RowRoundTrip(e, VertEncoded(b, W), W, r, 2 * n, m);
    }
    forall c, n | 0 <= c < 2 * W && 0 <= n < W
      ensures Even(ColumnPart(d, W, 0, c), ColumnPart(d, W, W, c), W, n) == EvenExact(ColumnPart(d, W, 0, c), ColumnPart(d, W, W, c), W, n)
      ensures Odd(ColumnPart(d, W, 0, c), ColumnPart(d, W, W, c), W, n) == OddExact(ColumnPart(d, W, 0, c), ColumnPart(d, W, W, c), W, n)
    {
      ColumnError(e, b, W, n, c, m);
    }
  }

  /** The samples of column c at rows 2n and 2n + 1. */
  lemma ColumnError(e: seq<sint16>, b: seq<sint16>, W: nat, n: nat, c: nat, m: BandErrors)
    requires Block(b, W) && n < W && c < 2 * W && AllWithin(b, SAMPLE_RANGE) && m.Slight()
    requires Block(e, W) && BandsNear(e, EncodedBlock(b, W), W, m)
    ensures var d := HorizDecoded(e, W);
      var l, h := ColumnPart(d, W, 0, c), ColumnPart(d, W, W, c);
      && Even(l, h, W, n) == EvenExact(l, h, W, n) && Odd(l, h, W, n) == OddExact(l, h, W, n)
      && Errs(Even(l, h, W, n), Column(b, W, c)[2 * n], m.SampleFrom(), m.SampleTo())
      && Errs(Odd(l, h, W, n), Column(b, W, c)[2 * n + 1], m.SampleFrom(), m.SampleTo())
  {
    hide EncodedBlock, HorizDecoded, Cell, Even, Odd, EvenExact, OddExact, Column, ColumnPart, Near, BandsNear;
    var d := HorizDecoded(e, W);
    ColumnNear(e, b, W, c, m);
    ColumnWithin(b, W, c, SAMPLE_RANGE);
    DecodeError(ColumnPart(d, W, 0, c), ColumnPart(d, W, W, c), Column(b, W, c), W, n,
                m.RowFrom(true), m.RowTo(true), m.RowFrom(false), m.RowTo(false), SAMPLE_RANGE);
  }

  /**
   Decoding sub-bands that are off by la..lb in LL and by hl, lh and hh elsewhere returns every sample of the block
   within la-2hl-2lh-4hh-7..lb+2hl+2lh+4hh+2, for samples within 14000.
   */
  lemma DecodeNear(e: seq<sint16>, b: seq<sint16>, W: nat, m: BandErrors, i: nat)
    requires Block(b, W) && AllWithin(b, SAMPLE_RANGE) && i < |b| && m.Slight()
    requires Block(e, W) && BandsNear(e, EncodedBlock(b, W), W, m)
    ensures Errs(DecodedBlock(e, W)[i], b[i], m.la - 2 * m.hl - 2 * m.lh - 4 * m.hh - 7, m.lb + 2 * m.hl + 2 * m.lh + 4 * m.hh + 2)
  {
    hide EncodedBlock, HorizDecoded, VertDecoded, Cell, Even, Odd, Column, ColumnPart, BandsNear;
    var r, c := CellOf(b, W, i);
    var d := HorizDecoded(e, W);
    var r', c' := CellOf(VertDecoded(d, W), W, i);
    RowOfRow(r, c, 2 * W);
    RowOfRow(r', c', 2 * W);
    VertDecodedAt(d, W, r, c);
    ColumnError(e, b, W, r / 2, c, m);
    ColumnAt(b, W, r, c);
  }

  lemma BandsNearSelf(e: seq<sint16>, W: nat)
    requires Block(e, W)
    ensures BandsNear(e, e, W, EXACT)
  {
    hide BandCell;
  }

  lemma ExactSlight()
    ensures EXACT.Slight()
  {
  }

  /** Encoding and decoding a block of samples within 14000 returns every sample within -7..+2, and nothing wraps. */
  lemma BlockRoundTrip(b: seq<sint16>, W: nat, i: nat)
    requires Block(b, W) && AllWithin(b, SAMPLE_RANGE) && i < |b|
    ensures EncodeFits(b, W) && DecodeFits(EncodedBlock(b, W), W)
    ensures Errs(DecodedBlock(EncodedBlock(b, W), W)[i], b[i], -7, 2)
  {
    hide EncodedBlock, DecodedBlock, EncodeFits, DecodeFits, BandsNear, Row, AllWithin;
    var e := EncodedBlock(b, W);
    BandsNearSelf(e, W);
    ExactSlight();
    EncodeNeverWraps(b, W);
    DecodeNeverWraps(e, b, W, EXACT);
    DecodeNear(e, b, W, EXACT, i);
  }

  lemma ColumnAt(b: seq<sint16>, W: nat, r: nat, c: nat)
    requires Block(b, W) && r < 2 * W && c < 2 * W
    ensures Column(b, W, c)[r] == Cell(b, W, r, c)
  {
  }

  // ---------- Re-encoding a decoded block ----------

  /** Without overflow a row of the horizontally decoded block is the exact decoding of its bands. */
  lemma RowDecoded(e: seq<sint16>, W: nat, r: nat)
    requires Block(e, W) && r < 2 * W && DecodeFits(e, W)
    ensures Decoded(RowLine(HorizDecoded(e, W), W, r), LowBand(e, W, r), HighBand(e, W, r), W)
  {
    hide HorizDecoded, Cell, Even, Odd, EvenExact, OddExact, LowBand, HighBand;
    forall n | 0 <= n < W
      ensures RowLine(HorizDecoded(e, W), W, r)[2 * n] == EvenExact(LowBand(e, W, r), HighBand(e, W, r), W, n)
      ensures RowLine(HorizDecoded(e, W), W, r)[2 * n + 1] == OddExact(LowBand(e, W, r), HighBand(e, W, r), W, n)
    {
      HorizDecodedAt(e, W, r, 2 * n);
      HorizDecodedAt(e, W, r, 2 * n + 1);
    }
  }

  lemma ColumnDecoded(e: seq<sint16>, W: nat, c: nat)
    requires Block(e, W) && c < 2 * W && DecodeFits(e, W)
    ensures var d := HorizDecoded(e, W);
      Decoded(Column(DecodedBlock(e, W), W, c), ColumnPart(d, W, 0, c), ColumnPart(d, W, W, c), W)
  {
    hide HorizDecoded, VertDecoded, Cell, Even, Odd, EvenExact, OddExact, ColumnPart, LowBand, HighBand;
    var d := HorizDecoded(e, W);
    forall n | 0 <= n < W
      ensures Column(DecodedBlock(e, W), W, c)[2 * n] == EvenExact(ColumnPart(d, W, 0, c), ColumnPart(d, W, W, c), W, n)
      ensures Column(DecodedBlock(e, W), W, c)[2 * n + 1] == OddExact(ColumnPart(d, W, 0, c), ColumnPart(d, W, W, c), W, n)
    {
      VertDecodedAt(d, W, 2 * n, c);
      VertDecodedAt(d, W, 2 * n + 1, c);
    }
  }

  /** The vertical passes restore the high rows exactly and the low rows up to -1..0. */
  lemma ReencodeColumns(e: seq<sint16>, W: nat, r: nat, c: nat)
    requires Block(e, W) && r < 2 * W && c < 2 * W && DecodeFits(e, W) && EncodeFits(DecodedBlock(e, W), W)
    ensures var d, m := HorizDecoded(e, W), VertEncoded(DecodedBlock(e, W), W);
      && (r >= W ==> Cell(m, W, r, c) == Cell(d, W, r, c))
      && (r < W ==> Errs(Cell(m, W, r, c), Cell(d, W, r, c), -1, 0))
  {
    hide HorizDecoded, VertEncoded, DecodedBlock, Cell, LowExact, HighExact, LowPass, HighPass, Column, RowLine, DecodeFits, Decoded;
    var d, b := HorizDecoded(e, W), DecodedBlock(e, W);
    VertEncodedAt(b, W, r, c);
    ColumnDecoded(e, W, c);
    ReencodeLine(Column(b, W, c), ColumnPart(d, W, 0, c), ColumnPart(d, W, W, c), W, if r < W then r else r - W);
  }

  /**
   Without overflow, encoding a decoded block restores the HH sub-band exactly, LH and HL up to -1..0 and LL
   up to -3..0.
   */
  lemma ReencodeBlock(e: seq<sint16>, W: nat, r: nat, n: nat)
    requires Block(e, W) && r < 4 * W && n < W && DecodeFits(e, W) && EncodeFits(DecodedBlock(e, W), W)
    ensures Errs(BandCell(EncodedBlock(DecodedBlock(e, W), W), W, r, n), BandCell(e, W, r, n),
                 if r < 2 * W then -1 else if r < 3 * W then 0 else -3, 0)
  {
    hide DecodedBlock, VertEncoded, HorizEncoded, HorizDecoded, BandCell, RowLine, LowPass, HighPass, LowExact, HighExact, Column, DecodeFits, Decoded;
    var m := VertEncoded(DecodedBlock(e, W), W);
    HorizEncodedAt(m, W, r, n);
    var y := if r < 2 * W then r else if r < 3 * W then r - W else r - 3 * W;
    RowDecoded(e, W, y);
    ReencodeRow(e, W, y, n);
  }

  /** The row behind a sub-band row, re-encoded. */
  lemma ReencodeRow(e: seq<sint16>, W: nat, y: nat, n: nat)
    requires Block(e, W) && y < 2 * W && n < W && DecodeFits(e, W) && EncodeFits(DecodedBlock(e, W), W)
    ensures var x := RowLine(VertEncoded(DecodedBlock(e, W), W), W, y);
      var l, h := LowBand(e, W, y), HighBand(e, W, y);
      && (y >= W ==> HighPass(x, W, n) == h[n] && Errs(LowPass(x, W, n), l[n], -1, 0))
      && (y < W ==> Errs(HighPass(x, W, n), h[n], -1, 0) && Errs(LowPass(x, W, n), l[n], -3, 0))
  {
    hide DecodedBlock, VertEncoded, HorizDecoded, Cell, LowPass, HighPass, LowExact, HighExact, Column, LowBand, HighBand, DecodeFits;
    var d, m := HorizDecoded(e, W), VertEncoded(DecodedBlock(e, W), W);
    var x, z := RowLine(m, W, y), RowLine(d, W, y);
    RowDecoded(e, W, y);
    forall c | 0 <= c < 2 * W
      ensures (y >= W ==> x[c] == z[c]) && (y < W ==> Errs(x[c], z[c], -1, 0))
    {
      ReencodeColumns(e, W, y, c);
    }
    if y >= W {
      assert x == z;
      ReencodeLine(x, LowBand(e, W, y), HighBand(e, W, y), W, n);
    } else {
      ReencodeShort(x, z, LowBand(e, W, y), HighBand(e, W, y), W, n);
    }
  }
}

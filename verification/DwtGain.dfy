/**
 How far the low-pass coefficients of the wavelet grow. Up to rounding, a low-pass value is one eighth of the taps
 -1, 2, 6, 2, -1 over the line, mirrored at its ends, so one pass grows a line by at most 12/8. Two passes in a row
 grow it by 13/8 only: their taps over the line add up to 104/64. The rounding of each pass is carried as an error.
 */
module DwtGain {
  import opened Bits
  import opened DwtLine
  import opened DwtBlock

  function Taps(a: int, b: int, c: int, d: int, e: int): int {
    -a + 2 * b + 6 * c + 2 * d - e
  }

  /** The two samples before the middle of low-pass value n, mirrored at the start. */
  function Second(n: nat, W: nat): nat {
    if n > 0 then 2 * n - 2 else 2 * Next(0, W)
  }

  function First(n: nat): nat {
    if n > 0 then 2 * n - 1 else 1
  }

  /** Eight times low-pass value n of a line of 2W samples, without rounding. */
  function Tap(x: nat -> int, W: nat, n: nat): int {
    Taps(x(Second(n, W)), x(First(n)), x(2 * n), x(2 * n + 1), x(2 * Next(n, W)))
  }

  // ---------- One line ----------

  lemma LowTaps(p0: int, q0: int, p1: int, q1: int, p2: int)
    ensures Errs(8 * LowValue(p1, HighValue(p0, q0, p1), HighValue(p1, q1, p2)), Taps(p0, q0, p1, q1, p2), -8, 2)
  {
  }

  lemma LowEdgeTaps(p1: int, q1: int, p2: int)
    ensures Errs(8 * LowValue(p1, HighValue(p1, q1, p2), HighValue(p1, q1, p2)), Taps(p2, q1, p1, q1, p2), -8, 2)
  {
  }

  /** A low-pass value against its taps. */
  lemma LowPassTap(x: seq<sint16>, W: nat, n: nat, b: nat, y: nat -> int)
    requires Line(x, W) && n < W && AllWithin(x, b) && 3 * b + 2 <= 0xFFFE
    requires forall i :: 0 <= i < 2 * W ==> y(i) == x[i]
    ensures Errs(8 * LowPass(x, W, n), Tap(y, W, n), -8, 2)
  {
    hide LowValue, HighValue, Taps, LowPass, Wrap16;
    LowRange(x, W, n, b);
    HighRange(x, W, n, b);
    HighRange(x, W, Prev(n), b);
    if n > 0 {
      LowTaps(x[2 * n - 2], x[2 * n - 1], x[2 * n], x[2 * n + 1], x[2 * Next(n, W)]);
    } else {
      LowEdgeTaps(x[0], x[1], x[2 * Next(0, W)]);
    }
  }

  /** Taps over values that are off by lo..hi. */
  lemma TapNear(u: nat -> int, v: nat -> int, W: nat, n: nat, lo: int, hi: int)
    requires n < W && forall i :: 0 <= i < 2 * W ==> Errs(u(i), v(i), lo, hi)
    ensures Errs(Tap(u, W, n), Tap(v, W, n), 10 * lo - 2 * hi, 10 * hi - 2 * lo)
  {
    var s, t, e := Second(n, W), First(n), 2 * Next(n, W);
    assert Errs(u(s), v(s), lo, hi) && Errs(u(t), v(t), lo, hi) && Errs(u(e), v(e), lo, hi);
    assert Errs(u(2 * n), v(2 * n), lo, hi) && Errs(u(2 * n + 1), v(2 * n + 1), lo, hi);
  }

  lemma TwoTapsInner(x0: int, x1: int, x2: int, x3: int, x4: int, x5: int, x6: int, x7: int, x8: int, x9: int, x10: int,
                     x11: int, x12: int, b: int)
    requires Within(x0, b) && Within(x1, b) && Within(x2, b) && Within(x3, b) && Within(x4, b) && Within(x5, b) && Within(x6, b)
    requires Within(x7, b) && Within(x8, b) && Within(x9, b) && Within(x10, b) && Within(x11, b) && Within(x12, b)
    ensures Within(Taps(Taps(x0, x1, x2, x3, x4), Taps(x2, x3, x4, x5, x6), Taps(x4, x5, x6, x7, x8), Taps(x6, x7, x8, x9, x10),
                        Taps(x8, x9, x10, x11, x12)), 104 * b)
  {
  }

  lemma TwoTapsLast(x0: int, x1: int, x2: int, x3: int, x4: int, x5: int, x6: int, x7: int, x8: int, x9: int, b: int)
    requires Within(x0, b) && Within(x1, b) && Within(x2, b) && Within(x3, b) && Within(x4, b)
    requires Within(x5, b) && Within(x6, b) && Within(x7, b) && Within(x8, b) && Within(x9, b)
    ensures var t := Taps(x4, x5, x6, x7, x8);
      Within(Taps(Taps(x0, x1, x2, x3, x4), Taps(x2, x3, x4, x5, x6), t, Taps(x6, x7, x8, x9, x8), t), 104 * b)
  {
  }

  lemma TwoTapsFirst(x0: int, x1: int, x2: int, x3: int, x4: int, x5: int, x6: int, b: int)
    requires Within(x0, b) && Within(x1, b) && Within(x2, b) && Within(x3, b) && Within(x4, b) && Within(x5, b) && Within(x6, b)
    ensures var t, u := Taps(x0, x1, x2, x3, x4), Taps(x2, x3, x4, x5, x6);
      Within(Taps(u, t, Taps(x2, x1, x0, x1, x2), t, u), 104 * b)
  {
  }

  /** The line that one pass of taps makes of x. */
  function Tapped(x: nat -> int, W: nat): nat -> int {
    (n: nat) => Tap(x, W, n)
  }

  /** The taps of two passes in a row, away from the ends of the line. */
  lemma TwoTapsMiddle(x: nat -> int, W: nat, n: nat, b: int)
    requires 0 < n < W - 1 && forall i :: 0 <= i < 4 * W ==> Within(x(i), b)
    ensures Within(Tap(Tapped(x, 2 * W), W, n), 104 * b)
  {
    hide Within, Taps;
    var m := 4 * n;
    var x0, x1 := if n > 1 then x(m - 6) else x(2), if n > 1 then x(m - 5) else x(1);
    TwoTapsInner(x0, x1, x(m - 4), x(m - 3), x(m - 2), x(m - 1), x(m), x(m + 1), x(m + 2), x(m + 3), x(m + 4), x(m + 5), x(m + 6), b);
  }

  lemma TwoTapsEnd(x: nat -> int, W: nat, n: nat, b: int)
    requires 0 < n == W - 1 && forall i :: 0 <= i < 4 * W ==> Within(x(i), b)
    ensures Within(Tap(Tapped(x, 2 * W), W, n), 104 * b)
  {
    hide Within, Taps;
    var m := 4 * n;
    var x0, x1 := if n > 1 then x(m - 6) else x(2), if n > 1 then x(m - 5) else x(1);
    TwoTapsLast(x0, x1, x(m - 4), x(m - 3), x(m - 2), x(m - 1), x(m), x(m + 1), x(m + 2), x(m + 3), b);
  }

  /** The taps of two passes in a row grow a line to at most 104 times. */
  lemma TwoTaps(x: nat -> int, W: nat, n: nat, b: int)
    requires n < W && W >= 2 && forall i :: 0 <= i < 4 * W ==> Within(x(i), b)
    ensures Within(Tap(Tapped(x, 2 * W), W, n), 104 * b)
  {
    hide Within, Taps;
    if n == W - 1 {
      TwoTapsEnd(x, W, n, b);
    } else if n > 0 {
      TwoTapsMiddle(x, W, n, b);
    } else {
      TwoTapsFirst(x(0), x(1), x(2), x(3), x(4), x(5), x(6), b);
    }
  }

  // ---------- Planes ----------

  /** A block of values by row and column. */
  type Plane = (nat, nat) -> int

  function Down(p: Plane, W: nat): Plane {
    (r: nat, c: nat) => Tap((i: nat) => p(i, c), W, r)
  }

  function Across(p: Plane, W: nat): Plane {
    (r: nat, c: nat) => Tap((i: nat) => p(r, i), W, c)
  }

  /** Vertical and horizontal taps may change places. */
  lemma Commute(p: Plane, W: nat, V: nat, r: nat, c: nat)
    ensures Across(Down(p, W), V)(r, c) == Down(Across(p, V), W)(r, c)
  {
  }

  lemma DownLine(p: Plane, W: nat, r: nat, c: nat, x: nat -> int)
    requires forall i: nat :: x(i) == p(i, c)
    ensures Down(p, W)(r, c) == Tap(x, W, r)
  {
  }

  lemma AcrossLine(p: Plane, W: nat, r: nat, c: nat, x: nat -> int)
    requires forall j: nat :: x(j) == p(r, j)
    ensures Across(p, W)(r, c) == Tap(x, W, c)
  {
  }

  /** Two vertical passes. */
  lemma TwoDown(p: Plane, W: nat, r: nat, c: nat, b: int)
    requires r < W && W >= 2 && forall i: nat :: i < 4 * W ==> Within(p(i, c), b)
    ensures Within(Down(Down(p, 2 * W), W)(r, c), 104 * b)
  {
    hide Within, Tap, Down;
    var x := (i: nat) => p(i, c);
    TwoTaps(x, W, r, b);
    forall i: nat
      ensures Tapped(x, 2 * W)(i) == Down(p, 2 * W)(i, c)
    {
      DownLine(p, 2 * W, i, c, x);
    }
    DownLine(Down(p, 2 * W), W, r, c, Tapped(x, 2 * W));
  }

  lemma TwoAcross(p: Plane, W: nat, r: nat, c: nat, b: int)
    requires c < W && W >= 2 && forall j: nat :: j < 4 * W ==> Within(p(r, j), b)
    ensures Within(Across(Across(p, 2 * W), W)(r, c), 104 * b)
  {
    hide Within, Tap, Across;
    var x := (j: nat) => p(r, j);
    TwoTaps(x, W, c, b);
    forall j: nat
      ensures Tapped(x, 2 * W)(j) == Across(p, 2 * W)(r, j)
    {
      AcrossLine(p, 2 * W, r, j, x);
    }
    AcrossLine(Across(p, 2 * W), W, r, c, Tapped(x, 2 * W));
  }

  /** The taps of two levels: the inner two passes change places, then each direction takes two in a row. */
  lemma TwoLevels(p: Plane, W: nat, r: nat, c: nat, b: int)
    requires r < W && c < W && W >= 2 && forall i: nat, j: nat :: i < 4 * W && j < 4 * W ==> Within(p(i, j), b)
    ensures Within(Across(Down(Across(Down(p, 2 * W), 2 * W), W), W)(r, c), 10816 * b)
  {
    hide Within, Tap, Down, Across;
    var d := Down(Down(p, 2 * W), W);
    forall j: nat | j < 4 * W
      ensures Within(d(r, j), 104 * b)
    {
      TwoDown(p, W, r, j, b);
    }
    TwoAcross(d, W, r, c, 104 * b);
    var m := Down(Across(Down(p, 2 * W), 2 * W), W);
    forall j: nat
      ensures m(r, j) == Across(d, 2 * W)(r, j)
    {
      Commute(Down(p, 2 * W), W, 2 * W, r, j);
    }
    var x := (j: nat) => m(r, j);
    AcrossLine(m, W, r, c, x);
    AcrossLine(Across(d, 2 * W), W, r, c, x);
    assert 104 * (104 * b) == 10816 * b;
  }

  // ---------- One level ----------

  /** k times the cells of the block differ from p by lo..hi. */
  predicate PlaneNear(b: seq<sint16>, W: nat, k: int, p: Plane, lo: int, hi: int)
    requires Block(b, W)
  {
    forall i: nat, j: nat :: i < 2 * W && j < 2 * W ==> Errs(k * Cell(b, W, i, j), p(i, j), lo, hi)
  }

  predicate Scale(k: int) {
    k == 1 || k == 8 || k == 64 || k == 512
  }

  lemma TapScaled(u: nat -> int, y: nat -> int, k: int, W: nat, n: nat)
    requires Scale(k) && forall i: nat :: u(i) == k * y(i)
    ensures Tap(u, W, n) == k * Tap(y, W, n)
  {
  }

  /** A low-pass value of a line that is known up to lo..hi at scale k. */
  lemma LineNear(x: seq<sint16>, W: nat, n: nat, b: nat, k: int, t: nat -> int, lo: int, hi: int)
    requires Line(x, W) && n < W && AllWithin(x, b) && 3 * b + 2 <= 0xFFFE && Scale(k)
    requires forall i :: 0 <= i < 2 * W ==> Errs(k * x[i], t(i), lo, hi)
    ensures Errs(8 * k * LowPass(x, W, n), Tap(t, W, n), 10 * lo - 2 * hi - 8 * k, 10 * hi - 2 * lo + 2 * k)
  {
    hide Tap, LowPass;
    var y := (i: nat) => if i < |x| then x[i] else 0;
    var u := (i: nat) => k * y(i);
    LowPassTap(x, W, n, b, y);
    TapScaled(u, y, k, W, n);
    TapNear(u, t, W, n, lo, hi);
    ScaledNear(k, LowPass(x, W, n), Tap(y, W, n));
  }

  lemma ScaledNear(k: int, u: int, v: int)
    requires Scale(k) && Errs(8 * u, v, -8, 2)
    ensures Errs(8 * k * u, k * v, -8 * k, 2 * k)
  {
  }

  /** A row of the vertical pass, at scale 8k. */
  lemma RowKnown(b: seq<sint16>, W: nat, k: int, p: Plane, lo: int, hi: int, r: nat, c: nat)
    requires Block(b, W) && AllWithin(b, SAMPLE_RANGE) && Scale(k) && PlaneNear(b, W, k, p, lo, hi) && r < W && c < 2 * W
    ensures Errs(8 * k * RowLine(VertEncoded(b, W), W, r)[c], Down(p, W)(r, c), 10 * lo - 2 * hi - 8 * k, 10 * hi - 2 * lo + 2 * k)
  {
    hide VertEncoded, Cell, LowPass, Tap, Down;
    VertEncodedAt(b, W, r, c);
    ColumnWithin(b, W, c, SAMPLE_RANGE);
    var x, t := Column(b, W, c), (i: nat) => p(i, c);
    forall i | 0 <= i < 2 * W
      ensures Errs(k * x[i], t(i), lo, hi)
    {
      ColumnAt(b, W, i, c);
    }
    LineNear(x, W, r, SAMPLE_RANGE, k, t, lo, hi);
    DownLine(p, W, r, c, t);
    assert RowLine(VertEncoded(b, W), W, r)[c] == LowPass(x, W, r);
  }

  /** The LL sub-band of one level, at scale 64k. */
  lemma LowLowKnown(b: seq<sint16>, W: nat, k: int, p: Plane, lo: int, hi: int, r: nat, n: nat)
    requires Block(b, W) && AllWithin(b, SAMPLE_RANGE) && (k == 1 || k == 64) && PlaneNear(b, W, k, p, lo, hi) && r < W && n < W
    ensures Errs(64 * k * BandCell(EncodedBlock(b, W), W, 3 * W + r, n), Across(Down(p, W), W)(r, n),
                 104 * lo - 40 * hi - 148 * k, 104 * hi - 40 * lo + 52 * k)
  {
    hide VertEncoded, HorizEncoded, BandCell, RowLine, LowPass, Tap, Errs, Down, Across, PlaneNear;
    var d := VertEncoded(b, W);
    HorizEncodedAt(d, W, 3 * W + r, n);
    RowWithin(b, W, r, SAMPLE_RANGE);
    var x, t := RowLine(d, W, r), (j: nat) => Down(p, W)(r, j);
    var lo1, hi1 := 10 * lo - 2 * hi - 8 * k, 10 * hi - 2 * lo + 2 * k;
    forall j | 0 <= j < 2 * W
      ensures Errs(8 * k * x[j], t(j), lo1, hi1)
    {
      RowKnown(b, W, k, p, lo, hi, r, j);
    }
    LineNear(x, W, n, ROW_RANGE, 8 * k, t, lo1, hi1);
    AcrossLine(Down(p, W), W, r, n, t);
  }
}

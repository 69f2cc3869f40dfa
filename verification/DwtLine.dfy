/**
 The 5/3 lifting wavelet of RemoteFX on one line of 2W samples: W low-pass and W high-pass coefficients, with
 the neighbours mirrored at both ends. A store into a 16-bit variable wraps; sums are plain C integers, and >> 1
 rounds down.
 */
module DwtLine {
  import opened Bits

  predicate Line(x: seq<sint16>, W: nat) {
    W > 0 && |x| == 2 * W
  }

  function Next(n: nat, W: nat): nat {
    if n < W - 1 then n + 1 else n
  }

  function Prev(n: nat): nat {
    if n > 0 then n - 1 else 0
  }

  // ---------- Forward transform ----------

  function HighValue(p: int, q: int, r: int): int {
    (q - (p + r) / 2) / 2
  }

  function LowValue(p: int, hm: int, h: int): int {
    p + (hm + h) / 2
  }

  function HighExact(x: seq<sint16>, W: nat, n: nat): int
    requires Line(x, W) && n < W
  {
    HighValue(x[2 * n], x[2 * n + 1], x[2 * Next(n, W)])
  }

  function HighPass(x: seq<sint16>, W: nat, n: nat): sint16
    requires Line(x, W) && n < W
  {
    Wrap16(HighExact(x, W, n))
  }

  function LowExact(x: seq<sint16>, W: nat, n: nat): int
    requires Line(x, W) && n < W
  {
    LowValue(x[2 * n], HighPass(x, W, Prev(n)), HighPass(x, W, n))
  }

  function LowPass(x: seq<sint16>, W: nat, n: nat): sint16
    requires Line(x, W) && n < W
  {
    Wrap16(LowExact(x, W, n))
  }

  lemma ForwardValues(x: seq<sint16>, W: nat, n: nat)
    requires Line(x, W) && n < W
    ensures HighPass(x, W, n) == Wrap16(HighValue(x[2 * n], x[2 * n + 1], x[2 * Next(n, W)]))
    ensures LowPass(x, W, n) == Wrap16(LowValue(x[2 * n], HighPass(x, W, Prev(n)), HighPass(x, W, n)))
  {
  }

  // ---------- Inverse transform ----------

  predicate Bands(l: seq<sint16>, h: seq<sint16>, W: nat) {
    W > 0 && |l| == |h| == W
  }

  function EvenValue(l: int, hm: int, h: int): int {
    l - (hm + h + 1) / 2
  }

  function OddValue(h: int, e: int, en: int): int {
    2 * h + (e + en) / 2
  }

  function EvenExact(l: seq<sint16>, h: seq<sint16>, W: nat, n: nat): int
    requires Bands(l, h, W) && n < W
  {
    EvenValue(l[n], h[Prev(n)], h[n])
  }

  function Even(l: seq<sint16>, h: seq<sint16>, W: nat, n: nat): sint16
    requires Bands(l, h, W) && n < W
  {
    Wrap16(EvenExact(l, h, W, n))
  }

  function OddExact(l: seq<sint16>, h: seq<sint16>, W: nat, n: nat): int
    requires Bands(l, h, W) && n < W
  {
    OddValue(h[n], Even(l, h, W, n), Even(l, h, W, Next(n, W)))
  }

  function Odd(l: seq<sint16>, h: seq<sint16>, W: nat, n: nat): sint16
    requires Bands(l, h, W) && n < W
  {
    Wrap16(OddExact(l, h, W, n))
  }

  lemma InverseValues(l: seq<sint16>, h: seq<sint16>, W: nat, n: nat)
    requires Bands(l, h, W) && n < W
    ensures Even(l, h, W, n) == Wrap16(EvenValue(l[n], h[Prev(n)], h[n]))
    ensures Odd(l, h, W, n) == Wrap16(OddValue(h[n], Even(l, h, W, n), Even(l, h, W, Next(n, W))))
  {
  }

  // ---------- Ranges ----------

  predicate Within(v: int, b: int) {
    -b <= v <= b
  }

  /** v differs from x by lo at least and hi at most. */
  predicate Errs(v: int, x: int, lo: int, hi: int) {
    lo <= v - x <= hi
  }

  predicate AllWithin(x: seq<sint16>, b: nat) {
    forall i :: 0 <= i < |x| ==> Within(x[i], b)
  }

  lemma WrapInRange(v: int)
    requires Within(v, 0x7FFF)
    ensures Wrap16(v) == v
  {
  }

  /** The high-pass filter does not grow a line. */
  lemma HighRange(x: seq<sint16>, W: nat, n: nat, b: nat)
    requires Line(x, W) && n < W && AllWithin(x, b) && b <= 0x7FFF
    ensures Within(HighExact(x, W, n), b) && HighPass(x, W, n) == HighExact(x, W, n)
  {
    assert Within(x[2 * n], b) && Within(x[2 * n + 1], b) && Within(x[2 * Next(n, W)], b);
  }

  lemma LowValueRange(p0: int, q0: int, p1: int, q1: int, p2: int, b: nat)
    requires Within(p0, b) && Within(q0, b) && Within(p1, b) && Within(q1, b) && Within(p2, b)
    ensures 2 * LowValue(p1, HighValue(p0, q0, p1), HighValue(p1, q1, p2)) <= 3 * b + 2
    ensures 2 * LowValue(p1, HighValue(p0, q0, p1), HighValue(p1, q1, p2)) >= -3 * b - 2
  {
  }

  lemma LowEdgeRange(p1: int, q1: int, p2: int, b: nat)
    requires Within(p1, b) && Within(q1, b) && Within(p2, b)
    ensures 2 * LowValue(p1, HighValue(p1, q1, p2), HighValue(p1, q1, p2)) <= 3 * b + 2
    ensures 2 * LowValue(p1, HighValue(p1, q1, p2), HighValue(p1, q1, p2)) >= -3 * b - 2
  {
  }

  /** The low-pass filter grows a line by at most one half, and one. */
  lemma LowRange(x: seq<sint16>, W: nat, n: nat, b: nat)
    requires Line(x, W) && n < W && AllWithin(x, b) && 3 * b + 2 <= 0xFFFE
    ensures Within(2 * LowExact(x, W, n), 3 * b + 2) && LowPass(x, W, n) == LowExact(x, W, n)
  {
    HighRange(x, W, n, b);
    HighRange(x, W, Prev(n), b);
    if n > 0 {
      assert Next(n - 1, W) == n;
      LowValueRange(x[2 * n - 2], x[2 * n - 1], x[2 * n], x[2 * n + 1], x[2 * Next(n, W)], b);
    } else {
      LowEdgeRange(x[0], x[1], x[2 * Next(0, W)], b);
    }
  }

  // ---------- Decoding an encoded line ----------

  /** Coefficients that differ from a line's own: the low-pass ones by la..lb, the high-pass ones by ha..hb. */
  predicate Near(l: seq<sint16>, h: seq<sint16>, x: seq<sint16>, W: nat, la: int, lb: int, ha: int, hb: int)
    requires Line(x, W)
  {
    && Bands(l, h, W)
    && (forall n :: 0 <= n < W ==> Errs(l[n], LowExact(x, W, n), la, lb))
    && (forall n :: 0 <= n < W ==> Errs(h[n], HighExact(x, W, n), ha, hb))
  }

  /** Errors small enough for samples within b to stay in 16 bits. */
  predicate Slight(b: int, la: int, lb: int, ha: int, hb: int) {
    && la <= 0 <= lb && ha <= 0 <= hb
    && b + 1 - la + hb <= 0x7FFF && b + lb - ha <= 0x7FFF
    && 2 * b + 5 - 2 * la - 3 * ha + hb <= 0xFFFE && 2 * b + 1 + 2 * lb + 3 * hb - ha <= 0xFFFE
  }

  lemma EvenError(p: int, hm: int, h: int, l': int, hm': int, h': int, la: int, lb: int, ha: int, hb: int)
    requires Errs(l', LowValue(p, hm, h), la, lb) && Errs(hm', hm, ha, hb) && Errs(h', h, ha, hb)
    ensures Errs(EvenValue(l', hm', h'), p, -1 + la - hb, lb - ha)
  {
  }

  /** Twice the error of an odd sample: its own high-pass value counts 3/2 in it, each neighbour's -1/4. */
  predicate OddErrs(v: int, q: int, la: int, lb: int, ha: int, hb: int) {
    Errs(2 * v, 2 * q, 2 * la + 3 * ha - hb - 5, 2 * lb + 3 * hb - ha + 1)
  }

  lemma OddError(p: int, q: int, r: int, hm: int, hn: int, l': int, ln': int, hm': int, h': int, hn': int,
                 la: int, lb: int, ha: int, hb: int)
    requires ha <= 0 <= hb
    requires Errs(l', LowValue(p, hm, HighValue(p, q, r)), la, lb) && Errs(ln', LowValue(r, HighValue(p, q, r), hn), la, lb)
    requires Errs(hm', hm, ha, hb) && Errs(h', HighValue(p, q, r), ha, hb) && Errs(hn', hn, ha, hb)
    ensures OddErrs(OddValue(h', EvenValue(l', hm', h'), EvenValue(ln', h', hn')), q, la, lb, ha, hb)
  {
  }

  lemma LastOddError(p: int, q: int, hm: int, l': int, hm': int, h': int, la: int, lb: int, ha: int, hb: int)
    requires ha <= 0 <= hb
    requires Errs(l', LowValue(p, hm, HighValue(p, q, p)), la, lb) && Errs(hm', hm, ha, hb) && Errs(h', HighValue(p, q, p), ha, hb)
    ensures OddErrs(OddValue(h', EvenValue(l', hm', h'), EvenValue(l', hm', h')), q, la, lb, ha, hb)
  {
  }

  /**
   A sample decoded from coefficients in error: an even one errs by la-hb-1..lb-ha, an odd one by
   la+(3ha-hb-5)/2..lb+(3hb-ha+1)/2, and nothing wraps. With exact coefficients that is -1..0 and -2..0.
   */
  lemma DecodeError(l: seq<sint16>, h: seq<sint16>, x: seq<sint16>, W: nat, n: nat, la: int, lb: int, ha: int, hb: int, b: nat)
    requires Line(x, W) && n < W && AllWithin(x, b)
    requires Slight(b, la, lb, ha, hb) && Near(l, h, x, W, la, lb, ha, hb)
    ensures Even(l, h, W, n) == EvenExact(l, h, W, n) && Odd(l, h, W, n) == OddExact(l, h, W, n)
    ensures Errs(Even(l, h, W, n), x[2 * n], -1 + la - hb, lb - ha)
    ensures OddErrs(Odd(l, h, W, n), x[2 * n + 1], la, lb, ha, hb)
  {
    hide HighPass, HighValue, LowValue, EvenValue, OddValue, Wrap16;
    var m := Next(n, W);
    EvenDecodeError(l, h, x, W, n, la, lb, ha, hb, b);
    EvenDecodeError(l, h, x, W, m, la, lb, ha, hb, b);
    HighRange(x, W, Prev(n), b);
    HighRange(x, W, n, b);
    HighRange(x, W, m, b);
    var hm := HighPass(x, W, Prev(n));
    if n < W - 1 {
      OddError(x[2 * n], x[2 * n + 1], x[2 * m], hm, HighPass(x, W, m), l[n], l[m], h[Prev(n)], h[n], h[m], la, lb, ha, hb);
    } else {
      LastOddError(x[2 * n], x[2 * n + 1], hm, l[n], h[Prev(n)], h[n], la, lb, ha, hb);
    }
    assert Within(x[2 * n + 1], b);
    WrapInRange(OddExact(l, h, W, n));
  }

  lemma EvenDecodeError(l: seq<sint16>, h: seq<sint16>, x: seq<sint16>, W: nat, n: nat, la: int, lb: int, ha: int, hb: int, b: nat)
    requires Line(x, W) && n < W && AllWithin(x, b)
    requires Slight(b, la, lb, ha, hb) && Near(l, h, x, W, la, lb, ha, hb)
    ensures Even(l, h, W, n) == EvenExact(l, h, W, n)
    ensures Errs(Even(l, h, W, n), x[2 * n], -1 + la - hb, lb - ha)
  {
    hide HighPass, HighExact, Wrap16, LowValue, EvenValue;
    HighRange(x, W, n, b);
    HighRange(x, W, Prev(n), b);
    EvenError(x[2 * n], HighPass(x, W, Prev(n)), HighPass(x, W, n), l[n], h[Prev(n)], h[n], la, lb, ha, hb);
    assert Within(x[2 * n], b);
    WrapInRange(EvenExact(l, h, W, n));
  }

  // ---------- Encoding a decoded line ----------

  /** The line that a pair of bands decodes to. */
  predicate Decoded(x: seq<sint16>, l: seq<sint16>, h: seq<sint16>, W: nat) {
    && Line(x, W) && Bands(l, h, W)
    && forall n :: 0 <= n < W ==> x[2 * n] == EvenExact(l, h, W, n) && x[2 * n + 1] == OddExact(l, h, W, n)
  }

  /** Without overflow every high-pass value is restored exactly and every low-pass value errs by 0 or -1. */
  lemma ReencodeLine(x: seq<sint16>, l: seq<sint16>, h: seq<sint16>, W: nat, n: nat)
    requires Decoded(x, l, h, W) && n < W
    ensures HighPass(x, W, n) == h[n]
    ensures Errs(LowExact(x, W, n), l[n], -1, 0)
  {
    ReencodeHigh(x, l, h, W, n);
    ReencodeHigh(x, l, h, W, Prev(n));
  }

  lemma ReencodeHigh(x: seq<sint16>, l: seq<sint16>, h: seq<sint16>, W: nat, n: nat)
    requires Decoded(x, l, h, W) && n < W
    ensures HighExact(x, W, n) == h[n] && HighPass(x, W, n) == h[n]
  {
    hide EvenExact, Wrap16, OddValue, HighValue;
    var m := Next(n, W);
    WrapId(x[2 * n]);
    WrapId(x[2 * m]);
    WrapId(h[n]);
    HighOfOdd(h[n], x[2 * n], x[2 * m]);
  }

  lemma WrapId(v: sint16)
    ensures Wrap16(v) == v
  {
  }

  lemma HighOfOdd(h: int, e: int, en: int)
    ensures HighValue(e, OddValue(h, e, en), en) == h
  {
  }

  lemma HighShort(h: int, e: int, en: int, p: int, q: int, r: int)
    requires e - 1 <= p <= e && en - 1 <= r <= en && OddValue(h, e, en) - 1 <= q <= OddValue(h, e, en)
    ensures h - 1 <= HighValue(p, q, r) <= h
  {
  }

  lemma LowShort(l: int, hm: int, h: int, p: int, gm: int, g: int)
    requires EvenValue(l, hm, h) - 1 <= p <= EvenValue(l, hm, h) && hm - 1 <= gm <= hm && h - 1 <= g <= h
    ensures l - 3 <= LowValue(p, gm, g) <= l
  {
  }

  /** Re-encoding a line that falls short of a decoded one by at most one. */
  lemma ReencodeShort(y: seq<sint16>, x: seq<sint16>, l: seq<sint16>, h: seq<sint16>, W: nat, n: nat)
    requires Decoded(x, l, h, W) && n < W && Line(y, W)
    requires forall k :: 0 <= k < 2 * W ==> Errs(y[k], x[k], -1, 0)
    requires forall k :: 0 <= k < W ==> HighPass(y, W, k) == HighExact(y, W, k)
    ensures Errs(HighExact(y, W, n), h[n], -1, 0)
    ensures Errs(LowExact(y, W, n), l[n], -3, 0)
  {
    ReencodeHighShort(y, x, l, h, W, n);
    ReencodeHighShort(y, x, l, h, W, Prev(n));
    LowShort(l[n], h[Prev(n)], h[n], y[2 * n], HighPass(y, W, Prev(n)), HighPass(y, W, n));
  }

  lemma ReencodeHighShort(y: seq<sint16>, x: seq<sint16>, l: seq<sint16>, h: seq<sint16>, W: nat, n: nat)
    requires Decoded(x, l, h, W) && n < W && Line(y, W)
    requires forall k :: 0 <= k < 2 * W ==> Errs(y[k], x[k], -1, 0)
    ensures Errs(HighExact(y, W, n), h[n], -1, 0)
  {
    hide EvenExact, Wrap16, OddValue, HighValue;
    var m := Next(n, W);
    WrapId(x[2 * n]);
    WrapId(x[2 * m]);
    HighShort(h[n], x[2 * n], x[2 * m], y[2 * n], y[2 * n + 1], y[2 * m]);
  }
}

/** Eight-lane 16-bit vectors and the lane arithmetic of the SSE2 wavelet. */
module Sse2Lanes {
  import opened Bits
  import opened DwtLine

  type Vec = v: seq<sint16> | |v| == 8 witness [0, 0, 0, 0, 0, 0, 0, 0]

  function AddV(a: Vec, b: Vec): (r: Vec)
  {
    seq(8, k requires 0 <= k < 8 => Add16(a[k], b[k]))
  }

  function SubV(a: Vec, b: Vec): (r: Vec)
  {
    seq(8, k requires 0 <= k < 8 => Sub16(a[k], b[k]))
  }

  /** Arithmetic shift right by one, in every lane. */
  function HalfV(a: Vec): (r: Vec)
  {
    seq(8, k requires 0 <= k < 8 => a[k] / 2)
  }

  /** Shift left by one, in every lane. */
  function DoubleV(a: Vec): (r: Vec)
  {
    seq(8, k requires 0 <= k < 8 => Add16(a[k], a[k]))
  }

  function SplatOne(): (r: Vec)
  {
    seq(8, _ => 1)
  }

  /** An unaligned load; what lies outside the array is junk. */
  function LoadV(a: array<sint16>, i: int, junk: sint16): (r: Vec)
    reads a
  {
    seq(8, k requires 0 <= k < 8 reads a => if 0 <= i + k < a.Length then a[i + k] else junk)
  }

  /** Eight values two apart: the even or odd places of sixteen. */
  function LoadPairs(a: array<sint16>, i: int, junk: sint16): (r: Vec)
    reads a
  {
    seq(8, k requires 0 <= k < 8 reads a => if 0 <= i + 2 * k < a.Length then a[i + 2 * k] else junk)
  }

  method StoreV(a: array<sint16>, i: nat, v: Vec)
    requires i + 8 <= a.Length
    modifies a
    ensures forall k :: 0 <= k < 8 ==> a[i + k] == v[k]
    ensures forall j :: 0 <= j < a.Length && (j < i || j >= i + 8) ==> a[j] == old(a[j])
  {
    forall k | 0 <= k < 8 {
      a[i + k] := v[k];
    }
  }

  // ---------- Lane arithmetic ----------

  function Sum(a: int, b: int): int {
    a + b
  }

  function Diff(a: int, b: int): int {
    a - b
  }

  /** Every sum that the forward filter halves fits a lane. */
  predicate ForwardSumsFit(x: seq<sint16>, W: nat)
    requires Line(x, W)
  {
    forall n :: 0 <= n < W ==> ForwardSumsFitAt(x, W, n)
  }

  predicate ForwardSumsFitAt(x: seq<sint16>, W: nat, n: nat)
    requires Line(x, W) && n < W
  {
    var s := Sum(x[2 * n], x[2 * Next(n, W)]);
    In16(s) && In16(Diff(x[2 * n + 1], s / 2)) && In16(Sum(HighPass(x, W, Prev(n)), HighPass(x, W, n)))
  }

  /** Every sum that the inverse filter halves fits a lane. */
  predicate InverseSumsFit(l: seq<sint16>, h: seq<sint16>, W: nat)
    requires Bands(l, h, W)
  {
    forall n :: 0 <= n < W ==> InverseSumsFitAt(l, h, W, n)
  }

  predicate InverseSumsFitAt(l: seq<sint16>, h: seq<sint16>, W: nat, n: nat)
    requires Bands(l, h, W) && n < W
  {
    In16(Sum(Sum(h[Prev(n)], h[n]), 1)) && In16(Sum(Even(l, h, W, n), Even(l, h, W, Next(n, W))))
  }

  lemma WrapIn16(v: int)
    requires In16(v)
    ensures Wrap16(v) == v
  {
  }

  /** The high-pass lane: (q - ((p + r) >> 1)) >> 1 with 16-bit steps. */
  lemma HighLane(x: seq<sint16>, W: nat, n: nat)
    requires Line(x, W) && n < W && ForwardSumsFitAt(x, W, n)
    ensures Sub16(x[2 * n + 1], Add16(x[2 * n], x[2 * Next(n, W)]) / 2) / 2 == HighPass(x, W, n)
  {
    hide Wrap16;
    var s := Sum(x[2 * n], x[2 * Next(n, W)]);
    WrapIn16(s);
    WrapIn16(Diff(x[2 * n + 1], s / 2));
    WrapIn16(Diff(x[2 * n + 1], s / 2) / 2);
  }

  /** The low-pass lane: ((hm + h) >> 1) + p with 16-bit steps. */
  lemma LowLane(x: seq<sint16>, W: nat, n: nat)
    requires Line(x, W) && n < W && ForwardSumsFitAt(x, W, n)
    ensures Add16(Add16(HighPass(x, W, Prev(n)), HighPass(x, W, n)) / 2, x[2 * n]) == LowPass(x, W, n)
  {
    hide Wrap16;
    WrapIn16(Sum(HighPass(x, W, Prev(n)), HighPass(x, W, n)));
  }

  /** The even lane: l - ((h + hm + 1) >> 1) with 16-bit steps, in either order of the additions. */
  lemma EvenLane(l: seq<sint16>, h: seq<sint16>, W: nat, n: nat)
    requires Bands(l, h, W) && n < W && InverseSumsFitAt(l, h, W, n)
    ensures Sub16(l[n], Add16(Add16(h[n], h[Prev(n)]), 1) / 2) == Even(l, h, W, n)
    ensures Sub16(l[n], Add16(Add16(h[n], 1), h[Prev(n)]) / 2) == Even(l, h, W, n)
  {
    hide Even, Next;
    InverseValues(l, h, W, n);
    AddThree(h[n], h[Prev(n)], 1);
    AddThree(h[n], 1, h[Prev(n)]);
    WrapIn16(Sum(Sum(h[Prev(n)], h[n]), 1));
  }

  lemma AddThree(a: int, b: int, c: int)
    ensures Add16(Add16(a, b), c) == Wrap16(a + b + c)
  {
  }

  /** The odd lane: ((en + e) >> 1) + (h << 1) with 16-bit steps. */
  lemma OddLane(l: seq<sint16>, h: seq<sint16>, W: nat, n: nat)
    requires Bands(l, h, W) && n < W && InverseSumsFitAt(l, h, W, n)
    ensures Add16(Add16(Even(l, h, W, Next(n, W)), Even(l, h, W, n)) / 2, Add16(h[n], h[n])) == Odd(l, h, W, n)
  {
    hide Even, Odd;
    InverseValues(l, h, W, n);
    var e := Sum(Even(l, h, W, n), Even(l, h, W, Next(n, W)));
    WrapIn16(e);
    AddThree(h[n], h[n], e / 2);
  }

  // ---------- The filters on vectors ----------

  function HighV(p: Vec, q: Vec, r: Vec): (v: Vec)
  {
    HalfV(SubV(q, HalfV(AddV(p, r))))
  }

  function LowV(hm: Vec, h: Vec, p: Vec): (v: Vec)
  {
    AddV(HalfV(AddV(hm, h)), p)
  }

  /** The sum to be halved is built in different orders by the horizontal and the vertical pass. */
  function EvenV(l: Vec, sum: Vec): (v: Vec)
  {
    SubV(l, HalfV(sum))
  }

  function OddV(h: Vec, e: Vec, en: Vec): (v: Vec)
  {
    AddV(HalfV(AddV(en, e)), DoubleV(h))
  }

  /** Interleaves four lanes of two vectors, from lane j on. */
  function Unpack(a: Vec, b: Vec, j: nat): (v: Vec)
    requires j + 4 <= 8
  {
    seq(8, k requires 0 <= k < 8 => if k % 2 == 0 then a[j + k / 2] else b[j + k / 2])
  }

  lemma VectorLanes(p: Vec, q: Vec, r: Vec, k: nat)
    requires k < 8
    ensures HighV(p, q, r)[k] == Sub16(q[k], Add16(p[k], r[k]) / 2) / 2
    ensures LowV(p, q, r)[k] == Add16(Add16(p[k], q[k]) / 2, r[k])
    ensures EvenV(p, AddV(AddV(q, r), SplatOne()))[k] == Sub16(p[k], Add16(Add16(q[k], r[k]), 1) / 2)
    ensures EvenV(p, AddV(AddV(q, SplatOne()), r))[k] == Sub16(p[k], Add16(Add16(q[k], 1), r[k]) / 2)
    ensures OddV(p, q, r)[k] == Add16(Add16(r[k], q[k]) / 2, Add16(p[k], p[k]))
  {
    hide Add16, Sub16;
  }
}

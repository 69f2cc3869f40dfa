/** Row-major addressing of a flat buffer. Row(r, w) is r * w, by repeated addition. */
module Grid {

  /** A tile has 64 rows of 64 values. */
  const TILE: nat := 4096

  function Row(r: nat, w: nat): nat {
    if r == 0 then 0 else Row(r - 1, w) + w
  }

  function RowOf(i: nat, w: nat): nat
    requires w > 0
  {
    if i < w then 0 else 1 + RowOf(i - w, w)
  }

  function ColOf(i: nat, w: nat): (c: nat)
    requires w > 0
    ensures c < w
  {
    if i < w then i else ColOf(i - w, w)
  }

  lemma {:induction false} RowProduct(r: nat, w: nat)
    ensures Row(r, w) == r * w
  {
    if r > 0 {
      RowProduct(r - 1, w);
    }
  }

  lemma {:induction false} RowOfRow(r: nat, c: nat, w: nat)
    requires c < w
    ensures RowOf(Row(r, w) + c, w) == r && ColOf(Row(r, w) + c, w) == c
  {
    if r > 0 {
      RowOfRow(r - 1, c, w);
    }
  }

  lemma {:induction false} Split(i: nat, w: nat)
    requires w > 0
    ensures i == Row(RowOf(i, w), w) + ColOf(i, w)
  {
    if i >= w {
      Split(i - w, w);
    }
  }

  lemma {:induction false} RowMono(r: nat, s: nat, w: nat)
    requires r <= s
    ensures Row(r, w) <= Row(s, w)
    ensures r < s ==> Row(r, w) + w <= Row(s, w)
  {
    if r < s {
      RowMono(r, s - 1, w);
    }
  }

  lemma {:induction false} RowAdd(r: nat, s: nat, w: nat)
    ensures Row(r + s, w) == Row(r, w) + Row(s, w)
  {
    if s > 0 {
      RowAdd(r, s - 1, w);
    }
  }

  /** A cell of an n-row grid lies inside the grid. */
  lemma Inside(r: nat, c: nat, w: nat, n: nat)
    requires r < n && c < w
    ensures Row(r, w) + c < Row(n, w)
  {
    RowMono(r, n, w);
  }

  /** The row of an index inside an n-row grid. */
  lemma RowBound(i: nat, w: nat, n: nat)
    requires w > 0 && i < Row(n, w)
    ensures RowOf(i, w) < n
  {
    Split(i, w);
    if RowOf(i, w) >= n {
      RowMono(n, RowOf(i, w), w);
    }
  }

  /** Twice the width, half the rows. */
  lemma {:induction false} RowHalves(r: nat, w: nat)
    ensures Row(2 * r, w) == Row(r, 2 * w)
  {
    if r > 0 {
      RowHalves(r - 1, w);
      assert Row(2 * r, w) == Row(2 * r - 1, w) + w == Row(2 * r - 2, w) + w + w;
    }
  }

  /** Stretch i of a sequence cut into stretches of w. */
  function Part<T>(s: seq<T>, w: nat, i: nat): seq<T>
    requires Row(i, w) <= |s|
  {
    s[Row(i, w)..if Row(i, w) + w < |s| then Row(i, w) + w else |s|]
  }

  lemma PartNext<T>(s: seq<T>, w: nat, i: nat)
    requires i >= 1 && w <= |s| && Row(i - 1, w) <= |s| - w
    ensures Row(i, w) == Row(i - 1, w) + w && Part(s, w, i) == Part(s[w..], w, i - 1)
  {
    var a := Row(i - 1, w);
    var b := if a + w < |s| - w then a + w else |s| - w;
    assert s[w..][a..b] == s[w + a..w + b];
  }
}

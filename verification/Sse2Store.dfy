/** Octets: eight neighbouring cells of one row of a grid, as one vector in memory. */
module Sse2Store {
  import opened Bits
  import opened Grid
  import opened Sse2Lanes

  /** A grid of n rows of w cells; rows hold whole octets. */
  predicate IsGrid(t: seq<sint16>, w: nat, n: nat) {
    w > 0 && |t| == Row(n, w)
  }

  function At(t: seq<sint16>, w: nat, n: nat, r: nat, c: nat): sint16
    requires IsGrid(t, w, n) && r < n && c < w
  {
    Inside(r, c, w, n);
    t[Row(r, w) + c]
  }

  /** The eight cells of row r from column x on. */
  function Oct(t: seq<sint16>, w: nat, n: nat, r: nat, x: nat): (v: Vec)
    requires IsGrid(t, w, n) && r < n && x + 8 <= w
  {
    [At(t, w, n, r, x), At(t, w, n, r, x + 1), At(t, w, n, r, x + 2), At(t, w, n, r, x + 3),
     At(t, w, n, r, x + 4), At(t, w, n, r, x + 5), At(t, w, n, r, x + 6), At(t, w, n, r, x + 7)]
  }

  lemma OctAt(t: seq<sint16>, w: nat, n: nat, r: nat, x: nat, k: nat)
    requires IsGrid(t, w, n) && r < n && x + 8 <= w && k < 8
    ensures Oct(t, w, n, r, x)[k] == At(t, w, n, r, x + k)
  {
    hide At;
  }

  /** Whether index i of a grid lies in row r, in columns lo up to hi. */
  predicate In(i: int, w: nat, r: nat, lo: nat, hi: nat)
    requires w > 0
  {
    0 <= i && RowOf(i, w) == r && lo <= ColOf(i, w) < hi
  }

  predicate Outside(j: int, off: nat, size: nat, w: nat, r: nat, lo: nat, hi: nat)
    requires w > 0
  {
    j < off || j >= off + size || !In(j - off, w, r, lo, hi)
  }

  /** An array holds columns lo up to hi of row r of a grid t that starts at off. */
  ghost predicate Has(a: array<sint16>, off: nat, t: seq<sint16>, w: nat, r: nat, lo: nat, hi: nat)
    reads a
  {
    w > 0 && off + |t| <= a.Length && forall i :: 0 <= i < |t| && In(i, w, r, lo, hi) ==> a[off + i] == t[i]
  }

  lemma HasAt(a: array<sint16>, off: nat, t: seq<sint16>, w: nat, n: nat, r: nat, lo: nat, hi: nat, c: nat)
    requires IsGrid(t, w, n) && r < n && Has(a, off, t, w, r, lo, hi) && lo <= c < hi && c < w
    ensures off + Row(r, w) + c < a.Length && a[off + Row(r, w) + c] == At(t, w, n, r, c)
  {
    hide Row, RowOf, ColOf;
    Inside(r, c, w, n);
    RowOfRow(r, c, w);
  }

  lemma HasAll(a: array<sint16>, off: nat, t: seq<sint16>, w: nat, r: nat, lo: nat, hi: nat)
    requires w > 0 && off + |t| <= a.Length && a[off..off + |t|] == t
    ensures Has(a, off, t, w, r, lo, hi)
  {
    hide In;
    forall i | 0 <= i < |t| && In(i, w, r, lo, hi)
      ensures a[off + i] == t[i]
    {
      assert a[off..off + |t|][i] == a[off + i];
    }
  }

  lemma LoadOct(a: array<sint16>, off: nat, t: seq<sint16>, w: nat, n: nat, r: nat, x: nat, junk: sint16)
    requires IsGrid(t, w, n) && r < n && x + 8 <= w && Has(a, off, t, w, r, x, x + 8)
    ensures LoadV(a, off + Row(r, w) + x, junk) == Oct(t, w, n, r, x)
  {
    hide Row, Has, At, Oct;
    var v := LoadV(a, off + Row(r, w) + x, junk);
    forall k | 0 <= k < 8
      ensures v[k] == Oct(t, w, n, r, x)[k]
    {
      HasAt(a, off, t, w, n, r, x, x + 8, x + k);
      OctAt(t, w, n, r, x, k);
    }
  }

  /** Stores one octet of the grid t; nothing else changes. */
  method StoreOct(a: array<sint16>, off: nat, ghost t: seq<sint16>, w: nat, ghost n: nat, r: nat, x: nat, v: Vec)
    requires IsGrid(t, w, n) && r < n && x + 8 <= w && off + |t| <= a.Length && v == Oct(t, w, n, r, x)
    modifies a
    ensures Has(a, off, t, w, r, x, x + 8)
    ensures forall j :: 0 <= j < a.Length && Outside(j, off, |t|, w, r, x, x + 8) ==>
      a[j] == old(a[j])
    ensures forall u: seq<sint16>, s: nat, lo: nat, hi: nat ::
      |u| == |t| && (s != r || hi <= x) && old(Has(a, off, u, w, s, lo, hi)) ==> Has(a, off, u, w, s, lo, hi)
  {
    hide Row, RowOf, ColOf, At, Oct;
    Inside(r, x + 7, w, n);
    StoreV(a, off + Row(r, w) + x, v);
    forall i | 0 <= i < |t| && In(i, w, r, x, x + 8)
      ensures a[off + i] == t[i]
    {
      Split(i, w);
      var k := ColOf(i, w) - x;
      assert a[off + Row(r, w) + x + k] == v[k];
      AtCell(t, w, n, r, x + k);
      OctAt(t, w, n, r, x, k);
    }
    forall j | 0 <= j < a.Length && Outside(j, off, |t|, w, r, x, x + 8)
      ensures a[j] == old(a[j])
    {
      if off + Row(r, w) + x <= j < off + Row(r, w) + x + 8 {
        InOct(j - off, w, n, r, x);
      }
    }
  }

  lemma AtCell(t: seq<sint16>, w: nat, n: nat, r: nat, c: nat)
    requires IsGrid(t, w, n) && r < n && c < w
    ensures Row(r, w) + c < |t| && At(t, w, n, r, c) == t[Row(r, w) + c]
  {
    Inside(r, c, w, n);
  }

  lemma InOct(i: nat, w: nat, n: nat, r: nat, x: nat)
    requires r < n && x + 8 <= w && Row(r, w) + x <= i < Row(r, w) + x + 8
    ensures i < Row(n, w) && In(i, w, r, x, x + 8)
  {
    hide Row, RowOf, ColOf;
    Inside(r, i - Row(r, w), w, n);
    RowOfRow(r, i - Row(r, w), w);
  }

  /** Loads an octet of a grid that an array holds whole. */
  lemma GridOct(a: array<sint16>, off: nat, t: seq<sint16>, w: nat, n: nat, r: nat, x: nat, junk: sint16)
    requires IsGrid(t, w, n) && r < n && x + 8 <= w && off + |t| <= a.Length && a[off..off + |t|] == t
    ensures LoadV(a, off + Row(r, w) + x, junk) == Oct(t, w, n, r, x)
  {
    hide Has, Row, Oct, LoadV;
    HasAll(a, off, t, w, r, x, x + 8);
    LoadOct(a, off, t, w, n, r, x, junk);
  }
}

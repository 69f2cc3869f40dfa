/** Differential coding of the LL3 band: every value but the first is replaced by its difference to the one before. */
module Differential {
  import opened Bits

  function Differences(s: seq<sint16>): (d: seq<sint16>)
    ensures |d| == |s|
  {
    seq(|s|, i requires 0 <= i < |s| => if i == 0 then s[0] else Sub16(s[i], s[i - 1]))
  }

  lemma DifferencesAt(s: seq<sint16>, i: nat)
    requires i < |s|
    ensures Differences(s)[i] == if i == 0 then s[0] else Sub16(s[i], s[i - 1])
  {
  }

  /** Running sums in 16-bit arithmetic. */
  function Sums(d: seq<sint16>): (s: seq<sint16>)
    ensures |s| == |d|
  {
    if |d| <= 1 then d else
      var prev := Sums(d[..|d| - 1]);
      prev + [Add16(d[|d| - 1], prev[|d| - 2])]
  }

  lemma WrapDifference(a: sint16, b: sint16)
    ensures Add16(Sub16(b, a), a) == b
    ensures Sub16(Add16(b, a), a) == b
    ensures Sub16(b, a) == 0 ==> a == b
  {
  }

  /** Summing undoes differencing, wrap-around included. */
  lemma {:induction false} SumsOfDifferences(s: seq<sint16>)
    ensures Sums(Differences(s)) == s
  {
    if |s| > 1 {
      var n := |s| - 1;
      SumsOfDifferences(s[..n]);
      assert Differences(s)[..n] == Differences(s[..n]);
      WrapDifference(s[n - 1], s[n]);
    }
  }

  lemma {:induction false} SumsPrefix(d: seq<sint16>, n: nat)
    requires n <= |d|
    ensures Sums(d[..n]) == Sums(d)[..n]
    decreases |d|
  {
    hide Add16;
    if n == |d| {
      assert d[..n] == d;
    } else if |d| > 1 {
      var e := d[..|d| - 1];
      SumsPrefix(e, n);
      assert e[..n] == d[..n];
      assert Sums(d)[..n] == Sums(e)[..n];
    }
  }

  lemma SumsAt(d: seq<sint16>, i: nat)
    requires 0 < i < |d|
    ensures Sums(d)[i] == Add16(d[i], Sums(d)[i - 1])
  {
    hide Add16;
    SumsPrefix(d, i + 1);
    SumsPrefix(d, i);
    assert d[..i + 1][..i] == d[..i];
  }

  lemma DifferencesOfSums(d: seq<sint16>)
    ensures Differences(Sums(d)) == d
  {
    hide Add16, Sub16, Sums;
    if d != [] {
      SumsFirst(d);
    }
    forall i | 0 < i < |d|
      ensures Differences(Sums(d))[i] == d[i]
    {
      SumsAt(d, i);
      WrapDifference(Sums(d)[i - 1], d[i]);
    }
  }

  lemma SumsFirst(d: seq<sint16>)
    requires d != []
    ensures Sums(d)[0] == d[0]
  {
    SumsPrefix(d, 1);
  }

  method Decode(buffer: array<sint16>, off: nat, n: nat)
    requires off + n <= buffer.Length
    modifies buffer
    ensures buffer[..] == old(buffer[..off]) + Sums(old(buffer[off..off + n])) + old(buffer[off + n..])
  {
    hide Add16, Sums;
    ghost var d := buffer[off..off + n];
    if n > 0 {
      SumsFirst(d);
    }
    var i := 1;
    while i < n
      invariant 1 <= i && (i <= n || n == 0)
      invariant forall j :: 0 <= j < i && j < n ==> buffer[off + j] == Sums(d)[j]
      invariant forall j :: 0 <= j < off || off + Min(i, n) <= j < buffer.Length ==> buffer[j] == old(buffer[j])
    {
      SumsAt(d, i);
      buffer[off + i] := Add16(buffer[off + i], buffer[off + i - 1]);
      i := i + 1;
    }
    Rebuilt(buffer[..], old(buffer[..]), off, Sums(d));
  }

  method Encode(buffer: array<sint16>, off: nat, n: nat)
    requires off + n <= buffer.Length && n > 0
    modifies buffer
    ensures buffer[..] == old(buffer[..off]) + Differences(old(buffer[off..off + n])) + old(buffer[off + n..])
  {
    hide Sub16, Differences;
    ghost var s := buffer[off..off + n];
    var n1 := buffer[off];
    var i := 1;
    DifferencesAt(s, 0);
    while i < n
      invariant 1 <= i <= n && n1 == s[i - 1]
      invariant forall j :: 0 <= j < i ==> buffer[off + j] == Differences(s)[j]
      invariant forall j :: 0 <= j < off || off + i <= j < buffer.Length ==> buffer[j] == old(buffer[j])
    {
      var n2 := buffer[off + i];
      DifferencesAt(s, i);
      buffer[off + i] := Sub16(buffer[off + i], n1);
      n1 := n2;
      i := i + 1;
    }
    Rebuilt(buffer[..], old(buffer[..]), off, Differences(s));
  }
}

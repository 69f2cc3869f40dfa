/** Bit sequences, most significant bit first, and their relation to machine words. */
module Bits {

  type byte = x: int | 0 <= x < 0x100
  type sint16 = x: int | -0x8000 <= x < 0x8000

  /** The value a C assignment to a signed 16-bit variable keeps. */
  function Wrap16(x: int): (r: sint16)
  {
    (x + 0x8000) % 0x1_0000 - 0x8000
  }

  predicate In16(v: int) {
    -0x8000 <= v < 0x8000
  }

  function Add16(a: int, b: int): sint16 {
    Wrap16(a + b)
  }

  function Sub16(a: int, b: int): sint16 {
    Wrap16(a - b)
  }

  function Min(a: int, b: int): int {
    if a < b then a else b
  }

  function Take<T>(s: seq<T>, n: nat): (r: seq<T>)
    ensures |r| == Min(n, |s|)
  {
    s[..Min(n, |s|)]
  }

  function Drop<T>(s: seq<T>, n: nat): (r: seq<T>)
    ensures |r| == |s| - Min(n, |s|)
  {
    s[Min(n, |s|)..]
  }

  function Front<T>(s: seq<T>): (r: seq<T>)
    requires |s| > 0
    ensures |r| == |s| - 1
  {
    s[..|s| - 1]
  }

  function Last<T>(s: seq<T>): T
    requires |s| > 0
  {
    s[|s| - 1]
  }

  lemma TakeDropConcat<T>(a: seq<T>, b: seq<T>)
    ensures Take(a + b, |a|) == a && Drop(a + b, |a|) == b
  {
  }

  lemma SplitThree<T>(s: seq<T>, off: nat, n: nat)
    requires off + n <= |s|
    ensures s == s[..off] + s[off..off + n] + s[off + n..]
  {
  }

  /** A sequence with one stretch replaced. */
  lemma Rebuilt<T>(s: seq<T>, was: seq<T>, off: nat, mid: seq<T>)
    requires |s| == |was| && off + |mid| <= |s|
    requires forall i :: 0 <= i < |mid| ==> s[off + i] == mid[i]
    requires forall j :: 0 <= j < |s| && (j < off || j >= off + |mid|) ==> s[j] == was[j]
    ensures s == was[..off] + mid + was[off + |mid|..]
  {
    SplitThree(s, off, |mid|);
    assert s[off..off + |mid|] == mid;
  }

  lemma ConcatAssoc<T>(a: seq<T>, b: seq<T>, c: seq<T>)
    ensures (a + b) + c == a + (b + c)
  {
  }

  // Shifts and masks are defined by repeated doubling and halving, which keeps every fact about them linear.

  function Pow2(n: nat): (r: nat)
    ensures r >= 1
  {
    if n == 0 then 1 else 2 * Pow2(n - 1)
  }

  /** v << n */
  function Shl(v: int, n: nat): int {
    if n == 0 then v else 2 * Shl(v, n - 1)
  }

  /** v >> n */
  function Shr(v: nat, n: nat): nat {
    if n == 0 then v else Shr(v / 2, n - 1)
  }

  /** v & ((1 << n) - 1) */
  function Low(v: nat, n: nat): (r: nat)
    ensures r < Pow2(n)
  {
    if n == 0 then 0 else 2 * Low(v / 2, n - 1) + v % 2
  }

  /** (v >> shift) & ((1 << width) - 1) */
  function Field(v: nat, shift: nat, width: nat): (r: nat)
    ensures r < Pow2(width)
  {
    Low(Shr(v, shift), width)
  }

  function Zeros(n: nat): (r: seq<bool>)
    ensures |r| == n
  {
    seq(n, _ => false)
  }

  function Ones(n: nat): (r: seq<bool>)
    ensures |r| == n
  {
    seq(n, _ => true)
  }

  /** The low n bits of v, most significant first. */
  function BitsOf(v: nat, n: nat): (r: seq<bool>)
    ensures |r| == n
  {
    if n == 0 then [] else BitsOf(v / 2, n - 1) + [v % 2 == 1]
  }

  /** The number a bit sequence denotes. */
  function NatOf(b: seq<bool>): (r: nat)
  {
    if b == [] then 0 else 2 * NatOf(b[..|b| - 1]) + (if b[|b| - 1] then 1 else 0)
  }

  lemma NatOfEmpty()
    ensures NatOf([]) == 0
  {
  }

  /** The number of ones at the front. */
  function LeadingOnes(b: seq<bool>): (r: nat)
    ensures r <= |b|
  {
    if b == [] || !b[0] then 0 else 1 + LeadingOnes(b[1..])
  }

  lemma {:induction false} LeadingOnesAt(b: seq<bool>)
    ensures forall i :: 0 <= i < LeadingOnes(b) ==> b[i]
    ensures LeadingOnes(b) < |b| ==> !b[LeadingOnes(b)]
  {
    if b != [] && b[0] {
      LeadingOnesAt(b[1..]);
      assert b == [b[0]] + b[1..];
    }
  }

  lemma {:induction false} PowShl(n: nat)
    ensures Shl(1, n) == Pow2(n)
  {
    if n > 0 {
      PowShl(n - 1);
    }
  }

  lemma Pow8()
    ensures Pow2(8) == 0x100
  {
  }

  lemma Pow16()
    ensures Pow2(16) == 0x1_0000
  {
    assert Pow2(8) == 0x100;
    ShlPow(8, 8);
    assert Shl(0x100, 8) == 0x1_0000;
  }

  lemma {:induction false} PowMono(a: nat, b: nat)
    requires a <= b
    ensures Pow2(a) <= Pow2(b)
  {
    if a < b {
      PowMono(a, b - 1);
    }
  }

  lemma PowDouble(n: nat)
    ensures Pow2(n + 1) == 2 * Pow2(n)
  {
  }

  lemma {:induction false} ShlAdd(a: int, b: int, n: nat)
    ensures Shl(a + b, n) == Shl(a, n) + Shl(b, n)
  {
    if n > 0 {
      ShlAdd(a, b, n - 1);
    }
  }

  lemma {:induction false} ShlMono(a: int, b: int, n: nat)
    requires a <= b
    ensures Shl(a, n) <= Shl(b, n)
  {
    if n > 0 {
      ShlMono(a, b, n - 1);
    }
  }

  lemma {:induction false} ShlShl(v: int, m: nat, n: nat)
    ensures Shl(Shl(v, m), n) == Shl(v, m + n)
  {
    if n > 0 {
      ShlShl(v, m, n - 1);
    }
  }

  lemma {:induction false} ShlNat(a: nat, n: nat)
    ensures Shl(a, n) >= a
  {
    if n > 0 {
      ShlNat(a, n - 1);
    }
  }

  lemma {:induction false} ShlPow(m: nat, n: nat)
    ensures Shl(Pow2(m), n) == Pow2(m + n)
  {
    if n > 0 {
      ShlPow(m, n - 1);
    }
  }

  /** A number is its high part shifted up plus its low part. */
  lemma {:induction false} ShrLow(v: nat, n: nat)
    ensures v == Shl(Shr(v, n), n) + Low(v, n)
  {
    if n > 0 {
      ShrLow(v / 2, n - 1);
    }
  }

  /** The high and low part of a number are determined by their sum. */
  lemma {:induction false} ShrLowUnique(q: nat, r: nat, n: nat)
    requires r < Pow2(n)
    ensures Shl(q, n) + r >= 0 && Shr(Shl(q, n) + r, n) == q && Low(Shl(q, n) + r, n) == r
  {
    ShlNat(q, n);
    if n > 0 {
      ShrLowUnique(q, r / 2, n - 1);
      assert (Shl(q, n) + r) / 2 == Shl(q, n - 1) + r / 2;
    }
  }

  lemma {:induction false} LowSmall(v: nat, n: nat)
    requires v < Pow2(n)
    ensures Low(v, n) == v
  {
    if n > 0 {
      LowSmall(v / 2, n - 1);
    }
  }

  lemma {:induction false} NatBound(b: seq<bool>)
    ensures NatOf(b) < Pow2(|b|)
  {
    if b != [] {
      NatBound(b[..|b| - 1]);
    }
  }

  lemma {:induction false} NatConcat(a: seq<bool>, b: seq<bool>)
    ensures NatOf(a + b) == Shl(NatOf(a), |b|) + NatOf(b)
  {
    if b == [] {
      assert a + b == a;
    } else {
      var c := b[..|b| - 1];
      NatConcat(a, c);
      assert (a + b)[..|a + b| - 1] == a + c;
    }
  }

  /** Writing a number as bits and reading it back keeps its low part. */
  lemma {:induction false} NatOfBitsOf(v: nat, n: nat)
    ensures NatOf(BitsOf(v, n)) == Low(v, n)
  {
    if n > 0 {
      NatOfBitsOf(v / 2, n - 1);
      var b := BitsOf(v, n);
      assert b[..|b| - 1] == BitsOf(v / 2, n - 1);
    }
  }

  lemma {:induction false} BitsOfNatOf(b: seq<bool>)
    ensures BitsOf(NatOf(b), |b|) == b
  {
    if b != [] {
      var c := b[..|b| - 1];
      BitsOfNatOf(c);
      assert NatOf(b) / 2 == NatOf(c);
      assert b == c + [b[|b| - 1]];
    }
  }

  /** Two bit sequences of one length that denote the same number are the same. */
  lemma NatInjective(a: seq<bool>, b: seq<bool>)
    requires |a| == |b| && NatOf(a) == NatOf(b)
    ensures a == b
  {
    BitsOfNatOf(a);
    BitsOfNatOf(b);
  }

  lemma {:induction false} BitsOfLow(v: nat, n: nat)
    ensures BitsOf(Low(v, n), n) == BitsOf(v, n)
  {
    if n > 0 {
      BitsOfLow(v / 2, n - 1);
    }
  }

  /** Bit i counts from the most significant one. */
  lemma {:induction false} BitsOfAt(v: nat, n: nat, i: nat)
    requires i < n
    ensures BitsOf(v, n)[i] == (Shr(v, n - 1 - i) % 2 == 1)
  {
    if i < n - 1 {
      BitsOfAt(v / 2, n - 1, i);
    }
  }

  lemma {:induction false} BitsOfZero(n: nat)
    ensures BitsOf(0, n) == Zeros(n)
  {
    if n > 0 {
      BitsOfZero(n - 1);
    }
  }

  /** The bits of (q << n) + r are the bits of q followed by the n bits of r. */
  lemma {:induction false} BitsJoin(q: nat, r: nat, m: nat, n: nat)
    requires r < Pow2(n)
    ensures Shl(q, n) + r >= 0 && BitsOf(Shl(q, n) + r, m + n) == BitsOf(q, m) + BitsOf(r, n)
  {
    ShlNat(q, n);
    if n > 0 {
      BitsJoin(q, r / 2, m, n - 1);
      var v := Shl(q, n) + r;
      assert v / 2 == Shl(q, n - 1) + r / 2 && v % 2 == r % 2;
      assert BitsOf(v, m + n) == BitsOf(v / 2, m + n - 1) + [v % 2 == 1];
    }
  }

  lemma BitsSplit(v: nat, m: nat, n: nat)
    ensures BitsOf(v, m + n) == BitsOf(Shr(v, n), m) + BitsOf(v, n)
  {
    ShrLow(v, n);
    BitsJoin(Shr(v, n), Low(v, n), m, n);
    BitsOfLow(v, n);
  }

  /** A slice of a word's bits is the field a shift and a mask select. */
  lemma FieldBits(v: nat, total: nat, shift: nat, width: nat)
    requires shift + width <= total
    ensures BitsOf(v, total)[total - shift - width..total - shift] == BitsOf(Field(v, shift, width), width)
    ensures NatOf(BitsOf(v, total)[total - shift - width..total - shift]) == Field(v, shift, width)
  {
    var top := total - shift - width;
    BitsSplit(v, top + width, shift);
    BitsSplit(Shr(v, shift), top, width);
    BitsOfLow(Shr(v, shift), width);
    NatOfBitsOf(Shr(v, shift), width);
    assert BitsOf(v, total)[top..top + width] == BitsOf(Shr(v, shift), width);
  }

  /** The bits of a byte string, in transmission order. */
  function BytesBits(s: seq<byte>): (r: seq<bool>)
    ensures |r| == 8 * |s|
  {
    if s == [] then [] else BitsOf(s[0], 8) + BytesBits(s[1..])
  }

  lemma {:induction false} BytesBitsConcat(a: seq<byte>, b: seq<byte>)
    ensures BytesBits(a + b) == BytesBits(a) + BytesBits(b)
  {
    hide BitsOf;
    if a == [] {
      assert a + b == b;
    } else {
      BytesBitsConcat(a[1..], b);
      assert (a + b)[1..] == a[1..] + b;
      ConcatAssoc(BitsOf(a[0], 8), BytesBits(a[1..]), BytesBits(b));
    }
  }

  lemma BytesBitsSplit(s: seq<byte>, i: nat)
    requires i <= |s|
    ensures BytesBits(s) == BytesBits(s[..i]) + BytesBits(s[i..])
  {
    assert s == s[..i] + s[i..];
    BytesBitsConcat(s[..i], s[i..]);
  }

  lemma BytesBitsSnoc(s: seq<byte>, i: nat)
    requires i < |s|
    ensures BytesBits(s[..i + 1]) == BytesBits(s[..i]) + BitsOf(s[i], 8)
  {
    hide BitsOf;
    assert s[..i + 1] == s[..i] + [s[i]];
    BytesBitsConcat(s[..i], [s[i]]);
    assert [s[i]][1..] == [];
  }

  lemma BytesBitsAt(s: seq<byte>, i: nat)
    requires i < |s|
    ensures BytesBits(s) == BytesBits(s[..i]) + BitsOf(s[i], 8) + BytesBits(s[i + 1..])
    ensures BytesBits(s)[8 * i..8 * i + 8] == BitsOf(s[i], 8)
  {
    assert s == s[..i] + s[i..];
    BytesBitsConcat(s[..i], s[i..]);
    assert s[i..][1..] == s[i + 1..];
  }

  lemma BytesBitsUpdate(s: seq<byte>, i: nat, v: byte)
    requires i < |s|
    ensures BytesBits(s[i := v]) == BytesBits(s)[..8 * i] + BitsOf(v, 8) + BytesBits(s)[8 * i + 8..]
  {
    hide BitsOf, BytesBits;
    BytesBitsAt(s, i);
    var t := s[i := v];
    BytesBitsAt(t, i);
    assert t[..i] == s[..i] && t[i + 1..] == s[i + 1..];
  }

  /** Bit strings packed into bytes; the last byte is filled with zero bits. */
  function Pack(b: seq<bool>): (r: seq<byte>)
    ensures |r| == (|b| + 7) / 8
    decreases |b|
  {
    if b == [] then []
    else if |b| < 8 then
      NatBound(b + Zeros(8 - |b|)); [NatOf(b + Zeros(8 - |b|))]
    else
      NatBound(b[..8]); [NatOf(b[..8])] + Pack(b[8..])
  }

  lemma {:induction false} BytesBitsPack(b: seq<bool>)
    ensures BytesBits(Pack(b)) == b + Zeros(8 * |Pack(b)| - |b|)
    decreases |b|
  {
    if b == [] {
    } else if |b| < 8 {
      var c := b + Zeros(8 - |b|);
      BitsOfNatOf(c);
      assert Pack(b)[1..] == [];
    } else {
      BitsOfNatOf(b[..8]);
      assert Pack(b)[1..] == Pack(b[8..]);
      BytesBitsPack(b[8..]);
      assert b == b[..8] + b[8..];
    }
  }
}

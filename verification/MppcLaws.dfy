/**
 The MPPC decoder on given bits, in plain numbers: the code tables of section 4 of RFC 2118 and of section 3.1.8 of
 [MS-RDPBCGR], and what a copy appends.
 */
module MppcLaws {
  import opened Bits
  import opened MppcSpec
  import opened MppcInversion

  /** Bits written as text. */
  function Text(s: string): (b: seq<bool>)
    ensures |b| == |s|
  {
    seq(|s|, i requires 0 <= i < |s| => s[i] == '1')
  }

  /** Offsets from base on, in n bits behind a prefix. */
  predicate OffsetRow(form: Form, prefix: string, n: nat, base: nat) {
    || (form == Rdp4 && prefix == "1111" && n == 6 && base == 0)
    || (form == Rdp4 && prefix == "1110" && n == 8 && base == 64)
    || (form == Rdp4 && prefix == "110" && n == 13 && base == 320)
    || (form == Rdp5 && prefix == "11111" && n == 6 && base == 0)
    || (form == Rdp5 && prefix == "11110" && n == 8 && base == 64)
    || (form == Rdp5 && prefix == "1110" && n == 11 && base == 320)
    || (form == Rdp5 && prefix == "110" && n == 16 && base == 2368)
  }

  lemma OffsetOf(form: Form, prefix: string, n: nat, base: nat, v: nat)
    requires OffsetRow(form, prefix, n, base) && v < Pow2(n)
    ensures OffsetCode(form, base + v) == Text(prefix) + BitsOf(v, n)
    ensures base + v <= (if form == Rdp4 then 8511 else 67903)
  {
    hide BitsOf, Pow2;
    SmallPowers();
    assert Text("1111") == [true, true, true, true] && Text("1110") == [true, true, true, false];
    assert Text("110") == [true, true, false] && Text("11111") == [true, true, true, true, true];
    assert Text("11110") == [true, true, true, true, false];
  }

  /** A length of 2^(c+1) + l: c ones, a zero and l in c + 1 bits. */
  lemma LengthOf(c: nat, l: nat)
    requires c >= 1 && l < Pow2(c + 1)
    ensures Pow2(c + 1) >= 4 && LengthCode(Pow2(c + 1) + l) == Ones(c) + ([false] + BitsOf(l, c + 1))
  {
    hide BitsOf;
    ClassOf(c, l);
    var length := Pow2(c + 1) + l;
    ConcatAssoc(Ones(c), [false], BitsOf(length - Pow2(c + 1), c + 1));
  }

  lemma {:induction false} ClassOf(c: nat, l: nat)
    requires c >= 1 && l < Pow2(c + 1)
    ensures Pow2(c + 1) >= 4 && LengthClass(Pow2(c + 1) + l) == c
    decreases c
  {
    assert Pow2(2) == 4 && Pow2(c + 1) == 2 * Pow2(c);
    if c > 1 {
      ClassOf(c - 1, l / 2);
      assert (Pow2(c + 1) + l) / 2 == Pow2(c) + l / 2;
    }
  }

  /** The longest length: 8191 in the 8K form, 65535 in the 64K form. */
  function Classes(form: Form): nat {
    if form == Rdp4 then 11 else 14
  }

  lemma LengthFits(form: Form, c: nat, l: nat)
    requires 1 <= c <= Classes(form) && l < Pow2(c + 1)
    ensures Pow2(c + 1) + l <= if form == Rdp4 then 8191 else 65535
  {
    hide Pow2;
    SmallPowers();
    PowDouble(c + 1);
    PowMono(c + 2, Classes(form) + 2);
  }

  /** A copy: an offset of the table and a length. */
  lemma CopyLaw(form: Form, prefix: string, n: nat, base: nat, v: nat, c: nat, l: nat, rest: seq<bool>)
    requires OffsetRow(form, prefix, n, base) && v < Pow2(n) && 1 <= base + v <= 65535
    requires 1 <= c <= Classes(form) && l < Pow2(c + 1)
    ensures Parse(form, Text(prefix) + (BitsOf(v, n) + (Ones(c) + ([false] + (BitsOf(l, c + 1) + rest)))))
         == [Copy(base + v, Pow2(c + 1) + l)] + Parse(form, rest)
  {
    hide BitsOf, Pow2, Parse, OffsetCode, LengthCode, Text, Ones;
    OffsetOf(form, prefix, n, base, v);
    LengthOf(c, l);
    LengthFits(form, c, l);
    var t := Copy(base + v, Pow2(c + 1) + l);
    assert Encodable(form, t);
    CopyParts(Text(prefix), BitsOf(v, n), Ones(c), [false], BitsOf(l, c + 1), rest);
    TokenBack(form, t, rest);
  }

  lemma CopyParts(a: seq<bool>, b: seq<bool>, c: seq<bool>, d: seq<bool>, e: seq<bool>, f: seq<bool>)
    ensures ((a + b) + (c + (d + e))) + f == a + (b + (c + (d + (e + f))))
  {
  }

  /** A copy of three bytes: the length is a single zero. */
  lemma CopyThreeLaw(form: Form, prefix: string, n: nat, base: nat, v: nat, rest: seq<bool>)
    requires OffsetRow(form, prefix, n, base) && v < Pow2(n) && 1 <= base + v <= 65535
    ensures Parse(form, Text(prefix) + (BitsOf(v, n) + ([false] + rest))) == [Copy(base + v, 3)] + Parse(form, rest)
  {
    hide BitsOf, Pow2, Parse, OffsetCode, Text;
    OffsetOf(form, prefix, n, base, v);
    assert LengthCode(3) == [false];
    var t := Copy(base + v, 3);
    assert Encodable(form, t);
    assert (Text(prefix) + BitsOf(v, n)) + [false] + rest == Text(prefix) + (BitsOf(v, n) + ([false] + rest));
    TokenBack(form, t, rest);
  }

  /** Every row of the table, with the offset kept in 16 bits. */
  lemma HeadLaw(form: Form, prefix: string, n: nat, base: nat, v: nat, rest: seq<bool>)
    requires OffsetRow(form, prefix, n, base) && v < Pow2(n)
    ensures var b := Text(prefix) + (BitsOf(v, n) + rest);
      ReadHead(form, Pad32(b)) == Offset((base + v) % 0x1_0000, |prefix| + n) && Drop(b, |prefix| + n) == rest && |b| >= 8
  {
    hide BitsOf, Pow2, NatOf, Pad32;
    SmallPowers();
    var code := Text(prefix) + BitsOf(v, n);
    var b := Text(prefix) + (BitsOf(v, n) + rest);
    assert b == code + rest;
    PadPrefix(code, rest);
    var w := Pad32(b);
    ReadBack(w, Text(prefix), v, n);
    if |prefix| == 3 {
      Heads3(w, Text(prefix));
    } else if |prefix| == 4 {
      Heads4(w, Text(prefix));
    } else {
      Heads5(w, Text(prefix));
    }
  }

  /** A zero offset is skipped: no length follows it. */
  lemma ZeroOffsetLaw(form: Form, prefix: string, n: nat, base: nat, v: nat, rest: seq<bool>)
    requires OffsetRow(form, prefix, n, base) && v < Pow2(n) && (base + v == 0 || base + v == 0x1_0000)
    ensures Parse(form, Text(prefix) + (BitsOf(v, n) + rest)) == Parse(form, rest)
  {
    hide BitsOf, Pow2, ReadHead, ReadLength, Pad32, Drop, Text;
    HeadLaw(form, prefix, n, base, v, rest);
  }

  /** More ones than any length has: nothing is copied, and the ones are read again. */
  lemma NoLengthLaw(form: Form, prefix: string, n: nat, base: nat, v: nat, c: nat, rest: seq<bool>)
    requires OffsetRow(form, prefix, n, base) && v < Pow2(n) && 1 <= base + v <= 65535 && Classes(form) < c <= 32
    ensures Parse(form, Text(prefix) + (BitsOf(v, n) + (Ones(c) + rest))) == [Copy(base + v, 0)] + Parse(form, Ones(c) + rest)
  {
    hide BitsOf, Pow2, ReadHead, Parse, Text;
    HeadLaw(form, prefix, n, base, v, Ones(c) + rest);
    var w := Pad32(Ones(c) + rest);
    PadPrefix(Ones(c), rest);
    LeadingOnesAt(w);
    assert forall i :: 0 <= i < c ==> w[i] by { assert forall i :: 0 <= i < c ==> w[i] == w[..c][i]; }
    assert LeadingOnes(w) >= c;
    assert Drop(Ones(c) + rest, 0) == Ones(c) + rest;
    ParseCopy(form, Text(prefix) + (BitsOf(v, n) + (Ones(c) + rest)), base + v, |prefix| + n, Match(0, 0));
  }

  /** Literals: below 128 as they are, the others as 10 and their low seven bits. */
  lemma LiteralLaw(form: Form, v: nat, rest: seq<bool>)
    requires v < 128
    ensures Parse(form, [false] + (BitsOf(v, 7) + rest)) == [Literal(v)] + Parse(form, rest)
    ensures Parse(form, [true, false] + (BitsOf(v, 7) + rest)) == [Literal(128 + v)] + Parse(form, rest)
  {
    hide BitsOf, Parse;
    TopBit(v);
    assert LiteralCode(v) + rest == [false] + (BitsOf(v, 7) + rest);
    assert LiteralCode(128 + v) + rest == [true, false] + (BitsOf(v, 7) + rest);
    TokenBack(form, Literal(v), rest);
    TokenBack(form, Literal(128 + v), rest);
  }

  /** A copy repeats the last offset bytes over and over. */
  lemma {:induction false} CopyBytesLaw(past: seq<byte>, offset: nat, length: nat, i: nat)
    requires 1 <= offset <= |past| && i < length
    ensures i < offset ==> CopyBytes(past, offset, length)[i] == past[|past| - offset + i]
    ensures i >= offset ==> CopyBytes(past, offset, length)[i] == CopyBytes(past, offset, length)[i - offset]
    decreases i
  {
    if i > 0 {
      var next := past[|past| - offset];
      var more := past + [next];
      CopyBytesLaw(more, offset, length - 1, i - 1);
      var out, later := CopyBytes(past, offset, length), CopyBytes(more, offset, length - 1);
      assert out == [next] + later;
      assert i > offset ==> out[i - offset] == later[i - 1 - offset];
    }
  }
}

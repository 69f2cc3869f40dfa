/** The bit reservoir of the MPPC decompressor: a 32-bit word, a partly used byte and the rest of the packet. */
module MppcReservoir {
  import opened Bits
  import opened MppcSpec

  /** d <<= n on an unsigned 32-bit word. */
  function Shl32(d: nat, n: nat): (r: nat)
    requires n <= 32
    ensures r < Pow2(32)
  {
    ShlNat(d, n);
    Low(Shl(d, n), 32)
  }

  /** The bits move up and zeros come in. */
  lemma Shl32Bits(d: nat, n: nat)
    requires n <= 32
    ensures BitsOf(Shl32(d, n), 32) == BitsOf(d, 32)[n..] + Zeros(n)
  {
    ShlNat(d, n);
    BitsOfLow(Shl(d, n), 32);
    BitsJoin(d, 0, 32 - n, n);
    BitsOfZero(n);
    BitsSplit(d, n, 32 - n);
  }

  /** The top n bits as a number: d >> (32 - n). */
  lemma Shr32Bits(d: nat, n: nat)
    requires n <= 32 && d < Pow2(32)
    ensures Shr(d, 32 - n) == NatOf(BitsOf(d, 32)[..n])
  {
    hide Pow2;
    FieldBits(d, 32, 32 - n, n);
    ShrBound(d, n, 32 - n);
    LowSmall(Shr(d, 32 - n), n);
    assert BitsOf(d, 32)[0..n] == BitsOf(d, 32)[..n];
  }

  lemma {:induction false} ShrBound(d: nat, m: nat, n: nat)
    requires d < Pow2(m + n)
    ensures Shr(d, n) < Pow2(m)
  {
    if n > 0 {
      ShrBound(d / 2, m, n - 1);
    }
  }

  /** A word whose low bits are zero is its high part shifted up. */
  lemma HighPart(d: nat, left: nat)
    requires left <= 32 && BitsOf(d, 32)[left..] == Zeros(32 - left)
    ensures d == Shl(Shr(d, 32 - left), 32 - left)
    ensures BitsOf(d, 32)[..left] == BitsOf(Shr(d, 32 - left), left)
  {
    hide BitsOf, NatOf, Shr, Shl, Low;
    var n := 32 - left;
    ShrLow(d, n);
    BitsSplit(d, left, n);
    assert BitsOf(d, n) == BitsOf(d, 32)[left..];
    NatOfBitsOf(d, n);
    BitsOfZero(n);
    NatOfBitsOf(0, n);
    LowZero(n);
  }

  /** d |= x << s where the bits of d under the new ones are zero. */
  lemma OrBits(d: nat, left: nat, x: nat, n: nat)
    requires left + n <= 32 && d < Pow2(32) && x < Pow2(n)
    requires BitsOf(d, 32)[left..] == Zeros(32 - left)
    ensures Shl(x, 32 - left - n) >= 0 && d + Shl(x, 32 - left - n) < Pow2(32)
    ensures BitsOf(d + Shl(x, 32 - left - n), 32) == BitsOf(d, 32)[..left] + BitsOf(x, n) + Zeros(32 - left - n)
  {
    hide BitsOf, Shr, Shl, Pow2;
    var s := 32 - left - n;
    var q := Shr(d, 32 - left);
    HighPart(d, left);
    ShlShl(q, n, s);
    ShlNat(q, n);
    ShlNat(x, s);
    OrBound(q, x, left, n, s);
    ShlAdd(Shl(q, n), x, s);
    BitsJoin(q, x, left, n);
    PowPositive(s);
    BitsJoin(Shl(q, n) + x, 0, left + n, s);
    BitsOfZero(s);
  }

  lemma PowPositive(n: nat)
    ensures 0 < Pow2(n)
  {
  }

  lemma {:induction false} LowZero(n: nat)
    ensures Low(0, n) == 0
  {
    if n > 0 {
      LowZero(n - 1);
    }
  }

  lemma OrBound(q: nat, x: nat, left: nat, n: nat, s: nat)
    requires left + n + s == 32 && x < Pow2(n) && 0 <= Shl(Shl(q, n), s) < Pow2(32)
    ensures Shl(Shl(q, n) + x, s) < Pow2(32)
  {
    hide Shl, Pow2;
    ShlPow(left, n);
    ShlPow(left + n, s);
    if q >= Pow2(left) {
      ShlMono(Pow2(left), q, n);
      ShlMono(Pow2(left + n), Shl(q, n), s);
    } else {
      ShlMono(q + 1, Pow2(left), n);
      ShlAdd(q, 1, n);
      PowShl(n);
      ShlMono(Shl(q, n) + x + 1, Pow2(left + n), s);
      ShlAdd(Shl(q, n) + x, 1, s);
      PowShl(s);
    }
  }

  /** Moving the top n bits of a byte into the word, behind the bits already there. */
  lemma AbsorbBits(d: nat, left: nat, cur: byte, n: nat)
    requires left + n <= 32 && n <= 8 && d < Pow2(32)
    requires BitsOf(d, 32)[left..] == Zeros(32 - left)
    ensures Shl(Shr(cur, 8 - n), 32 - left - n) >= 0 && d + Shl(Shr(cur, 8 - n), 32 - left - n) < Pow2(32)
    ensures BitsOf(d + Shl(Shr(cur, 8 - n), 32 - left - n), 32)
         == BitsOf(d, 32)[..left] + BitsOf(cur, 8)[..n] + Zeros(32 - left - n)
  {
    hide BitsOf, Shr, Shl, Pow2, Zeros;
    Pow8();
    ShrBound(cur, n, 8 - n);
    BitsSplit(cur, n, 8 - n);
    JoinTwo(BitsOf(Shr(cur, 8 - n), n), BitsOf(cur, 8 - n));
    OrBits(d, left, Shr(cur, 8 - n), n);
  }

  /** cur <<= n on a byte keeps the bits behind the first n. */
  lemma ByteShift(cur: byte, n: nat, k: nat)
    requires n <= k <= 8
    ensures ShlByte(cur, n) < 0x100
    ensures BitsOf(ShlByte(cur, n), 8)[..k - n] == BitsOf(cur, 8)[n..k]
  {
    hide BitsOf, Shl;
    assert Pow2(8) == 0x100;
    ShlNat(cur, n);
    BitsOfLow(Shl(cur, n), 8);
    PowPositive(n);
    BitsJoin(cur, 0, 8 - n, n);
    BitsSplit(cur, n, 8 - n);
    assert BitsOf(ShlByte(cur, n), 8) == BitsOf(cur, 8 - n) + BitsOf(0, n);
    assert BitsOf(cur, 8)[n..] == BitsOf(cur, 8 - n);
  }

  function ShlByte(cur: byte, n: nat): nat {
    ShlNat(cur, n);
    Low(Shl(cur, n), 8)
  }

  lemma {:induction false} ShlZero(n: nat)
    ensures Shl(0, n) == 0
  {
    if n > 0 {
      ShlZero(n - 1);
    }
  }

  function NonNeg(x: int): nat {
    if x < 0 then 0 else x
  }

  lemma LoadStep(cbuf: seq<byte>, cptr: nat, d: nat)
    requires cptr < |cbuf| && cptr < 4 && d < Pow2(32)
    requires BitsOf(d, 32)[..8 * cptr] == BytesBits(cbuf[..cptr])
    requires BitsOf(d, 32)[8 * cptr..] == Zeros(32 - 8 * cptr)
    ensures Shl(cbuf[cptr], 24 - 8 * cptr) >= 0 && d + Shl(cbuf[cptr], 24 - 8 * cptr) < Pow2(32)
    ensures var w := BitsOf(d + Shl(cbuf[cptr], 24 - 8 * cptr), 32);
      w[..8 * cptr + 8] == BytesBits(cbuf[..cptr + 1]) && w[8 * cptr + 8..] == Zeros(24 - 8 * cptr)
  {
    hide BitsOf, Shl, BytesBits, Pow2, Zeros;
    Pow8();
    var left := 8 * cptr;
    OrBits(d, left, cbuf[cptr], 8);
    BytesBitsSnoc(cbuf, cptr);
    JoinTwo(BytesBits(cbuf[..cptr]) + BitsOf(cbuf[cptr], 8), Zeros(24 - left));
  }

  lemma JoinTwo<T>(a: seq<T>, b: seq<T>)
    ensures (a + b)[..|a|] == a && (a + b)[|a|..] == b
  {
  }

  /** d <<= m, then d >> (32 - n) reads the n bits behind the first m. */
  lemma FieldAfterShift(d: nat, m: nat, n: nat)
    requires m + n <= 32 && d < Pow2(32)
    ensures Shr(Shl32(d, m), 32 - n) == NatOf(BitsOf(d, 32)[m..m + n])
    ensures BitsOf(Shl32(Shl32(d, m), n), 32) == BitsOf(d, 32)[m + n..] + Zeros(m + n)
  {
    hide BitsOf, Shr, Shl32, Pow2, NatOf;
    Shl32Bits(d, m);
    Shl32Bits(Shl32(d, m), n);
    Shr32Bits(Shl32(d, m), n);
    assert BitsOf(Shl32(d, m), 32)[..n] == BitsOf(d, 32)[m..m + n];
    assert BitsOf(Shl32(d, m), 32)[n..] == BitsOf(d, 32)[m + n..] + Zeros(m);
    assert Zeros(m) + Zeros(n) == Zeros(m + n);
  }

  function Bit(b: bool): nat {
    if b then 1 else 0
  }

  /** The tests of d against a mask look at its first bits. */
  lemma TopTests(d: nat)
    requires d < Pow2(32)
    ensures var w := BitsOf(d, 32);
      && Shr(d, 31) == Bit(w[0])
      && Shr(d, 30) == 2 * Bit(w[0]) + Bit(w[1])
      && Shr(d, 29) == 4 * Bit(w[0]) + 2 * Bit(w[1]) + Bit(w[2])
      && Shr(d, 28) == 8 * Bit(w[0]) + 4 * Bit(w[1]) + 2 * Bit(w[2]) + Bit(w[3])
      && Shr(d, 27) == 16 * Bit(w[0]) + 8 * Bit(w[1]) + 4 * Bit(w[2]) + 2 * Bit(w[3]) + Bit(w[4])
  {
    hide BitsOf, Shr, Pow2, NatOf;
    var w := BitsOf(d, 32);
    Shr32Bits(d, 1);
    Shr32Bits(d, 2);
    Shr32Bits(d, 3);
    Shr32Bits(d, 4);
    Shr32Bits(d, 5);
    NatOfEmpty();
    assert w[..0] == [];
    NatOfNext(w, 0);
    NatOfNext(w, 1);
    NatOfNext(w, 2);
    NatOfNext(w, 3);
    NatOfNext(w, 4);
  }

  lemma NatOfNext(w: seq<bool>, n: nat)
    requires n < |w|
    ensures NatOf(w[..n + 1]) == 2 * NatOf(w[..n]) + Bit(w[n])
  {
    assert w[..n + 1][..n] == w[..n];
  }

  lemma {:induction false} NatOfOnes(c: nat)
    ensures NatOf(Ones(c) + [false]) == Pow2(c + 1) - 2
  {
    assert (Ones(c) + [false])[..c] == Ones(c);
    if c > 0 {
      var x := Ones(c - 1) + [false];
      NatOfOnes(c - 1);
      assert x[..c - 1] == Ones(c - 1);
      assert Ones(c)[..c - 1] == Ones(c - 1);
    }
  }

  /** The test for class c of a length code succeeds when exactly c ones come first. */
  lemma ClassTest(d: nat, c: nat)
    requires d < Pow2(32) && c <= 14
    ensures Shr(d, 31 - c) == Pow2(c + 1) - 2 <==> LeadingOnes(BitsOf(d, 32)) == c
  {
    hide BitsOf, Shr, NatOf, Pow2, Ones;
    var w := BitsOf(d, 32);
    Shr32Bits(d, c + 1);
    NatOfOnes(c);
    if NatOf(w[..c + 1]) == Pow2(c + 1) - 2 {
      NatInjective(w[..c + 1], Ones(c) + [false]);
      OnesPrefix(w, c);
    }
    if LeadingOnes(w) == c {
      PrefixOnes(w, c);
    }
  }

  lemma OnesPrefix(w: seq<bool>, c: nat)
    requires c < |w| && w[..c + 1] == Ones(c) + [false]
    ensures LeadingOnes(w) == c
  {
    LeadingOnesAt(w);
    forall i | 0 <= i < c
      ensures w[i]
    {
      assert w[i] == w[..c + 1][i];
    }
    assert !w[c] by {
      assert w[c] == w[..c + 1][c];
    }
  }

  lemma PrefixOnes(w: seq<bool>, c: nat)
    requires c < |w| && LeadingOnes(w) == c
    ensures w[..c + 1] == Ones(c) + [false]
  {
    LeadingOnesAt(w);
  }

  lemma DropNone<T>(s: seq<T>)
    ensures Drop(s, 0) == s
  {
  }

  /** Dropping bits from a padded view. */
  lemma PadDrop(w: seq<bool>, u: seq<bool>, left: int, n: nat)
    requires |w| == 32 && n <= 32 && left <= 32
    requires w[NonNeg(left)..] == Zeros(32 - NonNeg(left))
    ensures var w' := w[n..] + Zeros(n);
      && w'[NonNeg(left - n)..] == Zeros(32 - NonNeg(left - n))
      && (n <= left || u == [] ==> w'[..NonNeg(left - n)] + u == Drop(w[..NonNeg(left)] + u, n))
  {
    var w' := w[n..] + Zeros(n);
    var l' := NonNeg(left - n);
    forall i | l' <= i < 32
      ensures !w'[i]
    {
      if i + n < 32 {
        assert w'[i] == w[i + n] == w[NonNeg(left)..][i + n - NonNeg(left)];
      }
    }
    if n <= left {
      assert w'[..l'] == w[n..left];
      assert Drop(w[..left] + u, n) == w[n..left] + u;
    }
  }

  class Reservoir {
    const cbuf: seq<byte>
    var d32: nat
    var bitsLeft: int
    var cptr: nat
    var curByte: byte
    var curBitsLeft: nat

    ghost predicate Valid()
      reads this
    {
      && d32 < Pow2(32) && bitsLeft <= 32 && cptr <= |cbuf| && curBitsLeft <= 8
      && (curBitsLeft == 0 ==> cptr == |cbuf|)
      && (bitsLeft < 0 ==> curBitsLeft == 0)
      && BitsOf(d32, 32)[NonNeg(bitsLeft)..] == Zeros(32 - NonNeg(bitsLeft))
    }

    /** Loads the first four bytes of the packet into the word and fetches the fifth. */
    constructor (data: seq<byte>)
      ensures Valid() && Full() && bitsLeft >= 0 && cbuf == data && Unread() == BytesBits(data)
    {
      cbuf := data;
      d32 := 0;
      bitsLeft := 0;
      cptr := 0;
      curByte := 0;
      curBitsLeft := 0;
      new;
      hide BitsOf, BytesBits, Pow2, Zeros;
      LoadWord();
      BytesBitsSplit(cbuf, cptr);
      NextByte();
    }

    /** The first bytes of the packet, most significant first. */
    method LoadWord()
      requires d32 == 0 && bitsLeft == 0 && cptr == 0
      modifies this`d32, this`bitsLeft, this`cptr
      ensures d32 < Pow2(32) && cptr == Min(4, |cbuf|) && bitsLeft == 8 * cptr
      ensures BitsOf(d32, 32)[..bitsLeft] == BytesBits(cbuf[..cptr])
      ensures BitsOf(d32, 32)[bitsLeft..] == Zeros(32 - bitsLeft)
    {
      hide BitsOf, Shr, Shl, Pow2, BytesBits;
      var tmp: int := 24;
      BitsOfZero(32);
      PowPositive(32);
      BytesBitsEmpty();
      assert cbuf[..0] == [];
      while cptr < |cbuf|
        invariant cptr <= 4 && cptr <= |cbuf| && bitsLeft == 8 * cptr && tmp == 24 - bitsLeft && tmp >= 0
        invariant d32 < Pow2(32) && BitsOf(d32, 32)[..bitsLeft] == BytesBits(cbuf[..cptr])
        invariant BitsOf(d32, 32)[bitsLeft..] == Zeros(32 - bitsLeft)
      {
        var i32 := cbuf[cptr];
        LoadStep(cbuf, cptr, d32);
        cptr := cptr + 1;
        d32 := d32 + Shl(i32, tmp);
        bitsLeft := bitsLeft + 8;
        tmp := tmp - 8;
        if tmp < 0 {
          break;
        }
      }
    }

    /** The bits of the packet that are not in the word yet. */
    ghost function Outside(): seq<bool>
      requires Valid()
      reads this
    {
      BitsOf(curByte, 8)[..curBitsLeft] + BytesBits(cbuf[cptr..])
    }

    /** The unread suffix of the packet. */
    ghost function Unread(): seq<bool>
      requires Valid()
      reads this
    {
      BitsOf(d32, 32)[..NonNeg(bitsLeft)] + Outside()
    }

    /** The word holds the next 32 bits, or all that are left. */
    ghost predicate Full()
      reads this
    {
      bitsLeft == 32 || curBitsLeft == 0
    }

    /** What the word shows of the unread bits once it is full. */
    lemma View()
      requires Valid() && Full()
      ensures BitsOf(d32, 32) == Pad32(Unread())
      ensures bitsLeft >= 8 <==> |Unread()| >= 8
      ensures curBitsLeft == 0 ==> |Unread()| == NonNeg(bitsLeft)
      ensures curBitsLeft != 0 ==> bitsLeft == 32
    {
      hide BitsOf, BytesBits;
      var w := BitsOf(d32, 32);
      if curBitsLeft == 0 {
        BytesBitsEmpty();
        assert cbuf[cptr..] == [];
        assert Outside() == [];
        assert w == w[..NonNeg(bitsLeft)] + w[NonNeg(bitsLeft)..];
      } else {
        assert w[..32] == w;
        assert Take(Unread(), 32) == w;
      }
    }

    /** Fetches the next byte of the packet, if there is one. */
    method NextByte()
      requires cptr <= |cbuf|
      modifies this`curByte, this`curBitsLeft, this`cptr
      ensures cptr <= |cbuf| && curBitsLeft <= 8 && (curBitsLeft == 0 ==> cptr == |cbuf|)
      ensures BitsOf(curByte, 8)[..curBitsLeft] + BytesBits(cbuf[cptr..]) == BytesBits(cbuf[old(cptr)..])
      ensures old(cptr) < |cbuf| ==> cptr == old(cptr) + 1 && curBitsLeft == 8
      ensures old(cptr) == |cbuf| ==> cptr == old(cptr) && curBitsLeft == 0
    {
      if cptr < |cbuf| {
        curByte := cbuf[cptr];
        assert cbuf[cptr..][1..] == cbuf[cptr + 1..];
        cptr := cptr + 1;
        curBitsLeft := 8;
      } else {
        curBitsLeft := 0;
      }
    }

    /** Ors the top n bits of the current byte into the word. */
    method Absorb(n: nat)
      requires Valid() && 0 <= bitsLeft && bitsLeft + n <= 32 && n <= curBitsLeft
      modifies this`d32, this`bitsLeft
      ensures bitsLeft == old(bitsLeft) + n && d32 < Pow2(32)
      ensures BitsOf(d32, 32)[bitsLeft..] == Zeros(32 - bitsLeft)
      ensures BitsOf(d32, 32)[..bitsLeft] == BitsOf(old(d32), 32)[..old(bitsLeft)] + BitsOf(curByte, 8)[..n]
    {
      hide BitsOf, Shr, Shl, Pow2;
      AbsorbBits(d32, bitsLeft, curByte, n);
      d32 := d32 + Shl(Shr(curByte, 8 - n), 32 - bitsLeft - n);
      bitsLeft := bitsLeft + n;
    }

    /** Skips m bits of the word and takes the n bits behind them. */
    method TakeField(m: nat, n: nat) returns (v: nat)
      requires Valid() && Full() && m + n <= 32
      modifies this`d32, this`bitsLeft
      ensures Valid() && Unread() == Drop(old(Unread()), m + n)
      ensures v == NatOf(Pad32(old(Unread()))[m..m + n])
    {
      hide BitsOf, Shr, Shl32, Pow2, BytesBits, NatOf, Pad32, Zeros, Drop;
      View();
      FieldAfterShift(d32, m, n);
      PadDrop(BitsOf(d32, 32), Outside(), bitsLeft, m + n);
      if curBitsLeft == 0 {
        BytesBitsEmpty();
        assert cbuf[cptr..] == [];
        assert Outside() == [];
      }
      d32 := Shl32(d32, m);
      v := Shr(d32, 32 - n);
      d32 := Shl32(d32, n);
      bitsLeft := bitsLeft - (m + n);
    }

    /** Decodes a literal or a copy offset. */
    method GetHead(form: Form) returns (h: Head)
      requires Valid() && Full() && bitsLeft >= 8
      modifies this`d32, this`bitsLeft
      ensures Valid() && h == ReadHead(form, Pad32(old(Unread()))) && Unread() == Drop(old(Unread()), h.bits)
    {
      hide BitsOf, Shr, Shl32, Pow2, BytesBits, NatOf, Pad32, Drop;
      View();
      TopTests(d32);
      ghost var w := Pad32(Unread());
      var v;
      if Shr(d32, 31) == 0 {
        v := TakeField(0, 8);
        assert w[0..8] == w[..8];
        ByteBound(w[..8]);
        h := Byte(v, 8);
      } else if Shr(d32, 30) == 2 {
        v := TakeField(2, 7);
        ByteBound7(w[2..9]);
        h := Byte(v + 0x80, 9);
      } else if form == Rdp4 {
        if Shr(d32, 28) == 15 {
          v := TakeField(4, 6);
          h := Offset(v, 10);
        } else if Shr(d32, 28) == 14 {
          v := TakeField(4, 8);
          h := Offset(v + 64, 12);
        } else {
          v := TakeField(3, 13);
          h := Offset(v + 320, 16);
        }
      } else {
        if Shr(d32, 27) == 31 {
          v := TakeField(5, 6);
          h := Offset(v, 11);
        } else if Shr(d32, 27) == 30 {
          v := TakeField(5, 8);
          h := Offset(v + 64, 13);
        } else if Shr(d32, 28) == 14 {
          v := TakeField(4, 11);
          h := Offset(v + 320, 15);
        } else {
          v := TakeField(3, 16);
          h := Offset((v + 2368) % 0x1_0000, 19);
        }
      }
    }

    /** Decodes a length of match: the classes of the table are tried in order, shortest prefix first. */
    method GetLength(form: Form) returns (length: nat, ghost bits: nat)
      requires Valid() && Full()
      modifies this`d32, this`bitsLeft
      ensures Valid() && Match(length, bits) == ReadLength(form, Pad32(old(Unread())))
      ensures Unread() == Drop(old(Unread()), bits)
    {
      hide BitsOf, Shr, Shl32, Pow2, BytesBits, NatOf, Pad32, Drop;
      View();
      ghost var w := Pad32(Unread());
      var c := 0;
      while c <= MaxClass(form) && Shr(d32, 31 - c) != Pow2(c + 1) - 2
        modifies {}
        invariant c <= MaxClass(form) + 1 && LeadingOnes(w) >= c
      {
        ClassTest(d32, c);
        c := c + 1;
      }
      if c == 0 {
        ClassTest(d32, c);
        var _ := TakeField(0, 1);
        length, bits := 3, 1;
      } else if c <= MaxClass(form) {
        ClassTest(d32, c);
        var v := TakeField(c + 1, c + 1);
        length, bits := v + Pow2(c + 1), 2 * c + 2;
      } else {
        length, bits := 0, 0;
        DropNone(Unread());
      }
    }

    /** Fills the word from the packet. */
    method Refill()
      requires Valid()
      modifies this`d32, this`bitsLeft, this`curByte, this`curBitsLeft, this`cptr
      ensures Valid() && Full() && Unread() == old(Unread())
    {
      hide BitsOf, Shr, Shl, Pow2, BytesBits;
      var tmp: int := 32 - bitsLeft;
      if bitsLeft < 0 {
        // nothing is left in the packet and nothing is added to the word
        return;
      }
      while tmp != 0
        invariant Valid() && 0 <= bitsLeft && (tmp == 32 - bitsLeft || (tmp == 0 && curBitsLeft == 0))
        invariant Unread() == old(Unread())
        decreases tmp, |cbuf| - cptr
      {
        ghost var word, bits, tail := BitsOf(d32, 32)[..bitsLeft], BitsOf(curByte, 8)[..curBitsLeft], BytesBits(cbuf[cptr..]);
        if curBitsLeft < tmp {
          Absorb(curBitsLeft);
          tmp := tmp - curBitsLeft;
          ConcatAssoc(word, bits, tail);
          var more := cptr < |cbuf|;
          NextByte();
          if !more {
            tmp := 0;
          }
        } else if curBitsLeft > tmp {
          Absorb(tmp);
          ByteShift(curByte, tmp, curBitsLeft);
          SplitMiddle(word, BitsOf(curByte, 8), tmp, curBitsLeft, tail);
          curByte := ShlByte(curByte, tmp);
          curBitsLeft := curBitsLeft - tmp;
          break;
        } else {
          Absorb(tmp);
          ConcatAssoc(word, bits, tail);
          NextByte();
          break;
        }
      }
    }
  }

  lemma ByteBound(b: seq<bool>)
    requires |b| == 8
    ensures NatOf(b) < 0x100
  {
    NatBound(b);
  }

  lemma ByteBound7(b: seq<bool>)
    requires |b| == 7
    ensures NatOf(b) < 0x80
  {
    NatBound(b);
  }

  lemma BytesBitsEmpty()
    ensures BytesBits([]) == []
  {
  }

  lemma SplitMiddle<T>(a: seq<T>, b: seq<T>, n: nat, k: nat, c: seq<T>)
    requires n <= k <= |b|
    ensures (a + b[..n]) + (b[n..k] + c) == a + (b[..k] + c)
  {
    assert b[..n] + b[n..k] == b[..k];
  }
}

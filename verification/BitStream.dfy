/** The RemoteFX bit stream: a byte buffer with a byte position and a count of bits left in that byte. */
module BitStreams {
  import opened Bits

  /** The C statements v &= ~(mask << shift); v |= f << shift, where mask has width one bits. */
  function SetField(v: nat, shift: nat, width: nat, f: nat): (r: int)
  {
    v - Shl(Field(v, shift, width), shift) + Shl(f, shift)
  }

  /** Overwriting a field of a byte replaces those bits and keeps the others. */
  lemma SetFieldBits(v: byte, shift: nat, width: nat, f: nat)
    requires shift + width <= 8 && f < Pow2(width)
    ensures 0 <= SetField(v, shift, width, f) < 0x100
    ensures BitsOf(SetField(v, shift, width, f), 8)
         == BitsOf(v, 8)[..8 - shift - width] + BitsOf(f, width) + BitsOf(v, 8)[8 - shift..]
  {
    hide BitsOf, Shl, Shr, Low, Pow2;
    var top := 8 - shift - width;
    var f0 := Field(v, shift, width);
    var q, r := Shr(Shr(v, shift), width), Low(v, shift);
    ShrLow(v, shift);
    ShrLow(Shr(v, shift), width);
    ShlAdd(Shl(q, width), f0, shift);
    ShlAdd(Shl(q, width), f, shift);
    BitsJoin(q, f0, top, width);
    BitsJoin(q, f, top, width);
    BitsJoin(Shl(q, width) + f0, r, top + width, shift);
    BitsJoin(Shl(q, width) + f, r, top + width, shift);
    ByteBound(q, f0, f, r, top, width, shift);
    assert BitsOf(v, 8) == BitsOf(q, top) + BitsOf(f0, width) + BitsOf(r, shift);
    assert SetField(v, shift, width, f) == Shl(Shl(q, width) + f, shift) + r;
    JoinThree(BitsOf(q, top), BitsOf(f0, width), BitsOf(r, shift));
  }

  lemma JoinThree<T>(a: seq<T>, b: seq<T>, c: seq<T>)
    ensures (a + b + c)[..|a|] == a && (a + b + c)[|a| + |b|..] == c
  {
  }

  lemma ByteBound(q: nat, f0: nat, f: nat, r: nat, top: nat, width: nat, shift: nat)
    requires top + width + shift == 8 && f < Pow2(width) && r < Pow2(shift)
    requires 0 <= Shl(Shl(q, width) + f0, shift) + r < 0x100
    ensures Shl(Shl(q, width) + f, shift) + r < 0x100
  {
    hide Shl, Pow2;
    Pow8();
    ShlPow(top, width);
    ShlPow(top + width, shift);
    if q >= Pow2(top) {
      ShlMono(Pow2(top), q, width);
      ShlMono(Pow2(top + width), Shl(q, width) + f0, shift);
    } else {
      ShlMono(q + 1, Pow2(top), width);
      ShlAdd(q, 1, width);
      PowShl(width);
      ShlMono(Shl(q, width) + f + 1, Pow2(top + width), shift);
      ShlAdd(Shl(q, width) + f, 1, shift);
      PowShl(shift);
    }
  }

  /** Dropping high bits before a shift loses nothing in the low 16 bits. */
  lemma ModStep(x: nat, n: nat, f: nat)
    ensures Shl(x % 0x1_0000, n) + f >= 0 && Shl(x, n) + f >= 0
    ensures (Shl(x % 0x1_0000, n) + f) % 0x1_0000 == (Shl(x, n) + f) % 0x1_0000
  {
    hide Shl;
    ShlNat(x, n);
    ShlNat(x % 0x1_0000, n);
    var k := ModGap(x, n);
    ModSame(Shl(x % 0x1_0000, n) + f, k);
  }

  lemma {:induction false} ModGap(x: nat, n: nat) returns (k: int)
    ensures Shl(x, n) == Shl(x % 0x1_0000, n) + 0x1_0000 * k
  {
    if n == 0 {
      k := x / 0x1_0000;
    } else {
      k := ModGap(x, n - 1);
      k := 2 * k;
    }
  }

  lemma ModSame(y: int, k: int)
    ensures (y + 0x1_0000 * k) % 0x1_0000 == y % 0x1_0000
  {
  }

  /** Replacing part of an eight-element window is replacing that part of the whole. */
  lemma Splice<T>(c: seq<T>, a: nat, off: nat, f: seq<T>)
    requires a + 8 <= |c| && off + |f| <= 8
    ensures c[..a] + (c[a..a + 8][..off] + f + c[a..a + 8][off + |f|..]) + c[a + 8..]
         == c[..a + off] + f + c[a + off + |f|..]
  {
  }

  /** Storing a field of a byte changes those bits of the byte string only. */
  lemma StoreAt(s: seq<byte>, i: nat, left: nat, b: nat, f: nat)
    requires i < |s| && b <= left <= 8 && f < Pow2(b)
    ensures 0 <= SetField(s[i], left - b, b, f) < 0x100
    ensures BytesBits(s[i := SetField(s[i], left - b, b, f)])
         == BytesBits(s)[..8 * i + 8 - left] + BitsOf(f, b) + BytesBits(s)[8 * i + 8 - left + b..]
  {
    hide BitsOf, BytesBits, SetField, Pow2;
    SetFieldBits(s[i], left - b, b, f);
    ReplaceByte(s, i, SetField(s[i], left - b, b, f), 8 - left, BitsOf(f, b));
  }

  lemma ReplaceByte(s: seq<byte>, i: nat, v: byte, off: nat, f: seq<bool>)
    requires i < |s| && off + |f| <= 8
    requires BitsOf(v, 8) == BitsOf(s[i], 8)[..off] + f + BitsOf(s[i], 8)[off + |f|..]
    ensures BytesBits(s[i := v]) == BytesBits(s)[..8 * i + off] + f + BytesBits(s)[8 * i + off + |f|..]
  {
    hide BitsOf, BytesBits;
    BytesBitsAt(s, i);
    BytesBitsUpdate(s, i, v);
    Splice(BytesBits(s), 8 * i, off, f);
  }

  /** Appending b bits to a partial read is a shift and an or. */
  lemma ReadStep(content: seq<bool>, start: nat, pos: nat, b: nat)
    requires start <= pos && pos + b <= |content|
    ensures Shl(NatOf(content[start..pos]) % 0x1_0000, b) >= 0
    ensures (Shl(NatOf(content[start..pos]) % 0x1_0000, b) + NatOf(content[pos..pos + b])) % 0x1_0000
         == NatOf(content[start..pos + b]) % 0x1_0000
  {
    assert content[start..pos] + content[pos..pos + b] == content[start..pos + b];
    NatConcat(content[start..pos], content[pos..pos + b]);
    ShlNat(NatOf(content[start..pos]) % 0x1_0000, b);
    ModStep(NatOf(content[start..pos]), b, NatOf(content[pos..pos + b]));
  }

  lemma TakeDropSlice<T>(s: seq<T>, start: nat, n: nat)
    requires start <= |s|
    ensures Take(s[start..], n) == s[start..Min(start + n, |s|)]
    ensures Drop(s[start..], n) == s[Min(start + n, |s|)..]
  {
  }

  /** Appending b bits to a partial write. */
  lemma WriteStep(content: seq<bool>, word: seq<bool>, start: nat, pos: nat, b: nat)
    requires start <= pos && pos + b <= |content| && pos - start + b <= |word|
    ensures (content[..start] + word[..pos - start] + content[pos..])[..pos]
            + word[pos - start..pos - start + b]
            + (content[..start] + word[..pos - start] + content[pos..])[pos + b..]
         == content[..start] + word[..pos + b - start] + content[pos + b..]
  {
    assert word[..pos - start] + word[pos - start..pos - start + b] == word[..pos + b - start];
  }

  /** The n bits that a write of v as a 16-bit number emits. */
  function Word16(v: nat, n: nat): (r: seq<bool>)
    ensures |r| == n
  {
    BitsOf(v % 0x1_0000, n)
  }

  /** Storing the next b bits of a word extends the part of it that is already in place. */
  lemma PutStep(content: seq<bool>, v: nat, n: nat, start: nat, pos: nat, b: nat)
    requires start <= pos && pos + b <= |content| && pos - start + b <= n
    ensures (content[..start] + Word16(v, n)[..pos - start] + content[pos..])[..pos]
            + BitsOf(Field(v % 0x1_0000, n - (pos - start) - b, b), b)
            + (content[..start] + Word16(v, n)[..pos - start] + content[pos..])[pos + b..]
         == content[..start] + Word16(v, n)[..pos + b - start] + content[pos + b..]
  {
    hide BitsOf, Field;
    FieldBits(v % 0x1_0000, n, n - (pos - start) - b, b);
    WriteStep(content, Word16(v, n), start, pos, b);
  }

  class BitStream {
    var buffer: array<byte>
    var nbytes: nat
    var bytePos: nat
    var bitsLeft: nat

    ghost predicate Valid()
      reads this
    {
      && bytePos <= nbytes <= buffer.Length
      && 1 <= bitsLeft <= 8
      && (bytePos == nbytes ==> bitsLeft == 8)
    }

    /** All the bits of the attached buffer. */
    ghost function Content(): seq<bool>
      requires Valid()
      reads this, buffer
    {
      BytesBits(buffer[..nbytes])
    }

    /** The number of bits already read or written. */
    ghost function Pos(): (p: nat)
      requires Valid()
      ensures p <= 8 * nbytes
      reads this
    {
      8 * bytePos + 8 - bitsLeft
    }

    /** The bits still to be read. */
    ghost function Rest(): seq<bool>
      requires Valid()
      reads this, buffer
    {
      Content()[Pos()..]
    }

    /** The stream holds what was emitted so far, up to its capacity, over its original bytes. */
    ghost predicate Holds(emitted: seq<bool>, original: seq<byte>)
      requires Valid()
      reads this, buffer
    {
      && |original| == buffer.Length
      && Pos() == Min(|emitted|, 8 * nbytes)
      && Content() == emitted[..Pos()] + BytesBits(original[..nbytes])[Pos()..]
      && buffer[nbytes..] == original[nbytes..]
    }

    constructor Attach(data: array<byte>, size: nat)
      requires size <= data.Length
      ensures Valid() && buffer == data && nbytes == size && Pos() == 0
    {
      buffer := data;
      nbytes := size;
      bytePos := 0;
      bitsLeft := 8;
    }

    /** Nothing emitted yet. */
    lemma StartHolds(original: seq<byte>)
      requires Valid() && Pos() == 0 && buffer[..] == original
      ensures Holds([], original)
    {
      hide BytesBits;
      assert buffer[..nbytes] == original[..nbytes] && buffer[nbytes..] == original[nbytes..];
      assert Content() == [] + Content();
    }

    predicate Eos()
      reads this
    {
      bytePos >= nbytes
    }

    /** Counts the bytes touched so far, including a partly used one. */
    method ProcessedBytes() returns (n: nat)
      requires Valid()
      ensures n <= nbytes && n == (Pos() + 7) / 8
    {
      n := if bitsLeft < 8 then bytePos + 1 else bytePos;
    }

    /** The unread part of the current byte is where the rest of the stream starts. */
    lemma CurrentBits(b: nat)
      requires Valid() && !Eos() && b <= bitsLeft
      ensures Pos() + b <= 8 * nbytes
      ensures Content()[Pos()..Pos() + b] == BitsOf(Field(buffer[bytePos], bitsLeft - b, b), b)
      ensures NatOf(Content()[Pos()..Pos() + b]) == Field(buffer[bytePos], bitsLeft - b, b)
    {
      hide NatOf, Field, BytesBits, BitsOf;
      BytesBitsAt(buffer[..nbytes], bytePos);
      var v := buffer[bytePos];
      assert Content()[Pos()..Pos() + b] == BitsOf(v, 8)[8 - bitsLeft..8 - bitsLeft + b];
      FieldBits(v, 8, bitsLeft - b, b);
    }

    /** Moves the position past b bits of the current byte. */
    method Advance(b: nat)
      requires Valid() && !Eos() && b <= bitsLeft
      modifies this`bytePos, this`bitsLeft
      ensures Valid() && Pos() == old(Pos()) + b
    {
      bitsLeft := bitsLeft - b;
      if bitsLeft == 0 {
        bitsLeft := 8;
        bytePos := bytePos + 1;
      }
    }

    /** Reads up to n bits; fewer at the end of the stream. The result is kept in 16 bits. */
    method GetBits(n: nat) returns (r: nat)
      requires Valid()
      modifies this`bytePos, this`bitsLeft
      ensures Valid()
      ensures Pos() == Min(old(Pos()) + n, 8 * nbytes)
      ensures r == NatOf(Take(old(Rest()), n)) % 0x1_0000
      ensures Rest() == Drop(old(Rest()), n)
    {
      hide NatOf, Shl, Field, BytesBits;
      var nbits: nat := n;
      r := 0;
      NatOfEmpty();
      ghost var content, start := Content(), Pos();
      assert content[start..start] == [];
      while !Eos() && nbits > 0
        invariant Valid() && Content() == content
        invariant start <= Pos() && Pos() + nbits == start + n
        invariant r == NatOf(content[start..Pos()]) % 0x1_0000
        decreases nbits
      {
        var b := Min(nbits, bitsLeft);
        CurrentBits(b);
        ReadStep(content, start, Pos(), b);
        r := (Shl(r, b) + Field(buffer[bytePos], bitsLeft - b, b)) % 0x1_0000;
        Advance(b);
        nbits := nbits - b;
      }
      TakeDropSlice(content, start, n);
    }

    /** Stores the next b bits of a word in the current byte and moves past them. */
    method PutField(f: nat, b: nat)
      requires Valid() && !Eos() && b <= bitsLeft && f < Pow2(b)
      modifies this`bytePos, this`bitsLeft, buffer
      ensures Valid() && Pos() == old(Pos()) + b
      ensures Content() == old(Content())[..old(Pos())] + BitsOf(f, b) + old(Content())[Pos()..]
      ensures buffer[nbytes..] == old(buffer[nbytes..])
    {
      hide BitsOf, BytesBits, SetField, Pow2;
      ghost var s := buffer[..nbytes];
      StoreAt(s, bytePos, bitsLeft, b, f);
      buffer[bytePos] := SetField(buffer[bytePos], bitsLeft - b, b, f);
      assert buffer[..nbytes] == s[bytePos := buffer[bytePos]];
      Advance(b);
    }

    /** What the stream holds once part of a word, from start on, has been written over its content. */
    ghost predicate Partly(content: seq<bool>, word: seq<bool>, start: nat)
      requires Valid()
      reads this, buffer
    {
      && start <= Pos() <= |content| && Pos() - start <= |word|
      && Content() == content[..start] + word[..Pos() - start] + content[Pos()..]
    }

    /** Writes as many of the remaining bits as the current byte takes. */
    method PutPart(bits: nat, nbits: nat, ghost v: nat, ghost n: nat, ghost content: seq<bool>, ghost start: nat) returns (b: nat)
      requires Valid() && !Eos() && nbits > 0 && bits == v % 0x1_0000 && |content| == 8 * nbytes
      requires Partly(content, Word16(v, n), start) && Pos() + nbits == start + n
      modifies this`bytePos, this`bitsLeft, buffer
      ensures Valid() && 0 < b <= nbits && Pos() == old(Pos()) + b
      ensures Partly(content, Word16(v, n), start)
      ensures buffer[nbytes..] == old(buffer[nbytes..])
    {
      hide BitsOf, Field, BytesBits, Word16, Pow2;
      b := Min(nbits, bitsLeft);
      assert Pos() + b <= 8 * nbytes;
      PutStep(content, v, n, start, Pos(), b);
      PutField(Field(bits, nbits - b, b), b);
    }

    /** Writes the low n bits of v, taken as a 16-bit number; bits past the end of the buffer are dropped. */
    method PutBits(v: nat, n: nat)
      requires Valid()
      modifies this`bytePos, this`bitsLeft, buffer
      ensures Valid()
      ensures Pos() == Min(old(Pos()) + n, 8 * nbytes)
      ensures Content() == old(Content())[..old(Pos())]
                         + Word16(v, n)[..Pos() - old(Pos())]
                         + old(Content())[Pos()..]
      ensures buffer[nbytes..] == old(buffer[nbytes..])
    {
      hide BytesBits, Word16;
      var bits := v % 0x1_0000;
      var nbits: nat := n;
      ghost var content, start := Content(), Pos();
      assert content == content[..start] + content[start..];
      while !Eos() && nbits > 0
        invariant Valid() && Pos() + nbits == start + n
        invariant Partly(content, Word16(v, n), start)
        invariant buffer[nbytes..] == old(buffer[nbytes..])
        decreases nbits
      {
        var b := PutPart(bits, nbits, v, n, content, start);
        nbits := nbits - b;
      }
    }
  }
}

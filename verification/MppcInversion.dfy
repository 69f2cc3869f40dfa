/** Parsing undoes the MPPC token codes, for every token sequence a form can express. */
module MppcInversion {
  import opened Bits
  import opened MppcSpec

  /** The bits of a code that starts a stream are seen in the 32-bit view. */
  lemma PadPrefix(code: seq<bool>, rest: seq<bool>)
    requires |code| <= 32
    ensures Pad32(code + rest)[..|code|] == code
    ensures Drop(code + rest, |code|) == rest
  {
  }

  /** A prefix and a number behind it are read back from a view that starts with them. */
  lemma ReadBack(w: seq<bool>, prefix: seq<bool>, v: nat, n: nat)
    requires |w| == 32 && |prefix| + n <= 32 && v < Pow2(n)
    requires w[..|prefix| + n] == prefix + BitsOf(v, n)
    ensures NatOf(w[|prefix|..|prefix| + n]) == v
    ensures w[..|prefix|] == prefix
  {
    hide NatOf, BitsOf, Pow2;
    assert w[|prefix|..|prefix| + n] == w[..|prefix| + n][|prefix|..] == BitsOf(v, n);
    assert w[..|prefix|] == w[..|prefix| + n][..|prefix|];
    NatOfBitsOf(v, n);
    LowSmall(v, n);
  }

  lemma SmallPowers()
    ensures Pow2(6) == 64 && Pow2(7) == 128 && Pow2(8) == 256 && Pow2(11) == 2048 && Pow2(13) == 8192 && Pow2(16) == 0x1_0000
  {
    assert Pow2(8) == 256;
    PowAt13();
    Pow16();
  }

  lemma LiteralHead(form: Form, b: byte, w: seq<bool>)
    requires |w| == 32 && |LiteralCode(b)| <= 9
    requires w[..|LiteralCode(b)|] == LiteralCode(b)
    ensures ReadHead(form, w) == Byte(b, |LiteralCode(b)|)
  {
    hide NatOf, BitsOf, Pow2;
    SmallPowers();
    if b < 0x80 {
      TopBit(b);
      ReadBack(w, [false], b, 7);
      ReadBack(w, [], b, 8);
      assert w[..8] == w[0..8];
      assert w[..1][0] == w[0];
    } else {
      ReadBack(w, [true, false], b - 0x80, 7);
      assert w[0] == w[..2][0] && w[1] == w[..2][1];
    }
  }

  lemma TopBit(b: byte)
    requires b < 0x80
    ensures BitsOf(b, 8) == [false] + BitsOf(b, 7) && [] + BitsOf(b, 8) == BitsOf(b, 8)
  {
    assert Pow2(7) == 0x80;
    BitsSplit(b, 1, 7);
    ShrSmall(b, 7);
  }

  lemma {:induction false} ShrSmall(v: nat, n: nat)
    requires v < Pow2(n)
    ensures Shr(v, n) == 0
  {
    if n > 0 {
      ShrSmall(v / 2, n - 1);
    }
  }

  lemma OffsetHead4(offset: nat, w: seq<bool>)
    requires |w| == 32 && 1 <= offset <= 8511
    requires w[..|OffsetCode(Rdp4, offset)|] == OffsetCode(Rdp4, offset)
    ensures ReadHead(Rdp4, w) == Offset(offset, |OffsetCode(Rdp4, offset)|)
  {
    hide NatOf, BitsOf, Pow2;
    SmallPowers();
    if offset < 64 {
      ReadBack(w, [true, true, true, true], offset, 6);
      Heads4(w, [true, true, true, true]);
    } else if offset < 320 {
      ReadBack(w, [true, true, true, false], offset - 64, 8);
      Heads4(w, [true, true, true, false]);
    } else {
      ReadBack(w, [true, true, false], offset - 320, 13);
      Heads3(w, [true, true, false]);
    }
  }

  lemma Heads3(w: seq<bool>, p: seq<bool>)
    requires |w| == 32 && |p| == 3 && w[..3] == p
    ensures w[0] == p[0] && w[1] == p[1] && w[2] == p[2]
  {
    assert w[..3][0] == w[0] && w[..3][1] == w[1] && w[..3][2] == w[2];
  }

  lemma Heads4(w: seq<bool>, p: seq<bool>)
    requires |w| == 32 && |p| == 4 && w[..4] == p
    ensures w[0] == p[0] && w[1] == p[1] && w[2] == p[2] && w[3] == p[3]
  {
    assert w[..4][0] == w[0] && w[..4][1] == w[1] && w[..4][2] == w[2] && w[..4][3] == w[3];
  }

  lemma Heads5(w: seq<bool>, p: seq<bool>)
    requires |w| == 32 && |p| == 5 && w[..5] == p
    ensures w[0] == p[0] && w[1] == p[1] && w[2] == p[2] && w[3] == p[3] && w[4] == p[4]
  {
    assert w[..5][0] == w[0] && w[..5][1] == w[1] && w[..5][2] == w[2] && w[..5][3] == w[3] && w[..5][4] == w[4];
  }

  lemma OffsetHead5(offset: nat, w: seq<bool>)
    requires |w| == 32 && 1 <= offset <= 65535
    requires w[..|OffsetCode(Rdp5, offset)|] == OffsetCode(Rdp5, offset)
    ensures ReadHead(Rdp5, w) == Offset(offset, |OffsetCode(Rdp5, offset)|)
  {
    hide NatOf, BitsOf, Pow2;
    SmallPowers();
    if offset < 64 {
      ReadBack(w, [true, true, true, true, true], offset, 6);
      Heads5(w, [true, true, true, true, true]);
    } else if offset < 320 {
      ReadBack(w, [true, true, true, true, false], offset - 64, 8);
      Heads5(w, [true, true, true, true, false]);
    } else if offset < 2368 {
      ReadBack(w, [true, true, true, false], offset - 320, 11);
      Heads4(w, [true, true, true, false]);
    } else {
      ReadBack(w, [true, true, false], offset - 2368, 16);
      Heads3(w, [true, true, false]);
    }
  }

  lemma {:induction false} OnesThenZero(w: seq<bool>, c: nat)
    requires c < |w| && !w[c] && forall i :: 0 <= i < c ==> w[i]
    ensures LeadingOnes(w) == c
  {
    if c > 0 {
      OnesThenZero(w[1..], c - 1);
    }
  }

  lemma {:induction false} ClassBound(length: nat, c: nat)
    requires 3 <= length < Pow2(c + 2)
    ensures LengthClass(length) <= c
    decreases length
  {
    assert Pow2(2) == 4 && Pow2(3) == 8;
    if length >= 8 {
      if c < 2 {
        PowMono(c + 2, 3);
      }
      ClassBound(length / 2, c - 1);
    }
  }

  lemma LengthBits(form: Form, length: nat)
    requires 3 <= length <= (if form == Rdp4 then 8191 else 65535)
    ensures LengthClass(length) <= MaxClass(form)
    ensures |LengthCode(length)| == (if LengthClass(length) == 0 then 1 else 2 * LengthClass(length) + 2) <= 30
  {
    hide BitsOf, Ones, Pow2, LengthClass;
    SmallPowers();
    ClassBound(length, MaxClass(form));
  }

  lemma LengthBack(form: Form, length: nat, w: seq<bool>)
    requires |w| == 32 && 3 <= length <= (if form == Rdp4 then 8191 else 65535)
    requires |LengthCode(length)| <= 30 && w[..|LengthCode(length)|] == LengthCode(length)
    ensures ReadLength(form, w) == Match(length, |LengthCode(length)|)
  {
    hide NatOf, BitsOf, Pow2, LengthClass, MaxClass;
    LengthBits(form, length);
    var c := LengthClass(length);
    if c == 0 {
      assert w[0] == w[..1][0];
      OnesThenZero(w, 0);
    } else {
      PowDouble(c + 1);
      ReadBack(w, Ones(c) + [false], length - Pow2(c + 1), c + 1);
      forall i | 0 <= i < c
        ensures w[i]
      {
        assert w[i] == w[..c + 1][i];
      }
      assert w[c] == w[..c + 1][c];
      OnesThenZero(w, c);
    }
  }

  lemma ParseLiteral(form: Form, b: seq<bool>, v: byte, n: nat)
    requires |b| >= 8 && ReadHead(form, Pad32(b)) == Byte(v, n)
    ensures Parse(form, b) == [Literal(v)] + Parse(form, Drop(b, n))
  {
    hide Pad32, ReadHead, ReadLength, Drop;
  }

  lemma ParseCopy(form: Form, b: seq<bool>, offset: nat, n: nat, m: Match)
    requires |b| >= 8 && ReadHead(form, Pad32(b)) == Offset(offset, n) && offset != 0
    requires ReadLength(form, Pad32(Drop(b, n))) == m
    ensures Parse(form, b) == [Copy(offset, m.length)] + Parse(form, Drop(Drop(b, n), m.bits))
  {
    hide Pad32, ReadHead, ReadLength, Drop;
  }

  /** One parsing turn takes one token's code off the front of the stream. */
  lemma TokenBack(form: Form, t: Token, rest: seq<bool>)
    requires Encodable(form, t)
    ensures Parse(form, TokenCode(form, t) + rest) == [t] + Parse(form, rest)
  {
    hide Pad32, ReadHead, ReadLength, BitsOf, LengthCode, Drop, Parse;
    match t
    case Literal(v) =>
      var b := LiteralCode(v) + rest;
      PadPrefix(LiteralCode(v), rest);
      LiteralHead(form, v, Pad32(b));
      ParseLiteral(form, b, v, |LiteralCode(v)|);
    case Copy(offset, length) =>
      CopyBack(form, offset, length, rest);
  }

  lemma CopyBack(form: Form, offset: nat, length: nat, rest: seq<bool>)
    requires Encodable(form, Copy(offset, length))
    ensures Parse(form, TokenCode(form, Copy(offset, length)) + rest) == [Copy(offset, length)] + Parse(form, rest)
  {
    hide Pad32, ReadHead, ReadLength, BitsOf, LengthCode, Drop, Parse;
    var oc, lc := OffsetCode(form, offset), LengthCode(length);
    var b := oc + (lc + rest);
    LengthBits(form, length);
    ConcatAssoc(oc, lc, rest);
    PadPrefix(oc, lc + rest);
    PadPrefix(lc, rest);
    if form == Rdp4 {
      OffsetHead4(offset, Pad32(b));
    } else {
      OffsetHead5(offset, Pad32(b));
    }
    LengthBack(form, length, Pad32(lc + rest));
    ParseCopy(form, b, offset, |oc|, Match(length, |lc|));
  }

  /** Fewer than eight padding bits after the code are ignored. */
  lemma {:induction false} ParseCode(form: Form, tokens: seq<Token>, pad: seq<bool>)
    requires forall i :: 0 <= i < |tokens| ==> Encodable(form, tokens[i])
    requires |pad| < 8
    ensures Parse(form, Code(form, tokens) + pad) == tokens
  {
    hide TokenCode;
    if tokens == [] {
      assert Code(form, tokens) + pad == pad;
    } else {
      var rest := Code(form, tokens[1..]) + pad;
      assert Code(form, tokens) + pad == TokenCode(form, tokens[0]) + rest;
      TokenBack(form, tokens[0], rest);
      ParseCode(form, tokens[1..], pad);
      assert tokens == [tokens[0]] + tokens[1..];
    }
  }

  /** A packed token sequence stands for exactly its LZ77 expansion over the history window. */
  lemma UnpackedPack(form: Form, tokens: seq<Token>, history: seq<byte>, ptr: nat)
    requires |history| == HISTORY && ptr <= HISTORY
    requires forall i :: 0 <= i < |tokens| ==> Encodable(form, tokens[i])
    ensures Reachable(Window(history, ptr), tokens)
    ensures Unpacked(form, history, ptr, Pack(Code(form, tokens))) == Expand(Window(history, ptr), tokens)
  {
    hide Parse, Pack, Code, Expand, BytesBits;
    var code := Code(form, tokens);
    BytesBitsPack(code);
    ParseCode(form, tokens, Zeros(8 * |Pack(code)| - |code|));
    ParseReachable(form, BytesBits(Pack(code)), Window(history, ptr));
  }
}

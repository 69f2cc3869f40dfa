/** The RLGR decoder and encoder as loops over a bit stream, proved against RlgrSpec. */
module Rlgr {
  import opened Bits
  import opened BitStreams
  import opened RlgrSpec

  // ---------- Decoder ----------

  /** The decoder's output: what does not fit the buffer is dropped but still counted. */
  class Output {
    const buffer: array<sint16>
    const size: nat
    var dst: nat
    var room: int
    ghost var written: seq<sint16>
    ghost const original: seq<sint16>

    ghost predicate Valid()
      reads this, buffer
    {
      && size <= buffer.Length == |original|
      && room == size - |written|
      && dst == Min(|written|, size)
      && buffer[..] == written[..dst] + original[dst..]
    }

    constructor (data: array<sint16>, bufferSize: nat)
      requires bufferSize <= data.Length
      ensures Valid() && buffer == data && size == bufferSize && written == [] && original == data[..]
    {
      buffer := data;
      size := bufferSize;
      dst := 0;
      room := bufferSize;
      written := [];
      original := data[..];
    }

    method WriteValue(v: sint16)
      requires Valid()
      modifies this`dst, this`room, this`written, buffer
      ensures Valid() && written == old(written) + [v]
    {
      if room > 0 {
        buffer[dst] := v;
        dst := dst + 1;
      }
      room := room - 1;
      written := written + [v];
    }

    method WriteZeroes(n: nat)
      requires Valid()
      modifies this`dst, this`room, this`written, buffer
      ensures Valid() && written == old(written) + ZeroValues(n)
    {
      var count := Min(n, room);
      if count > 0 {
        forall i | dst <= i < dst + count {
          buffer[i] := 0;
        }
        dst := dst + count;
      }
      room := room - n;
      written := written + ZeroValues(n);
    }
  }

  /** Counts leading ones and consumes the zero after them. */
  method GetOnes(bs: BitStream) returns (vk: nat)
    requires bs.Valid()
    modifies bs`bytePos, bs`bitsLeft
    ensures bs.Valid()
    ensures vk == LeadingOnes(old(bs.Rest())) && bs.Rest() == Drop(old(bs.Rest()), vk + 1)
  {
    vk := 0;
    ghost var rest := bs.Rest();
    while true
      invariant bs.Valid() && vk <= |rest| && bs.Rest() == rest[vk..]
      invariant LeadingOnes(rest) == vk + LeadingOnes(rest[vk..])
      decreases |rest| - vk
    {
      ghost var before := bs.Rest();
      var r := bs.GetBits(1);
      OneBit(before);
      if r == 1 {
        assert before[1..] == rest[vk + 1..];
        vk := vk + 1;
      } else {
        assert Drop(before, 1) == Drop(rest, vk + 1);
        break;
      }
    }
  }

  lemma OneBit(b: seq<bool>)
    ensures NatOf(Take(b, 1)) % 0x1_0000 == if b != [] && b[0] then 1 else 0
  {
    if b != [] {
      assert Take(b, 1) == [b[0]];
      assert [b[0]][..0] == [];
    }
  }

  /** Golomb-Rice code; kr is kept at krp >> 3. */
  method GetGrCode(bs: BitStream, krp0: Param, kr0: nat) returns (mag: nat, vk: nat, krp: Param, kr: nat)
    requires bs.Valid() && kr0 == krp0 / 8
    modifies bs`bytePos, bs`bitsLeft
    ensures bs.Valid() && kr == krp / 8
    ensures ReadGr(old(bs.Rest()), krp0) == Gr(mag, vk, bs.Rest())
    ensures krp == GrNext(krp0, vk)
  {
    hide NatOf, Shl, LeadingOnes, Take, Drop, Update;
    vk := GetOnes(bs);
    krp, kr := krp0, kr0;
    ghost var value := NatOf(Take(bs.Rest(), kr));
    mag := bs.GetBits(kr);
    ShlNat(vk, kr);
    ModAdd(value, Shl(vk, kr));
    mag := (mag + Shl(vk, kr)) % 0x1_0000;
    if vk == 0 {
      krp := Update(krp, -2);
      kr := krp / 8;
    } else if vk != 1 {
      krp := Update(krp, vk);
      kr := krp / 8;
    }
  }

  lemma ModAdd(a: nat, s: nat)
    ensures (a % 0x1_0000 + s) % 0x1_0000 == (a + s) % 0x1_0000
  {
  }

  lemma SmallRead(b: seq<bool>, n: nat)
    requires n <= 16
    ensures NatOf(Take(b, n)) % 0x1_0000 == NatOf(Take(b, n))
  {
    NatBound(Take(b, n));
    PowMono(|Take(b, n)|, 16);
    Pow16();
  }

  /** One escape bit of a run, or its end. */
  lemma RunStep(b: seq<bool>, kp: Param)
    requires b != []
    ensures Drop(b, 1) == b[1..]
    ensures b[0] ==> ReadRun(b, kp) == Run(NatOf(Take(b[1..], kp / 8)), kp, Drop(b[1..], kp / 8))
    ensures !b[0] ==> var r := ReadRun(b[1..], Update(kp, UP_GR));
                      ReadRun(b, kp) == Run(Pow2(kp / 8) + r.zeros, r.kp, r.rest)
  {
  }

  lemma RunEnd(kp: Param)
    ensures ReadRun([], kp) == Run(NatOf(Take([], kp / 8)), kp, Drop([], kp / 8))
  {
  }

  /** The escape bits of a run: each zero bit stands for 1 << k zeros, the first one bit ends them. */
  method GetEscapes(bs: BitStream, out: Output, kp0: Param, k0: nat) returns (kp: Param, k: nat, ghost zeros: nat)
    requires bs.Valid() && out.Valid() && k0 == kp0 / 8
    modifies bs`bytePos, bs`bitsLeft, out`dst, out`room, out`written, out.buffer
    ensures bs.Valid() && out.Valid() && k == kp / 8
    ensures out.written == old(out.written) + ZeroValues(zeros)
    ensures ReadRun(old(bs.Rest()), kp0) == Run(zeros + NatOf(Take(bs.Rest(), k)), kp, Drop(bs.Rest(), k))
  {
    hide NatOf, Pow2, ReadRun, Take, Drop, Update;
    kp, k, zeros := kp0, k0, 0;
    ghost var run := ReadRun(bs.Rest(), kp0);
    while !bs.Eos()
      invariant bs.Valid() && out.Valid() && k == kp / 8
      invariant out.written == old(out.written) + ZeroValues(zeros)
      invariant var r := ReadRun(bs.Rest(), kp); run == Run(zeros + r.zeros, r.kp, r.rest)
      decreases |bs.Rest()|
    {
      ghost var before := bs.Rest();
      var r := bs.GetBits(1);
      OneBit(before);
      RunStep(before, kp);
      if r != 0 {
        return;
      }
      out.WriteZeroes(Pow2(k));
      zeros := zeros + Pow2(k);
      kp := Update(kp, UP_GR);
      k := kp / 8;
    }
    assert bs.Rest() == [];
    RunEnd(kp);
  }

  /** The effect of one decoder turn: it appends the symbol's values and moves on to the symbol's rest. */
  ghost predicate Turned(d: Decoded, before: seq<sint16>, after: seq<sint16>, kp: Param, krp: Param, rest: seq<bool>) {
    after == before + d.values && kp == d.kp && krp == d.krp && rest == d.rest
  }

  lemma RunValues(before: seq<sint16>, m: nat, n: nat, v: sint16)
    ensures before + ZeroValues(m) + ZeroValues(n) + [v] == before + (ZeroValues(m + n) + [v])
  {
    assert ZeroValues(m) + ZeroValues(n) == ZeroValues(m + n);
    ConcatAssoc(before, ZeroValues(m), ZeroValues(n));
    ConcatAssoc(before, ZeroValues(m + n), [v]);
  }

  /** Run-length mode: a run of zeros and the nonzero value that ends it. */
  method DecodeRunSymbol(bs: BitStream, out: Output, kp0: Param, k0: nat, krp0: Param, kr0: nat)
    returns (kp: Param, k: nat, krp: Param, kr: nat)
    requires bs.Valid() && out.Valid() && k0 == kp0 / 8 && kr0 == krp0 / 8
    modifies bs`bytePos, bs`bitsLeft, out`dst, out`room, out`written, out.buffer
    ensures bs.Valid() && out.Valid() && k == kp / 8 && kr == krp / 8
    ensures Turned(DecodeRun(old(bs.Rest()), kp0, krp0), old(out.written), out.written, kp, krp, bs.Rest())
  {
    hide NatOf, Pow2, ReadRun, Take, Drop, Update, ReadGr, GrNext, ZeroValues, RunTail;
    ghost var zeros;
    kp, k, zeros := GetEscapes(bs, out, kp0, k0);
    SmallRead(bs.Rest(), k);
    var run := bs.GetBits(k);
    out.WriteZeroes(run);
    ghost var rest := bs.Rest();
    krp, kr := DecodeRunTail(bs, out, krp0, kr0);
    RunTailOf(old(bs.Rest()), kp0, krp0);
    RunValues(old(out.written), zeros, run, RunTail(rest, krp0).values[0]);
    kp := Update(kp, -DN_GR);
    k := kp / 8;
  }

  /** The sign and the magnitude that end a run. */
  function RunTail(b: seq<bool>, krp: Param): (d: Decoded)
    ensures |d.values| == 1
  {
    var g := ReadGr(Drop(b, 1), krp);
    Decoded([Wrap16(if b != [] && b[0] then -(g.mag + 1) else g.mag + 1)], 0, GrNext(krp, g.vk), g.rest)
  }

  lemma RunTailOf(b: seq<bool>, kp: Param, krp: Param)
    ensures var run := ReadRun(b, kp);
      var d := RunTail(run.rest, krp);
      DecodeRun(b, kp, krp) == Decoded(ZeroValues(run.zeros) + [d.values[0]], Update(run.kp, -DN_GR), d.krp, d.rest)
  {
    hide ReadRun, ReadGr, GrNext, Update, Wrap16, Drop;
  }

  method DecodeRunTail(bs: BitStream, out: Output, krp0: Param, kr0: nat) returns (krp: Param, kr: nat)
    requires bs.Valid() && out.Valid() && kr0 == krp0 / 8
    modifies bs`bytePos, bs`bitsLeft, out`dst, out`room, out`written, out.buffer
    ensures bs.Valid() && out.Valid() && kr == krp / 8
    ensures var d := RunTail(old(bs.Rest()), krp0);
      out.written == old(out.written) + [d.values[0]] && krp == d.krp && bs.Rest() == d.rest
  {
    hide NatOf, Take, Drop, ReadGr, GrNext, Wrap16;
    OneBit(bs.Rest());
    var sign := bs.GetBits(1);
    var mag16, vk;
    mag16, vk, krp, kr := GetGrCode(bs, krp0, kr0);
    var mag: int := mag16 + 1;
    out.WriteValue(Wrap16(if sign != 0 then -mag else mag));
  }

  /** Golomb-Rice mode of RLGR1: one value. */
  method DecodeOneSymbol(bs: BitStream, out: Output, kp0: Param, k0: nat, krp0: Param, kr0: nat)
    returns (kp: Param, k: nat, krp: Param, kr: nat)
    requires bs.Valid() && out.Valid() && k0 == kp0 / 8 && kr0 == krp0 / 8
    modifies bs`bytePos, bs`bitsLeft, out`dst, out`room, out`written, out.buffer
    ensures bs.Valid() && out.Valid() && k == kp / 8 && kr == krp / 8
    ensures Turned(DecodeOne(old(bs.Rest()), kp0, krp0), old(out.written), out.written, kp, krp, bs.Rest())
  {
    hide Update, ReadGr, GrNext, FromTwoMs;
    var mag, vk;
    mag, vk, krp, kr := GetGrCode(bs, krp0, kr0);
    if mag == 0 {
      out.WriteValue(0);
      kp := Update(kp0, UQ_GR);
    } else {
      out.WriteValue(FromTwoMs(mag));
      kp := Update(kp0, -DQ_GR);
    }
    k := kp / 8;
  }

  method GetMinBits(v: nat) returns (n: nat)
    ensures n == MinBits(v)
  {
    var w := v;
    n := 0;
    while w != 0
      invariant MinBits(v) == n + MinBits(w)
    {
      w := w / 2;
      n := n + 1;
    }
  }

  /** Golomb-Rice mode of RLGR3: two values, coded by their sum and the first of them. */
  method DecodePairSymbol(bs: BitStream, out: Output, kp0: Param, k0: nat, krp0: Param, kr0: nat)
    returns (kp: Param, k: nat, krp: Param, kr: nat)
    requires bs.Valid() && out.Valid() && k0 == kp0 / 8 && kr0 == krp0 / 8
    modifies bs`bytePos, bs`bitsLeft, out`dst, out`room, out`written, out.buffer
    ensures bs.Valid() && out.Valid() && k == kp / 8 && kr == krp / 8
    ensures Turned(DecodePair(old(bs.Rest()), kp0, krp0), old(out.written), out.written, kp, krp, bs.Rest())
  {
    hide Update, ReadGr, GrNext, FromTwoMs, NatOf, Take, Drop, MinBits, Pow2;
    var mag: int, vk;
    mag, vk, krp, kr := GetGrCode(bs, krp0, kr0);
    var nIdx := GetMinBits(mag);
    Pow16();
    MinBitsAtMost(mag, 16);
    SmallRead(bs.Rest(), nIdx);
    var val1 := bs.GetBits(nIdx);
    var val2: int := (mag - val1) % 0x1_0000_0000;
    kp := kp0;
    if val1 != 0 && val2 != 0 {
      kp := Update(kp, -2 * DQ_GR);
    } else if val1 == 0 && val2 == 0 {
      kp := Update(kp, 2 * UQ_GR);
    }
    k := kp / 8;
    out.WriteValue(FromTwoMs(val1));
    out.WriteValue(FromTwoMs(val2));
  }

  lemma TakePrefix<T>(a: seq<T>, b: seq<T>, n: nat)
    requires |a| >= n || b == []
    ensures Take(a + b, n) == a[..Min(|a|, n)]
  {
  }

  /** One turn of the decoder loop. */
  method DecodeTurn(mode: Mode, bs: BitStream, out: Output, kp0: Param, k0: nat, krp0: Param, kr0: nat)
    returns (kp: Param, k: nat, krp: Param, kr: nat)
    requires bs.Valid() && out.Valid() && k0 == kp0 / 8 && kr0 == krp0 / 8 && bs.Rest() != []
    modifies bs`bytePos, bs`bitsLeft, out`dst, out`room, out`written, out.buffer
    ensures bs.Valid() && out.Valid() && k == kp / 8 && kr == krp / 8
    ensures Turned(DecodeSymbol(mode, old(bs.Rest()), kp0, krp0), old(out.written), out.written, kp, krp, bs.Rest())
  {
    hide DecodeRun, DecodeOne, DecodePair;
    if k0 != 0 {
      kp, k, krp, kr := DecodeRunSymbol(bs, out, kp0, k0, krp0, kr0);
    } else if mode == RLGR1 {
      kp, k, krp, kr := DecodeOneSymbol(bs, out, kp0, k0, krp0, kr0);
    } else {
      kp, k, krp, kr := DecodePairSymbol(bs, out, kp0, k0, krp0, kr0);
    }
  }

  /**
   Decodes a byte string. On arbitrary bytes it terminates, stays inside both buffers and returns the number
   of values stored; the parameters stay in their range by type.
   */
  method DecodeStream(mode: Mode, data: array<byte>, dataSize: nat, buffer: array<sint16>, bufferSize: nat)
    returns (count: nat)
    requires dataSize <= data.Length && bufferSize <= buffer.Length
    modifies buffer
    ensures count == |Decode(mode, data[..dataSize], bufferSize)| <= bufferSize
    ensures buffer[..] == Decode(mode, data[..dataSize], bufferSize) + old(buffer[..])[count..]
  {
    hide DecodeSymbol, BytesBits, DecodeFrom, Take;
    var bs := new BitStream.Attach(data, dataSize);
    var out := new Output(buffer, bufferSize);
    var k, kp: Param, kr, krp: Param := 1, 8, 1, 8;
    ghost var all := DecodeFrom(mode, bs.Rest(), kp, krp);
    while !bs.Eos() && out.room > 0
      invariant bs.Valid() && out.Valid() && k == kp / 8 && kr == krp / 8
      invariant bs.buffer == data && bs.nbytes == dataSize && bs.Content() == BytesBits(data[..dataSize])
      invariant all == out.written + DecodeFrom(mode, bs.Rest(), kp, krp)
      decreases |bs.Rest()|
    {
      DecodeFromStep(mode, bs.Rest(), kp, krp);
      ghost var before, d := out.written, DecodeSymbol(mode, bs.Rest(), kp, krp);
      kp, k, krp, kr := DecodeTurn(mode, bs, out, kp, k, krp, kr);
      ConcatAssoc(before, d.values, DecodeFrom(mode, d.rest, d.kp, d.krp));
    }
    count := out.dst;
    if bs.Eos() {
      assert bs.Rest() == [];
      DecodeFromEnd(mode, kp, krp);
    }
    TakePrefix(out.written, DecodeFrom(mode, bs.Rest(), kp, krp), bufferSize);
  }

  lemma DecodeFromEnd(mode: Mode, kp: Param, krp: Param)
    ensures DecodeFrom(mode, [], kp, krp) == []
  {
  }

  // ---------- Encoder ----------

  lemma HoldsStep(emitted: seq<bool>, original: seq<bool>, word: seq<bool>, content: seq<bool>, pos: nat, pos': nat)
    requires pos == Min(|emitted|, |original|) && pos' == Min(pos + |word|, |original|)
    requires content == (emitted[..pos] + original[pos..])[..pos] + word[..pos' - pos] + (emitted[..pos] + original[pos..])[pos'..]
    ensures pos' == Min(|emitted + word|, |original|)
    ensures content == (emitted + word)[..pos'] + original[pos'..]
  {
    if pos < |original| {
      assert emitted[..pos] == emitted;
      assert (emitted + word)[..pos'] == emitted + word[..pos' - pos];
    } else {
      assert (emitted + word)[..pos'] == emitted[..pos];
    }
  }

  method OutputBits(bs: BitStream, n: nat, v: nat, ghost emitted: seq<bool>, ghost original: seq<byte>)
    requires bs.Valid() && bs.Holds(emitted, original)
    modifies bs`bytePos, bs`bitsLeft, bs.buffer
    ensures bs.Valid() && bs.Holds(emitted + Word16(v, n), original)
  {
    hide Word16, BytesBits;
    ghost var pos := bs.Pos();
    bs.PutBits(v, n);
    HoldsStep(emitted, BytesBits(original[..bs.nbytes]), Word16(v, n), bs.Content(), pos, bs.Pos());
  }

  lemma {:induction false} Word16Ones(n: nat)
    requires n <= 16
    ensures Word16(0xFFFF, n) == Ones(n) && Word16(0, n) == Zeros(n)
  {
    BitsOfZero(n);
    Pow16();
    OnesBits(0xFFFF, n, 16);
  }

  lemma {:induction false} OnesBits(v: nat, n: nat, m: nat)
    requires n <= m && v == Pow2(m) - 1
    ensures BitsOf(v, n) == Ones(n)
  {
    if n > 0 {
      OnesBits(v / 2, n - 1, m - 1);
      assert Ones(n) == Ones(n - 1) + [true];
    }
  }

  /** A run of equal bits. */
  function Repeat(bit: bool, n: nat): (r: seq<bool>)
    ensures |r| == n
  {
    if bit then Ones(n) else Zeros(n)
  }

  lemma RepeatStep(bit: bool, b: nat, done: nat, n: nat, emitted: seq<bool>)
    requires n <= 16 && b == if bit then 0xFFFF else 0
    ensures emitted + Repeat(bit, done) + Word16(b, n) == emitted + Repeat(bit, done + n)
  {
    Word16Ones(n);
    assert Repeat(bit, done) + Repeat(bit, n) == Repeat(bit, done + n);
    ConcatAssoc(emitted, Repeat(bit, done), Repeat(bit, n));
  }

  /** Emits one bit count times, sixteen at a time. */
  method OutputBit(bs: BitStream, count: nat, bit: bool, ghost emitted: seq<bool>, ghost original: seq<byte>)
    requires bs.Valid() && bs.Holds(emitted, original)
    modifies bs`bytePos, bs`bitsLeft, bs.buffer
    ensures bs.Valid() && bs.Holds(emitted + Repeat(bit, count), original)
  {
    hide Word16, BytesBits, Repeat;
    var b := if bit then 0xFFFF else 0;
    var c: int := count;
    ghost var done: nat := 0;
    assert emitted + Repeat(bit, 0) == emitted;
    while c > 0
      invariant bs.Valid() && done <= count && (c > 0 ==> c == count - done) && (c <= 0 ==> done == count)
      invariant bs.Holds(emitted + Repeat(bit, done), original)
    {
      var n := if c > 16 then 16 else c;
      OutputBits(bs, n, b, emitted + Repeat(bit, done), original);
      RepeatStep(bit, b, done, n, emitted);
      done := done + n;
      c := c - 16;
    }
  }

  lemma Word16Small(v: nat, n: nat)
    requires v < 0x1_0000
    ensures Word16(v, n) == BitsOf(v, n)
  {
    hide BitsOf;
  }

  lemma GrCodeParts(krp: Param, val: nat, emitted: seq<bool>)
    ensures emitted + Repeat(true, Shr(val, krp / 8)) + Repeat(false, 1) + Word16(Low(val, krp / 8), krp / 8)
         == emitted + GrCode(krp, val)
  {
    hide Shr, BitsOf, Word16, Pow2;
    var kr := krp / 8;
    PowMono(kr, 16);
    Pow16();
    Word16Small(Low(val, kr), kr);
    assert Repeat(false, 1) == [false];
    ConcatAssoc(emitted + Repeat(true, Shr(val, kr)), [false], BitsOf(Low(val, kr), kr));
    ConcatAssoc(emitted, Repeat(true, Shr(val, kr)), [false] + BitsOf(Low(val, kr), kr));
    ConcatAssoc(Repeat(true, Shr(val, kr)), [false], BitsOf(Low(val, kr), kr));
  }

  /** Emits a Golomb-Rice code and adapts krp. */
  method CodeGr(bs: BitStream, krp0: Param, val: nat, ghost emitted: seq<bool>, ghost original: seq<byte>)
    returns (krp: Param)
    requires bs.Valid() && bs.Holds(emitted, original)
    modifies bs`bytePos, bs`bitsLeft, bs.buffer
    ensures bs.Valid() && bs.Holds(emitted + GrCode(krp0, val), original)
    ensures krp == GrNext(krp0, Shr(val, krp0 / 8))
  {
    hide Word16, BytesBits, GrCode, Repeat, Shr, Low;
    krp := krp0;
    var kr := krp / 8;
    var vk := Shr(val, kr);
    OutputBit(bs, vk, true, emitted, original);
    OutputBit(bs, 1, false, emitted + Repeat(true, vk), original);
    ghost var e := emitted + Repeat(true, vk) + Repeat(false, 1);
    GrCodeParts(krp0, val, emitted);
    if kr != 0 {
      OutputBits(bs, kr, Low(val, kr), e, original);
    } else {
      assert Word16(Low(val, kr), kr) == [];
      assert e + [] == e;
    }
    if vk == 0 {
      krp := Update(krp, -2);
    } else if vk > 1 {
      krp := Update(krp, vk);
    }
  }

  /** Collects zeros until a nonzero value or the last value. */
  method CollectZeros(data: seq<sint16>, i0: nat) returns (numZeros: nat, input: sint16, i: nat)
    requires i0 < |data|
    ensures numZeros == ZeroRun(data[i0..]) && i == i0 + numZeros + 1 <= |data| && input == data[i - 1]
  {
    numZeros := 0;
    input := data[i0];
    i := i0 + 1;
    while input == 0 && i < |data|
      invariant i == i0 + numZeros + 1 <= |data| && input == data[i - 1]
      invariant ZeroRun(data[i0..]) == numZeros + ZeroRun(data[i - 1..])
    {
      assert data[i - 1..][1..] == data[i..];
      numZeros := numZeros + 1;
      input := data[i];
      i := i + 1;
    }
  }

  lemma {:induction false} RunRemainder(kp: Param, z: nat)
    requires z < Pow2(kp / 8)
    ensures RunCode(kp, z) == [true] + Word16(z, kp / 8)
  {
    PowMono(kp / 8, 16);
    Pow16();
    Word16Small(z, kp / 8);
  }

  lemma RunEscape(kp: Param, z: nat, emitted: seq<bool>)
    requires z >= Pow2(kp / 8)
    ensures emitted + Repeat(false, 1) + RunCode(Update(kp, UP_GR), z - Pow2(kp / 8)) == emitted + RunCode(kp, z)
    ensures RunNext(kp, z) == RunNext(Update(kp, UP_GR), z - Pow2(kp / 8))
  {
    assert Repeat(false, 1) == [false];
    ConcatAssoc(emitted, [false], RunCode(Update(kp, UP_GR), z - Pow2(kp / 8)));
  }

  /** Emits a run: escapes of 1 << k zeros while they fit, then a one bit and the remainder in k bits. */
  method CodeRun(bs: BitStream, kp0: Param, k0: nat, z: nat, ghost emitted: seq<bool>, ghost original: seq<byte>)
    returns (kp: Param, k: nat)
    requires bs.Valid() && bs.Holds(emitted, original) && k0 == kp0 / 8
    modifies bs`bytePos, bs`bitsLeft, bs.buffer
    ensures bs.Valid() && bs.Holds(emitted + RunCode(kp0, z), original)
    ensures kp == RunNext(kp0, z) && k == kp / 8
  {
    hide Word16, BytesBits, RunCode, Repeat, Update, Pow2;
    kp, k := kp0, k0;
    var numZeros := z;
    var runmax := Pow2(k);
    ghost var e := emitted;
    while numZeros >= runmax
      invariant bs.Valid() && bs.Holds(e, original) && k == kp / 8 && runmax == Pow2(k)
      invariant e + RunCode(kp, numZeros) == emitted + RunCode(kp0, z)
      invariant RunNext(kp, numZeros) == RunNext(kp0, z)
      decreases numZeros
    {
      RunEscape(kp, numZeros, e);
      OutputBit(bs, 1, false, e, original);
      e := e + Repeat(false, 1);
      numZeros := numZeros - runmax;
      kp := Update(kp, UP_GR);
      k := kp / 8;
      runmax := Pow2(k);
    }
    OutputBit(bs, 1, true, e, original);
    OutputBits(bs, k, numZeros, e + Repeat(true, 1), original);
    RunRemainder(kp, numZeros);
    RepeatOne(true);
    ConcatAssoc(e, Repeat(true, 1), Word16(numZeros, k));
  }

  lemma RepeatOne(bit: bool)
    ensures Repeat(bit, 1) == [bit]
  {
  }

  /** The effect of one encoder turn. */
  ghost predicate Coded(e: Encoded, used: nat, kp: Param, krp: Param) {
    used == e.used && kp == e.kp && krp == e.krp
  }

  method EncodeRunSymbol(bs: BitStream, data: seq<sint16>, i0: nat, kp0: Param, k0: nat, krp0: Param,
                         ghost emitted: seq<bool>, ghost original: seq<byte>)
    returns (i: nat, kp: Param, k: nat, krp: Param)
    requires bs.Valid() && bs.Holds(emitted, original) && i0 < |data| && k0 == kp0 / 8
    modifies bs`bytePos, bs`bitsLeft, bs.buffer
    ensures bs.Valid() && i0 < i <= |data| && k == kp / 8
    ensures var e := EncodeRun(data[i0..], kp0, krp0);
      Coded(e, i - i0, kp, krp) && bs.Holds(emitted + e.code, original)
  {
    hide BytesBits, RunCode, RunNext, Repeat, Update, Pow2, GrCode, GrNext, Shr, ZeroRun;
    var numZeros, input;
    numZeros, input, i := CollectZeros(data, i0);
    kp, k := CodeRun(bs, kp0, k0, numZeros, emitted, original);
    var mag: int := if input < 0 then -(input as int) else input;
    ghost var e := emitted + RunCode(kp0, numZeros);
    OutputBit(bs, 1, input < 0, e, original);
    RepeatOne(input < 0);
    krp := CodeGr(bs, krp0, if mag != 0 then mag - 1 else 0, e + [input < 0], original);
    ConcatAssoc(e, [input < 0], GrCode(krp0, RunMag(input)));
    ConcatAssoc(emitted, RunCode(kp0, numZeros), [input < 0] + GrCode(krp0, RunMag(input)));
    kp := Update(kp, -DN_GR);
    k := kp / 8;
  }

  method EncodeOneSymbol(bs: BitStream, data: seq<sint16>, i0: nat, kp0: Param, krp0: Param,
                         ghost emitted: seq<bool>, ghost original: seq<byte>)
    returns (i: nat, kp: Param, k: nat, krp: Param)
    requires bs.Valid() && bs.Holds(emitted, original) && i0 < |data|
    modifies bs`bytePos, bs`bitsLeft, bs.buffer
    ensures bs.Valid() && i0 < i <= |data| && k == kp / 8
    ensures var e := EncodeOne(data[i0..], kp0, krp0);
      Coded(e, i - i0, kp, krp) && bs.Holds(emitted + e.code, original)
  {
    hide BytesBits, Update, GrCode, GrNext, Shr, TwoMs;
    var twoMs := TwoMs(data[i0]);
    i := i0 + 1;
    krp := CodeGr(bs, krp0, twoMs, emitted, original);
    if twoMs != 0 {
      kp := Update(kp0, -DQ_GR);
    } else {
      kp := Update(kp0, UQ_GR);
    }
    k := kp / 8;
  }

  method EncodePairSymbol(bs: BitStream, data: seq<sint16>, i0: nat, kp0: Param, krp0: Param,
                          ghost emitted: seq<bool>, ghost original: seq<byte>)
    returns (i: nat, kp: Param, k: nat, krp: Param)
    requires bs.Valid() && bs.Holds(emitted, original) && i0 < |data|
    modifies bs`bytePos, bs`bitsLeft, bs.buffer
    ensures bs.Valid() && i0 < i <= |data| && k == kp / 8
    ensures var e := EncodePair(data[i0..], kp0, krp0);
      Coded(e, i - i0, kp, krp) && bs.Holds(emitted + e.code, original)
  {
    hide BytesBits, Update, GrCode, GrNext, Shr, TwoMs, MinBits, BitsOf, Word16;
    var twoMs1 := TwoMs(data[i0]);
    i := i0 + 1;
    var input: sint16 := 0;
    if i < |data| {
      input := data[i];
      i := i + 1;
    }
    var twoMs2 := TwoMs(input);
    var sum2Ms := twoMs1 + twoMs2;
    krp := CodeGr(bs, krp0, sum2Ms, emitted, original);
    var nIdx := GetMinBits(sum2Ms);
    OutputBits(bs, nIdx, twoMs1, emitted + GrCode(krp0, sum2Ms), original);
    Word16Small(twoMs1, nIdx);
    ConcatAssoc(emitted, GrCode(krp0, sum2Ms), BitsOf(twoMs1, nIdx));
    kp := kp0;
    if twoMs1 != 0 && twoMs2 != 0 {
      kp := Update(kp, -2 * DQ_GR);
    } else if twoMs1 == 0 && twoMs2 == 0 {
      kp := Update(kp, 2 * UQ_GR);
    }
    k := kp / 8;
  }

  method EncodeTurn(mode: Mode, bs: BitStream, data: seq<sint16>, i0: nat, kp0: Param, k0: nat, krp0: Param,
                    ghost emitted: seq<bool>, ghost original: seq<byte>)
    returns (i: nat, kp: Param, k: nat, krp: Param)
    requires bs.Valid() && bs.Holds(emitted, original) && i0 < |data| && k0 == kp0 / 8
    modifies bs`bytePos, bs`bitsLeft, bs.buffer
    ensures bs.Valid() && i0 < i <= |data| && k == kp / 8
    ensures var e := EncodeSymbol(mode, data[i0..], kp0, krp0);
      Coded(e, i - i0, kp, krp) && bs.Holds(emitted + e.code, original)
  {
    hide EncodeRun, EncodeOne, EncodePair, BytesBits;
    if k0 != 0 {
      i, kp, k, krp := EncodeRunSymbol(bs, data, i0, kp0, k0, krp0, emitted, original);
    } else if mode == RLGR1 {
      i, kp, k, krp := EncodeOneSymbol(bs, data, i0, kp0, krp0, emitted, original);
    } else {
      i, kp, k, krp := EncodePairSymbol(bs, data, i0, kp0, krp0, emitted, original);
    }
  }

  lemma EncodeFromTurn(mode: Mode, data: seq<sint16>, i: nat, kp: Param, krp: Param)
    requires i < |data|
    ensures var e := EncodeSymbol(mode, data[i..], kp, krp);
      EncodeFrom(mode, data[i..], kp, krp) == e.code + EncodeFrom(mode, data[i + e.used..], e.kp, e.krp)
  {
    hide EncodeSymbol;
    var e := EncodeSymbol(mode, data[i..], kp, krp);
    assert data[i..][e.used..] == data[i + e.used..];
  }

  lemma EncodeFromEnd(mode: Mode, data: seq<sint16>, kp: Param, krp: Param)
    ensures EncodeFrom(mode, data[|data|..], kp, krp) == []
  {
  }

  /** The whole sequence, from both sides' starting parameters. */
  method EncodeAll(mode: Mode, bs: BitStream, data: seq<sint16>, ghost original: seq<byte>)
    requires bs.Valid() && bs.Pos() == 0 && bs.buffer[..] == original
    modifies bs`bytePos, bs`bitsLeft, bs.buffer
    ensures bs.Valid() && bs.Holds(Encode(mode, data), original)
  {
    hide EncodeSymbol, EncodeFrom, BytesBits, BitStream.Holds;
    bs.StartHolds(original);
    var k, kp: Param, krp: Param := 1, 8, 8;
    var i := 0;
    ghost var emitted: seq<bool> := [];
    assert data[0..] == data;
    while i < |data|
      invariant i <= |data| && k == kp / 8
      invariant bs.Valid() && bs.Holds(emitted, original)
      invariant emitted + EncodeFrom(mode, data[i..], kp, krp) == Encode(mode, data)
    {
      EncodeFromTurn(mode, data, i, kp, krp);
      ghost var e := EncodeSymbol(mode, data[i..], kp, krp);
      ConcatAssoc(emitted, e.code, EncodeFrom(mode, data[i + e.used..], e.kp, e.krp));
      i, kp, k, krp := EncodeTurn(mode, bs, data, i, kp, k, krp, emitted, original);
      emitted := emitted + e.code;
    }
    EncodeFromEnd(mode, data, kp, krp);
    assert emitted + [] == emitted;
  }

  /**
   Encodes a coefficient sequence into a byte buffer: the code, cut off at the capacity of the buffer, over
   the buffer's previous bits. The result counts the bytes touched.
   */
  method EncodeStream(mode: Mode, data: seq<sint16>, buffer: array<byte>, bufferSize: nat) returns (size: nat)
    requires bufferSize <= buffer.Length
    modifies buffer
    ensures var n := Min(|Encode(mode, data)|, 8 * bufferSize);
      && size == (n + 7) / 8 <= bufferSize
      && BytesBits(buffer[..bufferSize]) == Encode(mode, data)[..n] + BytesBits(old(buffer[..bufferSize]))[n..]
    ensures buffer[bufferSize..] == old(buffer[bufferSize..])
  {
    hide Encode, BytesBits;
    var bs := new BitStream.Attach(buffer, bufferSize);
    EncodeAll(mode, bs, data, buffer[..]);
    size := bs.ProcessedBytes();
  }
}

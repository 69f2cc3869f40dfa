/**
 Microsoft Point-to-Point Compression, as tokens over bit sequences (section 4 of RFC 2118 for the 8K form,
 section 3.1.8 of [MS-RDPBCGR] for the 64K form).
 */
module MppcSpec {
  import opened Bits

  const HISTORY := 65536

  datatype Form = Rdp4 | Rdp5

  datatype Token = Literal(b: byte) | Copy(offset: nat, length: nat)

  // ---------- Encoding tables ----------

  function LiteralCode(b: byte): seq<bool> {
    if b < 0x80 then BitsOf(b, 8) else [true, false] + BitsOf(b - 0x80, 7)
  }

  function OffsetCode(form: Form, offset: nat): seq<bool> {
    match form
    case Rdp4 =>
      if offset < 64 then [true, true, true, true] + BitsOf(offset, 6)
      else if offset < 320 then [true, true, true, false] + BitsOf(offset - 64, 8)
      else [true, true, false] + BitsOf(offset - 320, 13)
    case Rdp5 =>
      if offset < 64 then [true, true, true, true, true] + BitsOf(offset, 6)
      else if offset < 320 then [true, true, true, true, false] + BitsOf(offset - 64, 8)
      else if offset < 2368 then [true, true, true, false] + BitsOf(offset - 320, 11)
      else [true, true, false] + BitsOf(offset - 2368, 16)
  }

  /** The largest number of leading ones of a length code. */
  function MaxClass(form: Form): (c: nat)
    ensures c <= 14
  {
    if form == Rdp4 then 11 else 14
  }

  /** The class c of a length: 2^(c+1) <= length < 2^(c+2), with class 0 for the length 3. */
  function LengthClass(length: nat): (c: nat)
    requires length >= 3
    ensures c > 0 ==> Pow2(c + 1) <= length < Pow2(c + 2)
    ensures c == 0 ==> length == 3
  {
    if length == 3 then 0
    else if length < 8 then assert Pow2(2) == 4; 1
    else 1 + LengthClass(length / 2)
  }

  function LengthCode(length: nat): seq<bool>
    requires length >= 3
  {
    var c := LengthClass(length);
    if c == 0 then [false] else Ones(c) + [false] + BitsOf(length - Pow2(c + 1), c + 1)
  }

  /** Which tokens a form can express. */
  predicate Encodable(form: Form, t: Token) {
    t.Copy? ==>
      && 1 <= t.offset <= (if form == Rdp4 then 8511 else 65535)
      && 3 <= t.length <= (if form == Rdp4 then 8191 else 65535)
  }

  function TokenCode(form: Form, t: Token): seq<bool>
    requires Encodable(form, t)
  {
    match t
    case Literal(b) => LiteralCode(b)
    case Copy(offset, length) => OffsetCode(form, offset) + LengthCode(length)
  }

  function Code(form: Form, tokens: seq<Token>): seq<bool>
    requires forall i :: 0 <= i < |tokens| ==> Encodable(form, tokens[i])
  {
    if tokens == [] then [] else TokenCode(form, tokens[0]) + Code(form, tokens[1..])
  }

  // ---------- Decoding ----------

  /** The next 32 unread bits, zeros standing for bits past the end. */
  function Pad32(b: seq<bool>): (r: seq<bool>)
    ensures |r| == 32
  {
    Take(b, 32) + Zeros(32 - Min(32, |b|))
  }

  /** The first part of a token and the bits it takes. */
  datatype Head = Byte(b: byte, bits: nat) | Offset(offset: nat, bits: nat)

  /** Decodes a literal or a copy offset; offsets are kept in 16 bits. */
  function ReadHead(form: Form, w: seq<bool>): (h: Head)
    requires |w| == 32
    ensures 8 <= h.bits <= 19
    ensures h.Offset? ==> h.offset < 0x1_0000
  {
    NatBound(w[..8]); NatBound(w[2..9]);
    if !w[0] then Byte(NatOf(w[..8]), 8)
    else if !w[1] then Byte(NatOf(w[2..9]) + 0x80, 9)
    else if form == Rdp4 then
      if w[2] && w[3] then NatBound(w[4..10]); Offset(NatOf(w[4..10]), 10)
      else if w[2] then NatBound(w[4..12]); Offset(NatOf(w[4..12]) + 64, 12)
      else PowAt13(); NatBound(w[3..16]); Offset(NatOf(w[3..16]) + 320, 16)
    else
      if w[2] && w[3] && w[4] then NatBound(w[5..11]); Offset(NatOf(w[5..11]), 11)
      else if w[2] && w[3] then NatBound(w[5..13]); Offset(NatOf(w[5..13]) + 64, 13)
      else if w[2] then PowAt13(); NatBound(w[4..15]); Offset(NatOf(w[4..15]) + 320, 15)
      else Offset((NatOf(w[3..19]) + 2368) % 0x1_0000, 19)
  }

  lemma PowAt13()
    ensures Pow2(13) == 8192 && Pow2(11) == 2048
  {
    assert Pow2(11) == 2048;
  }

  /** A length of match and the bits it takes. */
  datatype Match = Match(length: nat, bits: nat)

  /** Decodes a length of match; a prefix outside the table takes no bits and matches nothing. */
  function ReadLength(form: Form, w: seq<bool>): (m: Match)
    requires |w| == 32
    ensures m.bits <= 30
  {
    var c := LeadingOnes(w);
    if c == 0 then Match(3, 1)
    else if c <= MaxClass(form) then Match(NatOf(w[c + 1..2 * c + 2]) + Pow2(c + 1), 2 * c + 2)
    else Match(0, 0)
  }

  /** The tokens of a bit stream; fewer than eight remaining bits are padding. */
  function Parse(form: Form, b: seq<bool>): seq<Token>
    decreases |b|
  {
    if |b| < 8 then [] else
      var h := ReadHead(form, Pad32(b));
      var rest := Drop(b, h.bits);
      match h
      case Byte(v, _) => [Literal(v)] + Parse(form, rest)
      case Offset(offset, _) =>
        if offset == 0 then Parse(form, rest) else
          var m := ReadLength(form, Pad32(rest));
          [Copy(offset, m.length)] + Parse(form, Drop(rest, m.bits))
  }

  // ---------- LZ77 expansion ----------

  /** The bytes a copy appends: each is the byte offset positions before it. */
  function CopyBytes(past: seq<byte>, offset: nat, length: nat): (r: seq<byte>)
    requires 1 <= offset <= |past|
    ensures |r| == length
    decreases length
  {
    if length == 0 then [] else
      var next := past[|past| - offset];
      [next] + CopyBytes(past + [next], offset, length - 1)
  }

  /** The bytes one token appends to what came before. */
  function TokenBytes(past: seq<byte>, t: Token): seq<byte>
    requires t.Copy? ==> 1 <= t.offset <= |past|
  {
    match t
    case Literal(b) => [b]
    case Copy(offset, length) => CopyBytes(past, offset, length)
  }

  predicate Reachable(past: seq<byte>, tokens: seq<Token>) {
    forall i :: 0 <= i < |tokens| && tokens[i].Copy? ==> 1 <= tokens[i].offset <= |past|
  }

  function Expand(past: seq<byte>, tokens: seq<Token>): seq<byte>
    requires Reachable(past, tokens)
    decreases |tokens|
  {
    if tokens == [] then [] else
      var out := TokenBytes(past, tokens[0]);
      out + Expand(past + out, tokens[1..])
  }

  lemma {:induction false} ParseOffsets(form: Form, b: seq<bool>, i: nat)
    requires i < |Parse(form, b)| && Parse(form, b)[i].Copy?
    ensures 1 <= Parse(form, b)[i].offset < 0x1_0000
    decreases |b|
  {
    hide Pad32, ReadLength, ReadHead, Drop;
    var h := ReadHead(form, Pad32(b));
    var rest := Drop(b, h.bits);
    if h.Offset? && h.offset == 0 {
      ParseOffsets(form, rest, i);
    } else if i > 0 {
      var rest' := if h.Byte? then rest else Drop(rest, ReadLength(form, Pad32(rest)).bits);
      ParseOffsets(form, rest', i - 1);
    }
  }

  /** Parsed copies never reach back further than a full history. */
  lemma ParseReachable(form: Form, b: seq<bool>, past: seq<byte>)
    requires |past| >= HISTORY
    ensures Reachable(past, Parse(form, b))
  {
    forall i | 0 <= i < |Parse(form, b)| && Parse(form, b)[i].Copy?
      ensures 1 <= Parse(form, b)[i].offset <= |past|
    {
      ParseOffsets(form, b, i);
    }
  }

  // ---------- Packets ----------

  /** The history seen from the write position: the byte written last comes last. */
  function Window(history: seq<byte>, ptr: nat): (w: seq<byte>)
    requires |history| == HISTORY && ptr <= HISTORY
    ensures |w| == HISTORY
  {
    history[ptr..] + history[..ptr]
  }

  /** The bytes a compressed packet stands for. */
  function Unpacked(form: Form, history: seq<byte>, ptr: nat, cbuf: seq<byte>): seq<byte>
    requires |history| == HISTORY && ptr <= HISTORY
  {
    var tokens := Parse(form, BytesBits(cbuf));
    ParseReachable(form, BytesBits(cbuf), Window(history, ptr));
    Expand(Window(history, ptr), tokens)
  }
}

/** The MPPC decompressor: packets expand into a 64K history that survives from one packet to the next. */
module Mppc {
  import opened Bits
  import opened MppcSpec
  import opened MppcReservoir

  /** The compression flags of a packet. */
  datatype Flags = Flags(atFront: bool, flushed: bool, compressed: bool)

  /** The history with out stored from position ptr on. */
  function Stored(history: seq<byte>, ptr: nat, out: seq<byte>): (r: seq<byte>)
    requires ptr + |out| <= |history|
    ensures |r| == |history|
  {
    history[..ptr] + out + history[ptr + |out|..]
  }

  /** The window after out is the window before it, moved on by out. */
  function Past(history: seq<byte>, ptr: nat, out: seq<byte>): (r: seq<byte>)
    requires |history| == HISTORY && ptr <= HISTORY
    ensures |r| == HISTORY + |out|
  {
    Window(history, ptr) + out
  }

  /** Where a copy reads: offset positions back, modulo the size of the history. */
  function Source(ptr: nat, offset: nat): (r: nat)
    requires ptr <= HISTORY && 1 <= offset < HISTORY
    ensures r < HISTORY
  {
    (ptr - offset) % HISTORY
  }

  /** Reading the ring offset positions back is reading the past offset positions back. */
  lemma SourcePast(history: seq<byte>, ptr: nat, out: seq<byte>, offset: nat)
    requires |history| == HISTORY && ptr + |out| <= HISTORY && 1 <= offset < HISTORY
    ensures Stored(history, ptr, out)[Source(ptr + |out|, offset)] == Past(history, ptr, out)[HISTORY + |out| - offset]
  {
    var i := ptr + |out| - offset;
    if i >= 0 {
      assert Source(ptr + |out|, offset) == i;
    } else {
      assert Source(ptr + |out|, offset) == i + HISTORY;
    }
  }

  lemma StoredNext(history: seq<byte>, ptr: nat, out: seq<byte>, b: byte)
    requires ptr + |out| < |history|
    ensures Stored(history, ptr, out)[ptr + |out| := b] == Stored(history, ptr, out + [b])
  {
  }

  /** The bytes a copy appends, one at a time. */
  lemma {:induction false} CopyBytesNext(past: seq<byte>, offset: nat, n: nat)
    requires 1 <= offset <= |past|
    ensures CopyBytes(past, offset, n + 1)
         == CopyBytes(past, offset, n) + [(past + CopyBytes(past, offset, n))[|past| + n - offset]]
    decreases n
  {
    var next := past[|past| - offset];
    if n == 0 {
      assert past + CopyBytes(past, offset, 0) == past;
      assert CopyBytes(past + [next], offset, 0) == [];
    } else {
      var c := CopyBytes(past + [next], offset, n - 1);
      CopyBytesNext(past + [next], offset, n - 1);
      ConcatAssoc(past, [next], c);
      assert CopyBytes(past, offset, n) == [next] + c;
      ConcatAssoc([next], c, [((past + [next]) + c)[|past| + n - offset]]);
    }
  }

  /** The write position a packet starts from. */
  function StartOf(flags: Flags, ptr: nat): nat {
    if flags.atFront || flags.flushed then 0 else ptr
  }

  /** The history a packet starts from. */
  function BaseOf(flags: Flags, history: seq<byte>): (r: seq<byte>)
    ensures |r| == |history|
  {
    if flags.flushed then seq(|history|, _ => 0) else history
  }

  /** The bytes a packet stands for. */
  function OutputOf(form: Form, flags: Flags, history: seq<byte>, ptr: nat, cbuf: seq<byte>): seq<byte>
    requires |history| == HISTORY && ptr <= HISTORY
  {
    if flags.compressed then Unpacked(form, BaseOf(flags, history), StartOf(flags, ptr), cbuf) else cbuf
  }

  /** The length the C code reports: a flush alone does not reset the position it subtracts. */
  function ReportedLength(flags: Flags, ptr: nat, n: nat): nat {
    (StartOf(flags, ptr) + n - (if flags.atFront then 0 else ptr)) % 0x1_0000_0000
  }

  /** The bytes still to come from unread bits. */
  ghost function Expansion(form: Form, start: seq<byte>, from: nat, out: seq<byte>, bits: seq<bool>): seq<byte>
    requires |start| == HISTORY && from <= HISTORY
  {
    ParseReachable(form, bits, Past(start, from, out));
    Expand(Past(start, from, out), Parse(form, bits))
  }

  /** What was written and what is still to come make up the packet's output, which fits the history. */
  ghost predicate Progress(form: Form, start: seq<byte>, from: nat, out: seq<byte>, bits: seq<bool>, total: seq<byte>) {
    && |start| == HISTORY && from + |total| <= HISTORY
    && out + Expansion(form, start, from, out, bits) == total
  }

  lemma FirstStep(form: Form, start: seq<byte>, from: nat, cbuf: seq<byte>)
    requires |start| == HISTORY && from <= HISTORY && from + |Unpacked(form, start, from, cbuf)| <= HISTORY
    ensures Progress(form, start, from, [], BytesBits(cbuf), Unpacked(form, start, from, cbuf))
    ensures Stored(start, from, []) == start
  {
    hide Parse, Expand, BytesBits;
    assert Past(start, from, []) == Window(start, from);
  }

  lemma LastStep(form: Form, start: seq<byte>, from: nat, out: seq<byte>, bits: seq<bool>, total: seq<byte>)
    requires Progress(form, start, from, out, bits, total) && |bits| < 8
    ensures out == total
  {
    assert Parse(form, bits) == [];
  }

  /** Taking the bytes of the first token off an expansion. */
  lemma ExpandToken(form: Form, start: seq<byte>, from: nat, out: seq<byte>, bits: seq<bool>, rest: seq<bool>, t: Token)
    requires |start| == HISTORY && from <= HISTORY
    requires Parse(form, bits) == [t] + Parse(form, rest)
    requires t.Copy? ==> 1 <= t.offset < HISTORY
    ensures var b := TokenBytes(Past(start, from, out), t);
      Expansion(form, start, from, out, bits) == b + Expansion(form, start, from, out + b, rest)
  {
    hide Parse, CopyBytes;
    var past := Past(start, from, out);
    var b := TokenBytes(past, t);
    ParseReachable(form, bits, past);
    ParseReachable(form, rest, Past(start, from, out + b));
    assert past + b == Past(start, from, out + b);
    assert Parse(form, bits)[1..] == Parse(form, rest);
  }

  /** The effect of a literal. */
  lemma LiteralStep(form: Form, start: seq<byte>, from: nat, out: seq<byte>, bits: seq<bool>, total: seq<byte>)
    requires Progress(form, start, from, out, bits, total) && |bits| >= 8 && ReadHead(form, Pad32(bits)).Byte?
    ensures var h := ReadHead(form, Pad32(bits));
      Progress(form, start, from, out + [h.b], Drop(bits, h.bits), total)
    ensures from + |out| < HISTORY
  {
    hide Expansion, Expand, Pad32, ReadHead;
    var h := ReadHead(form, Pad32(bits));
    ExpandToken(form, start, from, out, bits, Drop(bits, h.bits), Literal(h.b));
    ConcatAssoc(out, [h.b], Expansion(form, start, from, out + [h.b], Drop(bits, h.bits)));
  }

  /** A copy offset of zero is skipped. */
  lemma SkipStep(form: Form, start: seq<byte>, from: nat, out: seq<byte>, bits: seq<bool>, total: seq<byte>)
    requires Progress(form, start, from, out, bits, total) && |bits| >= 8
    requires var h := ReadHead(form, Pad32(bits)); h.Offset? && h.offset == 0
    ensures Progress(form, start, from, out, Drop(bits, ReadHead(form, Pad32(bits)).bits), total)
  {
    hide Expand, Pad32, ReadHead;
    var rest := Drop(bits, ReadHead(form, Pad32(bits)).bits);
    assert Parse(form, bits) == Parse(form, rest);
  }

  /** The effect of a copy. */
  lemma CopyTokenStep(form: Form, start: seq<byte>, from: nat, out: seq<byte>, bits: seq<bool>, total: seq<byte>)
    requires Progress(form, start, from, out, bits, total) && |bits| >= 8
    requires var h := ReadHead(form, Pad32(bits)); h.Offset? && h.offset != 0
    ensures var h := ReadHead(form, Pad32(bits));
      var rest := Drop(bits, h.bits);
      var m := ReadLength(form, Pad32(rest));
      && Progress(form, start, from, out + CopyBytes(Past(start, from, out), h.offset, m.length), Drop(rest, m.bits), total)
      && from + |out| + m.length <= HISTORY
  {
    hide Expansion, Expand, Pad32, ReadHead, ReadLength, CopyBytes;
    var h := ReadHead(form, Pad32(bits));
    var rest := Drop(bits, h.bits);
    var m := ReadLength(form, Pad32(rest));
    var rest' := Drop(rest, m.bits);
    var b := CopyBytes(Past(start, from, out), h.offset, m.length);
    ExpandToken(form, start, from, out, bits, rest', Copy(h.offset, m.length));
    ConcatAssoc(out, b, Expansion(form, start, from, out + b, rest'));
  }

  class Decompressor {
    const history: array<byte>
    var historyPtr: nat

    ghost predicate Valid()
      reads this
    {
      history.Length == HISTORY && historyPtr <= HISTORY
    }

    constructor ()
      ensures Valid() && historyPtr == 0 && fresh(history)
    {
      history := new byte[HISTORY];
      historyPtr := 0;
    }

    /** Appends one byte at the local write position. */
    method Append(ptr: nat, b: byte, ghost start: seq<byte>, ghost from: nat, ghost out: seq<byte>)
      requires Valid() && ptr < HISTORY && |start| == HISTORY && ptr == from + |out|
      requires history[..] == Stored(start, from, out)
      modifies history
      ensures history[..] == Stored(start, from, out + [b])
    {
      StoredNext(start, from, out, b);
      history[ptr] := b;
    }

    /**
     Copies length bytes from offset positions back. A source before the start of the buffer is taken from its
     end, and runs on at the start once the end is passed.
     */
    method CopyMatch(ptr0: nat, offset: nat, length: nat, ghost start: seq<byte>, ghost from: nat, ghost out: seq<byte>)
      returns (ptr: nat)
      requires Valid() && |start| == HISTORY && ptr0 == from + |out| && 1 <= offset < HISTORY
      requires ptr0 + length <= HISTORY
      requires history[..] == Stored(start, from, out)
      modifies history
      ensures ptr == ptr0 + length
      ensures history[..] == Stored(start, from, out + CopyBytes(Past(start, from, out), offset, length))
    {
      hide CopyBytes, Stored, Past;
      var lom := length;
      ptr := ptr0;
      ghost var past := Past(start, from, out);
      CopyNone(past, offset, out);
      var src: int := ptr - offset;
      if src >= 0 {
        while lom > 0
          invariant ptr == ptr0 + length - lom && src == ptr - offset && 0 <= lom <= length
          invariant history[..] == Stored(start, from, out + CopyBytes(past, offset, length - lom))
        {
          CopyStep(start, from, out, offset, length - lom);
          history[ptr] := history[src];
          ptr, src, lom := ptr + 1, src + 1, lom - 1;
        }
      } else {
        src := HISTORY - 1 - (offset - ptr) + 1;
        while lom > 0 && src <= HISTORY - 1
          invariant ptr == ptr0 + length - lom && src == ptr - offset + HISTORY <= HISTORY && 0 <= lom <= length
          invariant history[..] == Stored(start, from, out + CopyBytes(past, offset, length - lom))
        {
          CopyStep(start, from, out, offset, length - lom);
          history[ptr] := history[src];
          ptr, src, lom := ptr + 1, src + 1, lom - 1;
        }
        src := 0;
        while lom > 0
          invariant ptr == ptr0 + length - lom && 0 <= lom <= length && (lom > 0 ==> src == ptr - offset)
          invariant history[..] == Stored(start, from, out + CopyBytes(past, offset, length - lom))
        {
          CopyStep(start, from, out, offset, length - lom);
          history[ptr] := history[src];
          ptr, src, lom := ptr + 1, src + 1, lom - 1;
        }
      }
    }

    /** One token: decode it, append its bytes, refill the reservoir. */
    method Turn(form: Form, r: Reservoir, ptr0: nat,
                ghost start: seq<byte>, ghost from: nat, ghost out: seq<byte>, ghost total: seq<byte>)
      returns (ptr: nat, ghost out': seq<byte>)
      requires Valid() && r.Valid() && r.Full() && r.bitsLeft >= 8
      requires Progress(form, start, from, out, r.Unread(), total) && ptr0 == from + |out|
      requires history[..] == Stored(start, from, out)
      modifies history, r`d32, r`bitsLeft, r`curByte, r`curBitsLeft, r`cptr
      ensures r.Valid() && r.Full() && |r.Unread()| < |old(r.Unread())|
      ensures Progress(form, start, from, out', r.Unread(), total) && ptr == from + |out'|
      ensures history[..] == Stored(start, from, out')
    {
      hide Stored, Parse, Expand, Pad32, ReadHead, ReadLength, CopyBytes, Expansion, BitsOf, BytesBits;
      r.View();
      ghost var bits := r.Unread();
      var h := r.GetHead(form);
      r.Refill();
      if h.Byte? {
        LiteralStep(form, start, from, out, bits, total);
        Append(ptr0, h.b, start, from, out);
        ptr, out' := ptr0 + 1, out + [h.b];
        return;
      }
      if h.offset == 0 {
        SkipStep(form, start, from, out, bits, total);
        ptr, out' := ptr0, out;
        return;
      }
      var length, n := r.GetLength(form);
      r.Refill();
      CopyTokenStep(form, start, from, out, bits, total);
      ptr := CopyMatch(ptr0, h.offset, length, start, from, out);
      out' := out + CopyBytes(Past(start, from, out), h.offset, length);
    }

    /** Expands a compressed packet at the local write position. */
    method Expand64(form: Form, cbuf: seq<byte>, ptr0: nat, ghost start: seq<byte>) returns (ptr: nat)
      requires Valid() && ptr0 <= HISTORY && history[..] == start
      requires ptr0 + |Unpacked(form, start, ptr0, cbuf)| <= HISTORY
      modifies history
      ensures history[..] == Stored(start, ptr0, Unpacked(form, start, ptr0, cbuf))
      ensures ptr == ptr0 + |Unpacked(form, start, ptr0, cbuf)|
    {
      hide Parse, Expand, BitsOf, BytesBits, Expansion;
      ghost var total, out := Unpacked(form, start, ptr0, cbuf), [];
      var r := new Reservoir(cbuf);
      ptr := ptr0;
      FirstStep(form, start, ptr0, cbuf);
      while r.bitsLeft >= 8
        invariant r.Valid() && r.Full() && fresh(r)
        invariant Progress(form, start, ptr0, out, r.Unread(), total) && ptr == ptr0 + |out|
        invariant history[..] == Stored(start, ptr0, out)
        decreases |r.Unread()|
      {
        ptr, out := Turn(form, r, ptr, start, ptr0, out, total);
      }
      r.View();
      LastStep(form, start, ptr0, out, r.Unread(), total);
    }

    /**
     Decompresses one packet. The packet's bytes end up at roff in the history; rlen is what the C code
     reports as their number, an unsigned 32-bit difference of write positions.
     */
    method Decompress(form: Form, cbuf: seq<byte>, flags: Flags) returns (roff: nat, rlen: nat)
      requires Valid()
      requires StartOf(flags, historyPtr) + |OutputOf(form, flags, history[..], historyPtr, cbuf)| <= HISTORY
      modifies this`historyPtr, history
      ensures Valid() && roff == StartOf(flags, old(historyPtr))
      ensures var out := OutputOf(form, flags, old(history[..]), old(historyPtr), cbuf);
        && history[..] == Stored(BaseOf(flags, old(history[..])), roff, out)
        && historyPtr == roff + |out|
        && rlen == ReportedLength(flags, old(historyPtr), |out|)
    {
      hide Unpacked, Stored;
      var ptr := historyPtr;
      roff := ptr;
      if flags.atFront {
        ptr := 0;
        historyPtr := 0;
        roff := 0;
      }
      if flags.flushed {
        ptr := 0;
        forall i | 0 <= i < history.Length {
          history[i] := 0;
        }
        roff := 0;
      }
      ghost var start := BaseOf(flags, old(history[..]));
      assert history[..] == start;
      if !flags.compressed {
        StoreAll(ptr, cbuf);
        ptr := ptr + |cbuf|;
      } else {
        ptr := Expand64(form, cbuf, ptr, start);
      }
      rlen := (ptr - historyPtr) % 0x1_0000_0000;
      historyPtr := ptr;
    }

    /** memcpy into the history. */
    method StoreAll(ptr: nat, cbuf: seq<byte>)
      requires Valid() && ptr + |cbuf| <= HISTORY
      modifies history
      ensures history[..] == Stored(old(history[..]), ptr, cbuf)
    {
      forall i | 0 <= i < |cbuf| {
        history[ptr + i] := cbuf[i];
      }
    }
  }

  lemma CopyNone(past: seq<byte>, offset: nat, out: seq<byte>)
    requires 1 <= offset <= |past|
    ensures out + CopyBytes(past, offset, 0) == out
  {
  }

  /** One byte of a copy: what the ring holds at the source is what the expansion appends. */
  lemma CopyStep(start: seq<byte>, from: nat, out: seq<byte>, offset: nat, n: nat)
    requires |start| == HISTORY && 1 <= offset < HISTORY && from + |out| + n < HISTORY
    ensures var past := Past(start, from, out);
      var done := out + CopyBytes(past, offset, n);
      var ring := Stored(start, from, done);
      ring[from + |done| := ring[Source(from + |done|, offset)]] == Stored(start, from, out + CopyBytes(past, offset, n + 1))
    ensures Source(from + |out| + n, offset)
         == if from + |out| + n >= offset then from + |out| + n - offset else from + |out| + n - offset + HISTORY
  {
    hide CopyBytes;
    var past := Past(start, from, out);
    var copied := CopyBytes(past, offset, n);
    var done := out + copied;
    var ring := Stored(start, from, done);
    var b := ring[Source(from + |done|, offset)];
    SourcePast(start, from, done, offset);
    assert Past(start, from, done) == past + copied;
    CopyBytesNext(past, offset, n);
    StoredNext(start, from, done, b);
    ConcatAssoc(out, copied, [b]);
  }
}

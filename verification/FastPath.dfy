/** The fast-path sender, which writes every header over bytes it has already sent, and the gathering receiver. */
module FastPath {
  import opened Bits
  import opened FastPathSpec
  import Wire

  method WriteOutputHeader(buffer: array<byte>, pos: nat, pduLength: nat, c: Cipher)
    requires pduLength <= MAX_PACKET && pos + 3 <= buffer.Length
    modifies buffer
    ensures buffer[pos..pos + 3] == OutputHeader(c, pduLength)
    ensures forall i :: 0 <= i < buffer.Length && (i < pos || i >= pos + 3) ==> buffer[i] == old(buffer[i])
  {
    buffer[pos] := if c.sec > 0 then 0x80 else 0;
    buffer[pos + 1] := 0x80 + pduLength / 256;
    buffer[pos + 2] := pduLength % 256;
  }

  method WriteUpdateHeader(buffer: array<byte>, p: nat, length: nat, code: nat, fragmentation: nat)
    requires fragmentation < 4 && p + 3 + length <= buffer.Length
    modifies buffer
    ensures buffer[p..p + 3 + length] == Body(code, fragmentation, old(buffer[p + 3..p + 3 + length]))
    ensures forall i :: 0 <= i < buffer.Length && (i < p || i >= p + 3) ==> buffer[i] == old(buffer[i])
  {
    ghost var data := buffer[p + 3..p + 3 + length];
    buffer[p] := code % 16 + 16 * fragmentation;
    buffer[p + 1] := length % 256;
    buffer[p + 2] := length / 256 % 256;
    assert buffer[p + 3..p + 3 + length] == data;
    assert buffer[p..p + 3 + length] == [buffer[p]] + [buffer[p + 1], buffer[p + 2]] + buffer[p + 3..p + 3 + length];
  }

  /** The output header at pos, room for the signature, and the update header before the data. */
  method WriteHeaders(buffer: array<byte>, pos: nat, length: nat, c: Cipher, code: nat, fragmentation: nat)
    requires fragmentation < 4 && HeaderSize(c) + length <= MAX_PACKET && pos + HeaderSize(c) + length <= buffer.Length
    modifies buffer
    ensures buffer[pos..pos + 3] == OutputHeader(c, HeaderSize(c) + length)
    ensures buffer[pos + 3 + c.sec..pos + HeaderSize(c) + length]
         == Body(code, fragmentation, old(buffer[pos + HeaderSize(c)..pos + HeaderSize(c) + length]))
    ensures forall i :: 0 <= i < buffer.Length && (i < pos || i >= pos + HeaderSize(c)) ==> buffer[i] == old(buffer[i])
  {
    hide Body, OutputHeader;
    ghost var data := buffer[pos + HeaderSize(c)..pos + HeaderSize(c) + length];
    WriteOutputHeader(buffer, pos, length + 6 + c.sec, c);
    ghost var header := buffer[pos..pos + 3];
    var p := pos + 3 + c.sec;
    assert buffer[p + 3..p + 3 + length] == data;
    WriteUpdateHeader(buffer, p, length, code, fragmentation);
    assert buffer[pos..pos + 3] == header;
  }

  /**
   Turns the data after position pos into a PDU in place: the header goes into the room before the data, and the
   cipher works on the update header and the data.
   */
  method WriteFragment(buffer: array<byte>, pos: nat, length: nat, c: Cipher, k: nat, code: nat, fragmentation: nat)
    requires Sound(c) && fragmentation < 4 && HeaderSize(c) + length <= MAX_PACKET && pos + HeaderSize(c) + length <= buffer.Length
    modifies buffer
    ensures buffer[pos..pos + HeaderSize(c) + length]
         == Pdu(c, k, code, fragmentation, old(buffer[pos + HeaderSize(c)..pos + HeaderSize(c) + length]))
    ensures forall i :: 0 <= i < buffer.Length && (i < pos || i >= pos + HeaderSize(c) + length) ==> buffer[i] == old(buffer[i])
  {
    hide Body, OutputHeader;
    WriteHeaders(buffer, pos, length, c, code, fragmentation);
    ghost var header := buffer[pos..pos + 3];
    if c.sec > 0 {
      Protect(buffer, pos + 3, length + 3, c, k);
      assert buffer[pos..pos + 3] == header;
    }
    ghost var end := pos + HeaderSize(c) + length;
    assert buffer[pos..end] == buffer[pos..pos + 3] + buffer[pos + 3..end];
  }

  /** The signature goes before the sealed bytes, and these over the plain ones. */
  method Protect(buffer: array<byte>, start: nat, length: nat, c: Cipher, k: nat)
    requires Sound(c) && start + c.sec + length <= buffer.Length
    modifies buffer
    ensures buffer[start..start + c.sec + length] == c.seal(k, old(buffer[start + c.sec..start + c.sec + length]))
    ensures forall i :: 0 <= i < buffer.Length && (i < start || i >= start + c.sec + length) ==> buffer[i] == old(buffer[i])
  {
    var sealed := c.seal(k, buffer[start + c.sec..start + c.sec + length]);
    forall i | 0 <= i < |sealed| {
      buffer[start + i] := sealed[i];
    }
  }

  /** The next PDU of what is left of an update. The data after it stays as it was. */
  method NextFragment(buffer: array<byte>, n: nat, pos: nat, c: Cipher, k: nat, code: nat, first: bool, ghost was: seq<byte>)
    returns (length: nat, pdu: seq<byte>)
    requires Sound(c) && pos + HeaderSize(c) < n <= buffer.Length && |was| == buffer.Length
    requires forall i :: pos + HeaderSize(c) <= i < buffer.Length ==> buffer[i] == was[i]
    modifies buffer
    ensures c.sec <= 12 && length == Min(MaxData(c), n - pos - HeaderSize(c))
    ensures Pdus(c, k, code, was[pos + HeaderSize(c)..n], first)
         == [pdu] + Pdus(c, k + 1, code, was[pos + length + HeaderSize(c)..n], false)
    ensures forall i :: pos + length + HeaderSize(c) <= i < buffer.Length ==> buffer[i] == was[i]
  {
    hide Pdu, Sound, Pdus;
    SoundSize(c);
    var start := pos + HeaderSize(c);
    ghost var rest := was[start..n];
    var maxLength, totalLength := MAX_PACKET - 6 - c.sec, n - start;
    length := if maxLength < totalLength then maxLength else totalLength;
    totalLength := totalLength - length;
    assert buffer[start..start + length] == rest[..length];
    WriteFragment(buffer, pos, length, c, k, code, Fragmentation(first, totalLength == 0));
    pdu := buffer[pos..pos + HeaderSize(c) + length];
    NextPdu(c, k, code, rest, first);
    assert rest[length..] == was[start + length..n];
  }

  /**
   Sends the update held by the first n bytes of the buffer, after room for one header. The transport takes as many
   PDUs as accepts says. What is sent is made of the data as it was, so no header lands on data still to be sent.
   */
  method SendUpdate(buffer: array<byte>, n: nat, c: Cipher, k: nat, code: nat, accepts: nat)
    returns (ok: bool, sent: seq<seq<byte>>)
    requires Sound(c) && HeaderSize(c) <= n <= buffer.Length
    modifies buffer
    ensures var all := Pdus(c, k, code, old(buffer[HeaderSize(c)..n]), true);
      sent == Take(all, accepts) && ok == (|all| <= accepts)
    ensures buffer[n..] == old(buffer[n..])
  {
    hide Sound, Pdus, MaxData;
    SoundSize(c);
    ok, sent := true, [];
    var pos := 0;
    ghost var was := buffer[..];
    ghost var all := Pdus(c, k, code, was[HeaderSize(c)..n], true);
    while pos + HeaderSize(c) < n
      invariant pos + HeaderSize(c) <= n && ok && |sent| <= accepts
      invariant forall i :: pos + HeaderSize(c) <= i < buffer.Length ==> buffer[i] == was[i]
      invariant all == sent + Pdus(c, k + |sent|, code, was[pos + HeaderSize(c)..n], sent == [])
    {
      var length, pdu := NextFragment(buffer, n, pos, c, k + |sent|, code, sent == [], was);
      assert length > 0 by { SomeData(c); }
      ghost var later := Pdus(c, k + |sent| + 1, code, was[pos + length + HeaderSize(c)..n], false);
      ConcatAssoc(sent, [pdu], later);
      if |sent| == accepts {
        TakeDropConcat(sent, [pdu] + later);
        ok := false;
        return;
      }
      sent := sent + [pdu];
      pos := pos + length;
    }
    assert was[pos + HeaderSize(c)..n] == [];
    NoPdus(c, k + |sent|, code, sent == []);
    assert all == sent;
  }

  lemma SomeData(c: Cipher)
    requires c.sec <= 12
    ensures MaxData(c) > 0
  {
  }

  /** The PDUs of what is left, one at a time. */
  lemma NextPdu(c: Cipher, k: nat, code: nat, data: seq<byte>, first: bool)
    requires c.sec <= 12 && data != []
    ensures var length := Min(MaxData(c), |data|);
      Pdus(c, k, code, data, first)
      == [Pdu(c, k, code, Fragmentation(first, length == |data|), data[..length])] + Pdus(c, k + 1, code, data[length..], false)
  {
    hide Pdu;
    if |data| <= MaxData(c) {
      assert data[..|data|] == data && data[|data|..] == [];
    }
  }

  /** The receiver keeps the fragments of the current update. */
  class Receiver {
    var updateData: seq<byte>

    constructor ()
      ensures updateData == []
    {
      updateData := [];
    }

    /** One fragment: a whole update, or one more part of the gathered one. */
    method RecvFragment(updateCode: nat, fragmentation: nat, data: seq<byte>, used: Update -> nat) returns (updates: seq<Update>)
      modifies this
      ensures Received(updateData, updates) == Gather(updateCode, fragmentation, data, old(updateData), used)
    {
      updates := [];
      if fragmentation == SINGLE {
        updates := [Update(updateCode, data)];
      } else {
        if fragmentation == FIRST {
          updateData := [];
        }
        updateData := updateData + data;
        if fragmentation == LAST {
          var update := Update(updateCode, updateData);
          updates := [update];
          updateData := Take(updateData, used(update));
        }
      }
    }

    /** All updates of one PDU. */
    method RecvUpdates(s: seq<byte>, used: Update -> nat) returns (ok: bool, updates: seq<Update>)
      modifies this
      ensures var r := FastPathSpec.RecvUpdates(s, old(updateData), used);
        if ok then r == Received(updateData, updates) else r == Unhandled
    {
      hide Gather, Readable, UpdateSize;
      ok, updates := true, [];
      var pos := 0;
      ghost var r := FastPathSpec.RecvUpdates(s, updateData, used);
      assert s[0..] == s;
      while |s| - pos >= 3
        invariant pos <= |s|
        invariant r == After(updates, FastPathSpec.RecvUpdates(s[pos..], updateData, used))
        decreases |s| - pos
      {
        var left := s[pos..];
        if !Readable(left) {
          return false, [];
        }
        var n := UpdateHeaderSize(left);
        ReadableBounds(left);
        var size := UpdateSize(left);
        var now := RecvFragment(left[0] % 16, left[0] / 16 % 4, left[n..n + size], used);
        assert left[n + size..] == s[pos + n + size..];
        pos := pos + n + size;
        AfterAfter(updates, now, FastPathSpec.RecvUpdates(s[pos..], updateData, used));
        updates := updates + now;
      }
      assert updates + [] == updates;
    }

    /** One PDU, number k: its length is checked, and its body opened when the header says so. */
    method RecvPdu(c: Cipher, k: nat, pdu: seq<byte>, used: Update -> nat) returns (ok: bool, updates: seq<Update>)
      modifies this
      ensures var r := FastPathSpec.RecvPdu(c, k, pdu, old(updateData), used);
        if ok then r == Received(updateData, updates) else r == Unhandled
    {
      hide FastPathSpec.RecvUpdates;
      if |pdu| < 3 {
        return false, [];
      }
      var start, length: int;
      if pdu[1] >= 0x80 {
        start, length := 3, Wire.Digit(pdu[2], pdu[1] - 0x80) - 3;
      } else if pdu[1] <= 2 {
        return false, [];
      } else {
        start, length := 2, pdu[1] - 2;
      }
      if length <= 0 || length > |pdu| - start {
        return false, [];
      }
      var body := pdu[start..];
      if pdu[0] / 128 == 1 {
        body := c.open(k, body);
      }
      ok, updates := RecvUpdates(body, used);
    }
  }

  lemma ReadableBounds(s: seq<byte>)
    requires |s| >= 3 && Readable(s)
    ensures 3 <= UpdateHeaderSize(s) <= |s| && UpdateHeaderSize(s) + UpdateSize(s) <= |s|
  {
  }

  lemma AfterAfter(a: seq<Update>, b: seq<Update>, r: Received)
    ensures After(a, After(b, r)) == After(a + b, r)
  {
    if r.Received? {
      ConcatAssoc(a, b, r.updates);
    }
  }
}

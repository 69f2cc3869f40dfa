/**
 Fast-path output (section 2.2.9.1.2 of [MS-RDPBCGR]): one update is cut into PDUs of at most 0x3FFF bytes, each with
 its own header, and put together again from SINGLE, FIRST, NEXT and LAST fragments.
 */
module FastPathSpec {
  import opened Bits
  import Wire

  const MAX_PACKET: nat := 0x3FFF

  /** The protection of PDU number k: a signature of sec bytes and a cipher that keeps the length. */
  datatype Cipher = Cipher(sec: nat, seal: (nat, seq<byte>) -> seq<byte>, open: (nat, seq<byte>) -> seq<byte>)

  /** Signatures take 8 bytes; opening undoes sealing. */
  ghost predicate Sound(c: Cipher) {
    && (c.sec == 0 || c.sec == 8)
    && (forall k: nat, b: seq<byte> :: |c.seal(k, b)| == c.sec + |b| && c.open(k, c.seal(k, b)) == b)
  }

  function Sealed(c: Cipher, k: nat, b: seq<byte>): seq<byte> {
    if c.sec == 0 then b else c.seal(k, b)
  }

  // ---------- Sending ----------

  /** Room for the output header, the signature and the update header. */
  function HeaderSize(c: Cipher): nat {
    6 + c.sec
  }

  const SINGLE: nat := 0
  const LAST: nat := 1
  const FIRST: nat := 2
  const NEXT: nat := 3

  function Fragmentation(first: bool, last: bool): (f: nat)
    ensures f < 4
  {
    if last then if first then SINGLE else LAST else if first then FIRST else NEXT
  }

  /** Update header, size and data. */
  function Body(code: nat, fragmentation: nat, data: seq<byte>): (r: seq<byte>)
    requires fragmentation < 4
    ensures |r| == 3 + |data|
  {
    [code % 16 + 16 * fragmentation] + Wire.Le(|data|, 2) + data
  }

  function OutputHeader(c: Cipher, length: nat): (r: seq<byte>)
    requires length <= MAX_PACKET
    ensures |r| == 3
  {
    [if c.sec > 0 then 0x80 else 0, 0x80 + length / 256, length % 256]
  }

  function Pdu(c: Cipher, k: nat, code: nat, fragmentation: nat, data: seq<byte>): seq<byte>
    requires fragmentation < 4 && HeaderSize(c) + |data| <= MAX_PACKET
  {
    OutputHeader(c, HeaderSize(c) + |data|) + Sealed(c, k, Body(code, fragmentation, data))
  }

  function MaxData(c: Cipher): nat
    requires c.sec <= 12
  {
    MAX_PACKET - HeaderSize(c)
  }

  /** The PDUs of one update, numbered from k on; nothing is sent for an empty one. */
  function Pdus(c: Cipher, k: nat, code: nat, data: seq<byte>, first: bool): (r: seq<seq<byte>>)
    requires c.sec <= 12
    decreases |data|
  {
    if data == [] then []
    else if |data| <= MaxData(c) then [Pdu(c, k, code, Fragmentation(first, true), data)]
    else
      [Pdu(c, k, code, Fragmentation(first, false), data[..MaxData(c)])] + Pdus(c, k + 1, code, data[MaxData(c)..], false)
  }

  // ---------- Receiving ----------

  datatype Update = Update(code: nat, data: seq<byte>)

  /** What the receiver has gathered and delivered, or a PDU outside this model: cut short, or compressed. */
  datatype Received = Received(gathered: seq<byte>, updates: seq<Update>) | Unhandled

  const COMPRESSION_USED: nat := 2

  /** The length of an update's header, with the flags byte that compression adds. */
  function UpdateHeaderSize(s: seq<byte>): nat
    requires |s| >= 3
  {
    if s[0] / 64 == COMPRESSION_USED then 4 else 3
  }

  /** One update is complete at the end of s; bit 0x20 of the flags marks compressed data. */
  predicate Readable(s: seq<byte>)
    requires |s| >= 3
  {
    var n := UpdateHeaderSize(s);
    && n <= |s| && (n == 4 ==> s[1] / 32 % 2 == 0)
    && n + UpdateSize(s) <= |s|
  }

  function UpdateSize(s: seq<byte>): nat
    requires |s| >= 3 && UpdateHeaderSize(s) <= |s|
  {
    var n := UpdateHeaderSize(s);
    Wire.Digit(s[n - 2], s[n - 1])
  }

  /** What one fragment adds. The delivered buffer is kept up to where its handler stopped reading. */
  function Gather(code: nat, fragmentation: nat, data: seq<byte>, gathered: seq<byte>, used: Update -> nat): (r: Received)
    ensures r.Received?
  {
    if fragmentation == SINGLE then Received(gathered, [Update(code, data)])
    else
      var all := (if fragmentation == FIRST then [] else gathered) + data;
      if fragmentation == LAST then Received(Take(all, used(Update(code, all))), [Update(code, all)]) else Received(all, [])
  }

  function RecvUpdates(s: seq<byte>, gathered: seq<byte>, used: Update -> nat): Received
    decreases |s|
  {
    if |s| < 3 then Received(gathered, [])
    else if !Readable(s) then Unhandled
    else
      var n := UpdateHeaderSize(s);
      var g := Gather(s[0] % 16, s[0] / 16 % 4, s[n..n + UpdateSize(s)], gathered, used);
      After(g.updates, RecvUpdates(s[n + UpdateSize(s)..], g.gathered, used))
  }

  function After(updates: seq<Update>, r: Received): Received {
    if r.Unhandled? then Unhandled else Received(r.gathered, updates + r.updates)
  }

  /** One PDU, number k. */
  function RecvPdu(c: Cipher, k: nat, pdu: seq<byte>, gathered: seq<byte>, used: Update -> nat): Received {
    if |pdu| < 3 || (pdu[1] < 0x80 && pdu[1] <= 2) then Unhandled
    else
      var start := if pdu[1] >= 0x80 then 3 else 2;
      var length: int := if pdu[1] >= 0x80 then Wire.Digit(pdu[2], pdu[1] - 0x80) - 3 else pdu[1] - 2;
      if length <= 0 || length > |pdu| - start then Unhandled
      else RecvUpdates(if pdu[0] / 128 == 1 then c.open(k, pdu[start..]) else pdu[start..], gathered, used)
  }

  function RecvAll(c: Cipher, k: nat, pdus: seq<seq<byte>>, gathered: seq<byte>, used: Update -> nat): Received
    decreases |pdus|
  {
    if pdus == [] then Received(gathered, [])
    else
      var r := RecvPdu(c, k, pdus[0], gathered, used);
      if r.Unhandled? then Unhandled else After(r.updates, RecvAll(c, k + 1, pdus[1..], r.gathered, used))
  }

  // ---------- Reassembly ----------

  /** One PDU carries one fragment. */
  lemma RecvFragment(c: Cipher, k: nat, code: nat, f: nat, data: seq<byte>, gathered: seq<byte>, used: Update -> nat)
    requires Sound(c) && f < 4 && HeaderSize(c) + |data| <= MAX_PACKET
    ensures RecvPdu(c, k, Pdu(c, k, code, f, data), gathered, used) == Gather(code % 16, f, data, gathered, used)
  {
    hide Gather;
    var pdu, body := Pdu(c, k, code, f, data), Body(code, f, data);
    var n := HeaderSize(c) + |data|;
    assert pdu[3..] == Sealed(c, k, body);
    assert n / 256 * 256 + n % 256 == n;
    RecvBody(code, f, data, gathered, used);
  }

  lemma BodyBytes(code: nat, f: nat, data: seq<byte>)
    requires f < 4
    ensures var s := Body(code, f, data);
      && s[0] % 16 == code % 16 && s[0] / 16 % 4 == f && s[0] / 64 == 0
      && s[1] == |data| % 256 && s[2] == |data| / 256 % 256
      && s[3..3 + |data|] == data && s[3 + |data|..] == []
  {
    hide Wire.Le;
    Wire.LeTwo(|data|);
  }

  lemma RecvBody(code: nat, f: nat, data: seq<byte>, gathered: seq<byte>, used: Update -> nat)
    requires f < 4 && |data| < 0x1_0000
    ensures RecvUpdates(Body(code, f, data), gathered, used) == Gather(code % 16, f, data, gathered, used)
  {
    hide Gather, Body;
    BodyBytes(code, f, data);
    var s := Body(code, f, data);
    assert UpdateHeaderSize(s) == 3 && UpdateSize(s) == |data|;
    var g := Gather(code % 16, f, data, gathered, used);
    assert g.updates + [] == g.updates;
  }

  /** The fragments after the first complete what was gathered. */
  lemma {:induction false} RecvRest(c: Cipher, k: nat, code: nat, data: seq<byte>, gathered: seq<byte>, used: Update -> nat)
    requires Sound(c) && data != []
    ensures RecvAll(c, k, Pdus(c, k, code, data, false), gathered, used)
         == Received(Take(gathered + data, used(Update(code % 16, gathered + data))), [Update(code % 16, gathered + data)])
    decreases |data|
  {
    hide RecvPdu, Pdu;
    var pdus := Pdus(c, k, code, data, false);
    if |data| <= MaxData(c) {
      RecvFragment(c, k, code, LAST, data, gathered, used);
      assert pdus[1..] == [];
    } else {
      var now, rest := data[..MaxData(c)], data[MaxData(c)..];
      RecvFragment(c, k, code, NEXT, now, gathered, used);
      RecvRest(c, k + 1, code, rest, gathered + now, used);
      assert pdus[1..] == Pdus(c, k + 1, code, rest, false);
      assert gathered + now + rest == gathered + data by { assert data == now + rest; ConcatAssoc(gathered, now, rest); }
    }
  }

  /** Whatever was gathered before, the PDUs of a non-empty update deliver exactly that update. */
  lemma Reassembly(c: Cipher, k: nat, code: nat, data: seq<byte>, gathered: seq<byte>, used: Update -> nat)
    requires Sound(c) && data != []
    ensures RecvAll(c, k, Pdus(c, k, code, data, true), gathered, used).Received?
    ensures RecvAll(c, k, Pdus(c, k, code, data, true), gathered, used).updates == [Update(code % 16, data)]
    ensures forall i :: 0 <= i < |Pdus(c, k, code, data, true)| ==> |Pdus(c, k, code, data, true)[i]| <= MAX_PACKET
  {
    hide RecvPdu, Pdu;
    PduSizes(c, k, code, data, true);
    var pdus := Pdus(c, k, code, data, true);
    if |data| <= MaxData(c) {
      RecvFragment(c, k, code, SINGLE, data, gathered, used);
      assert pdus[1..] == [];
    } else {
      var now, rest := data[..MaxData(c)], data[MaxData(c)..];
      RecvFragment(c, k, code, FIRST, now, gathered, used);
      assert [] + now == now;
      RecvRest(c, k + 1, code, rest, now, used);
      assert pdus[1..] == Pdus(c, k + 1, code, rest, false);
      assert data == now + rest;
    }
  }

  lemma {:induction false} PduSizes(c: Cipher, k: nat, code: nat, data: seq<byte>, first: bool)
    requires Sound(c)
    ensures forall i :: 0 <= i < |Pdus(c, k, code, data, first)| ==> |Pdus(c, k, code, data, first)[i]| <= MAX_PACKET
    decreases |data|
  {
    if |data| > MaxData(c) {
      PduSizes(c, k + 1, code, data[MaxData(c)..], false);
    }
  }

  // ---------- Whole sessions ----------

  /** The PDUs of a sequence of updates. */
  function SessionPdus(c: Cipher, k: nat, us: seq<Update>): (r: seq<seq<byte>>)
    requires c.sec <= 12
    decreases |us|
  {
    if us == [] then []
    else
      var now := Pdus(c, k, us[0].code, us[0].data, true);
      now + SessionPdus(c, k + |now|, us[1..])
  }

  /** What arrives of a sequence of updates: the non-empty ones, with the low four bits of their code. */
  function Arriving(us: seq<Update>): seq<Update>
    decreases |us|
  {
    if us == [] then []
    else (if us[0].data == [] then [] else [Update(us[0].code % 16, us[0].data)]) + Arriving(us[1..])
  }

  lemma {:induction false} RecvConcat(c: Cipher, k: nat, a: seq<seq<byte>>, b: seq<seq<byte>>, gathered: seq<byte>, used: Update -> nat)
    ensures var r := RecvAll(c, k, a, gathered, used);
      RecvAll(c, k, a + b, gathered, used)
      == if r.Unhandled? then Unhandled else After(r.updates, RecvAll(c, k + |a|, b, r.gathered, used))
    decreases |a|
  {
    hide RecvPdu;
    if a == [] {
      assert a + b == b;
      var t := RecvAll(c, k, b, gathered, used);
      assert t.Received? ==> [] + t.updates == t.updates;
    } else {
      assert (a + b)[1..] == a[1..] + b;
      var r := RecvPdu(c, k, a[0], gathered, used);
      if r.Received? {
        RecvConcat(c, k + 1, a[1..], b, r.gathered, used);
        var x := RecvAll(c, k + 1, a[1..], r.gathered, used);
        if x.Received? {
          var y := RecvAll(c, k + |a|, b, x.gathered, used);
          if y.Received? {
            ConcatAssoc(r.updates, x.updates, y.updates);
          }
        }
      }
    }
  }

  /** Every sequence of updates arrives whole, in order and with nothing added. */
  lemma {:induction false} SessionDelivers(c: Cipher, k: nat, us: seq<Update>, gathered: seq<byte>, used: Update -> nat)
    requires Sound(c)
    ensures RecvAll(c, k, SessionPdus(c, k, us), gathered, used).Received?
    ensures RecvAll(c, k, SessionPdus(c, k, us), gathered, used).updates == Arriving(us)
    decreases |us|
  {
    hide RecvPdu, Pdu, Pdus, Sound;
    if us != [] {
      SoundSize(c);
      var now := Pdus(c, k, us[0].code, us[0].data, true);
      if us[0].data == [] {
        NoPdus(c, k, us[0].code, true);
      } else {
        Reassembly(c, k, us[0].code, us[0].data, gathered, used);
      }
      var r := RecvAll(c, k, now, gathered, used);
      SessionDelivers(c, k + |now|, us[1..], r.gathered, used);
      RecvConcat(c, k, now, SessionPdus(c, k + |now|, us[1..]), gathered, used);
    }
  }

  lemma SoundSize(c: Cipher)
    requires Sound(c)
    ensures c.sec <= 12
  {
  }

  lemma NoPdus(c: Cipher, k: nat, code: nat, first: bool)
    requires c.sec <= 12
    ensures Pdus(c, k, code, [], first) == []
  {
  }
}

/**
 Fast-path output on the wire, in plain numbers (section 2.2.9.1.2 of [MS-RDPBCGR]): the bytes of every PDU a sender makes,
 and what a receiver makes of PDUs that hold any number of updates.
 */
module FastPathLaws {
  import opened Bits
  import opened Grid
  import opened FastPathSpec
  import Wire

  // ---------- Sending ----------

  /** Marks of a fragment: 0 alone, 2 first, 3 in the middle, 1 last. */
  function Mark(first: bool, last: bool): (m: nat)
    ensures m < 4
  {
    if first && last then 0 else if first then 2 else if last then 1 else 3
  }

  /** Update header, size and data. */
  function FragmentBytes(code: nat, mark: nat, data: seq<byte>): seq<byte>
    requires mark < 4
  {
    [code % 16 + 16 * mark, |data| % 256, |data| / 256 % 256] + data
  }

  /** Flag, length with its top bit set, and the protected update. */
  function PduBytes(c: Cipher, k: nat, body: seq<byte>): seq<byte>
    requires 3 + c.sec + |body| <= 0x3FFF
  {
    var n := 3 + c.sec + |body|;
    [if c.sec == 0 then 0 else 128, 128 + n / 256, n % 256] + if c.sec == 0 then body else c.seal(k, body)
  }

  lemma BodyIs(code: nat, mark: nat, data: seq<byte>)
    requires mark < 4
    ensures Body(code, mark, data) == FragmentBytes(code, mark, data)
  {
    hide Wire.Le;
    Wire.LeTwo(|data|);
  }

  lemma PduIs(c: Cipher, k: nat, code: nat, first: bool, last: bool, data: seq<byte>)
    requires Sound(c) && 6 + c.sec + |data| <= 0x3FFF
    ensures Pdu(c, k, code, Fragmentation(first, last), data) == PduBytes(c, k, FragmentBytes(code, Mark(first, last), data))
  {
    hide FragmentBytes, Body;
    BodyIs(code, Mark(first, last), data);
  }

  /**
   PDU i of an update carries bytes i * n up to (i + 1) * n of its data, where n is 16377 less the signature, and is marked
   as alone, first, last or in the middle.
   */
  lemma {:induction false} PduLaw(c: Cipher, k: nat, code: nat, data: seq<byte>, first: bool, i: nat)
    requires Sound(c) && i < |Pdus(c, k, code, data, first)|
    ensures var n := 16377 - c.sec;
      && Row(i, n) < |data| && 6 + c.sec + |Part(data, n, i)| <= 0x3FFF
      && Pdus(c, k, code, data, first)[i]
         == PduBytes(c, k + i, FragmentBytes(code, Mark(first && i == 0, Row(i, n) + n >= |data|), Part(data, n, i)))
    decreases i
  {
    hide Pdu, PduBytes, FragmentBytes, Fragmentation, Mark;
    var n: nat := 16377 - c.sec;
    if |data| <= n {
      PduIs(c, k, code, first, true, data);
      assert Part(data, n, 0) == data;
    } else if i == 0 {
      PduIs(c, k, code, first, false, data[..n]);
      assert Part(data, n, 0) == data[..n];
    } else {
      PduLaw(c, k + 1, code, data[n..], false, i - 1);
      PartNext(data, n, i);
    }
  }

  /** As many PDUs as it takes. */
  lemma {:induction false} PduCount(c: Cipher, k: nat, code: nat, data: seq<byte>, first: bool)
    requires Sound(c)
    ensures |data| <= Row(|Pdus(c, k, code, data, first)|, 16377 - c.sec)
    decreases |data|
  {
    hide Pdu;
    var n: nat := 16377 - c.sec;
    if |data| > n {
      PduCount(c, k + 1, code, data[n..], false);
    } else if data != [] {
      assert Row(1, n) == Row(0, n) + n;
    }
  }

  // ---------- Receiving ----------

  /** What each mark does. */
  lemma GatherLaw(code: nat, data: seq<byte>, gathered: seq<byte>, used: Update -> nat)
    ensures Gather(code, 0, data, gathered, used) == Received(gathered, [Update(code, data)])
    ensures Gather(code, 2, data, gathered, used) == Received(data, [])
    ensures Gather(code, 3, data, gathered, used) == Received(gathered + data, [])
    ensures var all := gathered + data;
      Gather(code, 1, data, gathered, used) == Received(Take(all, used(Update(code, all))), [Update(code, all)])
  {
    assert [] + data == data;
  }

  /** The first fragment of a PDU is handled, and then the rest of it. */
  lemma RecvNext(code: nat, mark: nat, data: seq<byte>, rest: seq<byte>, gathered: seq<byte>, used: Update -> nat)
    requires mark < 4 && |data| < 0x1_0000
    ensures var g := Gather(code % 16, mark, data, gathered, used);
      RecvUpdates(FragmentBytes(code, mark, data) + rest, gathered, used) == After(g.updates, RecvUpdates(rest, g.gathered, used))
  {
    hide Gather;
    var s := FragmentBytes(code, mark, data) + rest;
    assert s[0] % 16 == code % 16 && s[0] / 16 % 4 == mark && s[0] / 64 == 0;
    assert UpdateHeaderSize(s) == 3 && UpdateSize(s) == |data|;
    assert s[3..3 + |data|] == data && s[3 + |data|..] == rest;
  }

  /** With a flags byte that announces no compression the same fragment is read. */
  lemma RecvFlagged(code: nat, mark: nat, flags: byte, data: seq<byte>, rest: seq<byte>, gathered: seq<byte>, used: Update -> nat)
    requires mark < 4 && |data| < 0x1_0000 && flags / 32 % 2 == 0
    ensures var g := Gather(code % 16, mark, data, gathered, used);
      RecvUpdates([code % 16 + 16 * mark + 128, flags, |data| % 256, |data| / 256] + data + rest, gathered, used)
      == After(g.updates, RecvUpdates(rest, g.gathered, used))
  {
    hide Gather;
    var s := [code % 16 + 16 * mark + 128, flags, |data| % 256, |data| / 256] + data + rest;
    assert s[0] % 16 == code % 16 && s[0] / 16 % 4 == mark && s[0] / 64 == 2;
    assert UpdateHeaderSize(s) == 4 && UpdateSize(s) == |data|;
    assert s[4..4 + |data|] == data && s[4 + |data|..] == rest;
  }

  datatype Fragment = Fragment(code: nat, mark: nat, data: seq<byte>)

  predicate Sized(fs: seq<Fragment>) {
    forall i :: 0 <= i < |fs| ==> fs[i].mark < 4 && |fs[i].data| < 0x1_0000
  }

  function AllBytes(fs: seq<Fragment>): seq<byte>
    requires Sized(fs)
    decreases |fs|
  {
    if fs == [] then [] else FragmentBytes(fs[0].code, fs[0].mark, fs[0].data) + AllBytes(fs[1..])
  }

  /** Fragment after fragment, from what was gathered before. */
  function Gathering(fs: seq<Fragment>, gathered: seq<byte>, used: Update -> nat): Received
    decreases |fs|
  {
    if fs == [] then Received(gathered, [])
    else
      var g := Gather(fs[0].code % 16, fs[0].mark, fs[0].data, gathered, used);
      After(g.updates, Gathering(fs[1..], g.gathered, used))
  }

  /** A PDU may hold any number of fragments; all of them are handled, in order. */
  lemma {:induction false} RecvMany(fs: seq<Fragment>, gathered: seq<byte>, used: Update -> nat)
    requires Sized(fs)
    ensures RecvUpdates(AllBytes(fs), gathered, used) == Gathering(fs, gathered, used)
    decreases |fs|
  {
    hide Gather, FragmentBytes, RecvUpdates;
    if fs == [] {
      NothingToRecv(gathered, used);
    } else {
      RecvNext(fs[0].code, fs[0].mark, fs[0].data, AllBytes(fs[1..]), gathered, used);
      RecvMany(fs[1..], Gather(fs[0].code % 16, fs[0].mark, fs[0].data, gathered, used).gathered, used);
    }
  }

  lemma NothingToRecv(gathered: seq<byte>, used: Update -> nat)
    ensures RecvUpdates([], gathered, used) == Received(gathered, [])
  {
  }

  /** Whole updates in one PDU arrive one by one, whatever was gathered. */
  lemma {:induction false} SinglesArrive(us: seq<Update>, gathered: seq<byte>, used: Update -> nat)
    requires forall i :: 0 <= i < |us| ==> |us[i].data| < 0x1_0000
    ensures RecvUpdates(AllBytes(Singles(us)), gathered, used) == Received(gathered, Lowered(us))
    decreases |us|
  {
    hide Gather, FragmentBytes, RecvUpdates;
    if us == [] {
      NothingToRecv(gathered, used);
    } else {
      var fs := Singles(us);
      assert fs[1..] == Singles(us[1..]);
      RecvNext(us[0].code, 0, us[0].data, AllBytes(fs[1..]), gathered, used);
      GatherLaw(us[0].code % 16, us[0].data, gathered, used);
      SinglesArrive(us[1..], gathered, used);
      assert Lowered(us) == [Update(us[0].code % 16, us[0].data)] + Lowered(us[1..]);
    }
  }

  function Singles(us: seq<Update>): (fs: seq<Fragment>)
    ensures |fs| == |us|
    ensures (forall i :: 0 <= i < |us| ==> |us[i].data| < 0x1_0000) ==> Sized(fs)
  {
    seq(|us|, i requires 0 <= i < |us| => Fragment(us[i].code, 0, us[i].data))
  }

  /** Four bits of the code are sent. */
  function Lowered(us: seq<Update>): seq<Update> {
    seq(|us|, i requires 0 <= i < |us| => Update(us[i].code % 16, us[i].data))
  }

  /** The two forms of a PDU's length, and the flag that its contents are protected. */
  lemma RecvPduLaw(c: Cipher, k: nat, body: seq<byte>, gathered: seq<byte>, used: Update -> nat, guarded: bool)
    requires Sound(c) && body != []
    ensures var s, flag := if guarded then c.seal(k, body) else body, if guarded then 128 else 0;
      && (3 + |s| <= 0x7FFF ==>
        RecvPdu(c, k, [flag, 128 + (3 + |s|) / 256, (3 + |s|) % 256] + s, gathered, used) == RecvUpdates(body, gathered, used))
      && (2 + |s| < 128 ==> RecvPdu(c, k, [flag, 2 + |s|] + s, gathered, used) == RecvUpdates(body, gathered, used))
  {
    hide RecvUpdates;
    var s, flag := if guarded then c.seal(k, body) else body, if guarded then 128 else 0;
    assert |s| >= 1;
    if 3 + |s| <= 0x7FFF {
      var pdu := [flag, 128 + (3 + |s|) / 256, (3 + |s|) % 256] + s;
      assert pdu[3..] == s;
    }
    if 2 + |s| < 128 {
      var pdu := [flag, 2 + |s|] + s;
      assert pdu[2..] == s;
    }
  }
}

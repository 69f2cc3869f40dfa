/**
 Static virtual channels (section 3.1.5.2 of [MS-RDPBCGR]): a message is cut into chunks that carry its total length
 and FIRST and LAST flags; the peer gathers the chunks of each channel and queues whole messages.
 */
module Chunks {
  import opened Bits
  import Wire

  // ---------- Sending ----------

  const FIRST: nat := 1
  const LAST: nat := 2
  const SHOW_PROTOCOL: nat := 0x10

  function Flags(first: bool, last: bool, show: bool): (f: nat)
    ensures f < 32 && (f % 2 == 1 <==> first) && (f / 2 % 2 == 1 <==> last)
  {
    (if first then FIRST else 0) + (if last then LAST else 0) + (if show then SHOW_PROTOCOL else 0)
  }

  function ChunkBytes(total: nat, flags: nat, data: seq<byte>): (r: seq<byte>)
    ensures |r| == 8 + |data|
  {
    Wire.Le(total, 4) + Wire.Le(flags, 4) + data
  }

  /** The chunks of what is left of a message; an empty message has none. */
  function MessageChunks(total: nat, left: seq<byte>, size: nat, show: bool, first: bool): (r: seq<seq<byte>>)
    requires size > 0
    decreases |left|
  {
    if left == [] then []
    else if |left| > size then
      [ChunkBytes(total, Flags(first, false, show), left[..size])] + MessageChunks(total, left[size..], size, show, false)
    else [ChunkBytes(total, Flags(first, true, show), left)]
  }

  datatype ChannelDef = ChannelDef(id: nat, showProtocol: bool)

  datatype Packet = Packet(channel: nat, bytes: seq<byte>)

  function OnChannel(id: nat, chunks: seq<seq<byte>>): (r: seq<Packet>)
    ensures |r| == |chunks|
  {
    seq(|chunks|, i requires 0 <= i < |chunks| => Packet(id, chunks[i]))
  }

  /** Index i is the first channel of that number, or past the end when there is none. */
  ghost predicate FirstDef(channels: seq<ChannelDef>, id: nat, i: nat) {
    && i <= |channels| && (forall j :: 0 <= j < i ==> channels[j].id != id)
    && (i < |channels| ==> channels[i].id == id)
  }

  /** Sends a message on a known channel, chunk by chunk. */
  method Send(channels: seq<ChannelDef>, chunkSize: nat, id: nat, data: seq<byte>) returns (ok: bool, sent: seq<Packet>)
    requires chunkSize > 0
    ensures exists i: nat :: FirstDef(channels, id, i) && ok == (i < |channels|) && sent == if !ok then []
      else OnChannel(id, MessageChunks(|data|, data, chunkSize, channels[i].showProtocol, true))
  {
    hide MessageChunks, OnChannel;
    var i := 0;
    while i < |channels| && channels[i].id != id
      invariant i <= |channels| && forall j :: 0 <= j < i ==> channels[j].id != id
    {
      i := i + 1;
    }
    assert FirstDef(channels, id, i);
    if i == |channels| {
      return false, [];
    }
    ok := true;
    sent := SendChunks(id, channels[i].showProtocol, chunkSize, data);
  }

  lemma OneMore(id: nat, chunks: seq<seq<byte>>, chunk: seq<byte>)
    ensures OnChannel(id, chunks + [chunk]) == OnChannel(id, chunks) + [Packet(id, chunk)]
  {
  }

  method SendChunks(id: nat, show: bool, chunkSize: nat, data: seq<byte>) returns (sent: seq<Packet>)
    requires chunkSize > 0
    ensures sent == OnChannel(id, MessageChunks(|data|, data, chunkSize, show, true))
  {
    hide ChunkBytes, Flags, OnChannel;
    var first, left := true, data;
    ghost var all := MessageChunks(|data|, data, chunkSize, show, true);
    ghost var chunks: seq<seq<byte>> := [];
    sent := [];
    assert OnChannel(id, []) == [];
    while |left| > 0
      invariant all == chunks + MessageChunks(|data|, left, chunkSize, show, first)
      invariant sent == OnChannel(id, chunks)
      decreases |left|
    {
      var size := if |left| > chunkSize then chunkSize else |left|;
      var chunk := ChunkBytes(|data|, Flags(first, |left| <= chunkSize, show), left[..size]);
      assert left[..|left|] == left && left[|left|..] == [];
      ConcatAssoc(chunks, [chunk], MessageChunks(|data|, left[size..], chunkSize, show, false));
      OneMore(id, chunks, chunk);
      sent := sent + [Packet(id, chunk)];
      chunks := chunks + [chunk];
      left := left[size..];
      first := false;
    }
    assert all == chunks;
  }

  // ---------- Receiving ----------

  /** A peer channel: the chunks of the current message, the queue of whole ones, and how many had the wrong length. */
  datatype Channel = Channel(dynamic: bool, gathered: seq<byte>, queue: seq<seq<byte>>, mismatches: nat)

  function Processed(ch: Channel, data: seq<byte>, flags: nat, total: nat): Channel {
    var all := (if flags % 2 == 1 then [] else ch.gathered) + data;
    if flags / 2 % 2 == 1 then
      Channel(ch.dynamic, [], if ch.dynamic then ch.queue else ch.queue + [all],
              if |all| != total then ch.mismatches + 1 else ch.mismatches)
    else ch.(gathered := all)
  }

  /** One chunk as it comes off the wire; the header is eight bytes. */
  function RecvChunk(ch: Channel, bytes: seq<byte>): Channel {
    if |bytes| < 8 then ch else Processed(ch, bytes[8..], Wire.UnLe(bytes[4..], 4), Wire.UnLe(bytes, 4))
  }

  function RecvChunks(ch: Channel, chunks: seq<seq<byte>>): Channel
    decreases |chunks|
  {
    if chunks == [] then ch else RecvChunks(RecvChunk(ch, chunks[0]), chunks[1..])
  }

  /** The peer's channel object. */
  class PeerChannel {
    const dynamic: bool
    var receiveData: seq<byte>
    var receiveQueue: seq<seq<byte>>
    ghost var mismatches: nat

    ghost function View(): Channel
      reads this
    {
      Channel(dynamic, receiveData, receiveQueue, mismatches)
    }

    constructor (isDynamic: bool)
      ensures View() == Channel(isDynamic, [], [], 0)
    {
      dynamic, receiveData, receiveQueue, mismatches := isDynamic, [], [], 0;
    }

    method ProcessChannelData(data: seq<byte>, flags: nat, totalSize: nat)
      modifies this
      ensures View() == Processed(old(View()), data, flags, totalSize)
    {
      if flags % 2 == 1 {
        receiveData := [];
      }
      receiveData := receiveData + data;
      if flags / 2 % 2 == 1 {
        if |receiveData| != totalSize {
          mismatches := mismatches + 1;
        }
        if !dynamic {
          receiveQueue := receiveQueue + [receiveData];
        }
        receiveData := [];
      }
    }
  }

  datatype Entry = Entry(id: nat, handle: PeerChannel?)

  ghost predicate FirstEntry(channels: seq<Entry>, id: nat, i: nat) {
    && i <= |channels| && (forall j :: 0 <= j < i ==> channels[j].id != id)
    && (i < |channels| ==> channels[i].id == id)
  }

  /** Hands a chunk to the first channel of that number, if it has been opened; no other channel changes. */
  method ReceiveChannelData(channels: seq<Entry>, id: nat, data: seq<byte>, flags: nat, totalSize: nat) returns (result: bool)
    modifies set e | e in channels && e.handle != null :: e.handle
    ensures exists i: nat :: (
      && FirstEntry(channels, id, i) && result == (i < |channels| && channels[i].handle != null)
      && (result ==> channels[i].handle.View() == Processed(old(channels[i].handle.View()), data, flags, totalSize))
      && (forall e :: e in channels && e.handle != null && (result ==> e.handle != channels[i].handle) ==> unchanged(e.handle)))
  {
    var i := 0;
    while i < |channels| && channels[i].id != id
      invariant i <= |channels| && forall j :: 0 <= j < i ==> channels[j].id != id
      modifies {}
    {
      i := i + 1;
    }
    assert FirstEntry(channels, id, i);
    result := false;
    if i < |channels| {
      var channel := channels[i].handle;
      if channel != null {
        assert channels[i] in channels;
        channel.ProcessChannelData(data, flags, totalSize);
        result := true;
      }
    }
  }

  // ---------- One channel ----------

  /** What a channel holds once a whole message has come in. */
  function Delivered(ch: Channel, message: seq<byte>): Channel {
    Channel(ch.dynamic, [], if ch.dynamic then ch.queue else ch.queue + [message], ch.mismatches)
  }

  lemma RecvChunkBytes(ch: Channel, total: nat, flags: nat, data: seq<byte>)
    requires total < 0x1_0000_0000 && flags < 0x1_0000_0000
    ensures RecvChunk(ch, ChunkBytes(total, flags, data)) == Processed(ch, data, flags, total)
  {
    hide Processed, Wire.UnLe, Wire.Le;
    var b := ChunkBytes(total, flags, data);
    assert b == Wire.Le(total, 4) + (Wire.Le(flags, 4) + data);
    assert b[4..] == Wire.Le(flags, 4) + data && b[8..] == data;
    Wire.UnLeLe(total, 4, Wire.Le(flags, 4) + data);
    Wire.UnLeLe(flags, 4, data);
  }

  /** The chunks after the first complete the gathered part. */
  lemma {:induction false} RecvRest(ch: Channel, total: nat, left: seq<byte>, size: nat, show: bool, first: bool)
    requires size > 0 && left != [] && total < 0x1_0000_0000
    requires |if first then [] else ch.gathered| + |left| == total
    ensures RecvChunks(ch, MessageChunks(total, left, size, show, first))
         == Delivered(ch, (if first then [] else ch.gathered) + left)
    decreases |left|
  {
    hide ChunkBytes, RecvChunk, Flags;
    var chunks := MessageChunks(total, left, size, show, first);
    var before := if first then [] else ch.gathered;
    if |left| > size {
      var now, rest := left[..size], left[size..];
      RecvChunkBytes(ch, total, Flags(first, false, show), now);
      var ch1 := ch.(gathered := before + now);
      RecvRest(ch1, total, rest, size, show, false);
      assert chunks[1..] == MessageChunks(total, rest, size, show, false);
      assert left == now + rest;
      ConcatAssoc(before, now, rest);
    } else {
      RecvChunkBytes(ch, total, Flags(first, true, show), left);
      assert chunks[1..] == [];
    }
  }

  // ---------- Runs ----------

  datatype Message = Message(data: seq<byte>, show: bool)

  predicate Sendable(ms: seq<Message>) {
    forall i :: 0 <= i < |ms| ==> |ms[i].data| < 0x8000_0000
  }

  /** The chunk stream of the messages sent on one channel. */
  function Stream(ms: seq<Message>, size: nat): seq<seq<byte>>
    requires size > 0
    decreases |ms|
  {
    if ms == [] then []
    else MessageChunks(|ms[0].data|, ms[0].data, size, ms[0].show, true) + Stream(ms[1..], size)
  }

  function NonEmpty(ms: seq<Message>): seq<seq<byte>>
    decreases |ms|
  {
    if ms == [] then [] else (if ms[0].data == [] then [] else [ms[0].data]) + NonEmpty(ms[1..])
  }

  lemma {:induction false} RecvConcat(ch: Channel, a: seq<seq<byte>>, b: seq<seq<byte>>)
    ensures RecvChunks(ch, a + b) == RecvChunks(RecvChunks(ch, a), b)
    decreases |a|
  {
    hide RecvChunk;
    if a == [] {
      assert a + b == b;
    } else {
      assert (a + b)[1..] == a[1..] + b;
      RecvConcat(RecvChunk(ch, a[0]), a[1..], b);
    }
  }

  /** The stream of a channel leaves exactly its non-empty messages, in order, each of the announced length. */
  lemma {:induction false} StreamDelivers(ch: Channel, ms: seq<Message>, size: nat)
    requires size > 0 && Sendable(ms) && !ch.dynamic
    ensures var r := RecvChunks(ch, Stream(ms, size));
      r.queue == ch.queue + NonEmpty(ms) && r.mismatches == ch.mismatches && !r.dynamic
    decreases |ms|
  {
    hide RecvChunk, MessageChunks;
    if ms != [] {
      var m := ms[0];
      var now := MessageChunks(|m.data|, m.data, size, m.show, true);
      RecvConcat(ch, now, Stream(ms[1..], size));
      if m.data != [] {
        RecvRest(ch, |m.data|, m.data, size, m.show, true);
        assert [] + m.data == m.data;
      } else {
        NoChunks(|m.data|, size, m.show);
      }
      var ch1 := RecvChunks(ch, now);
      StreamDelivers(ch1, ms[1..], size);
      ConcatAssoc(ch.queue, if m.data == [] then [] else [m.data], NonEmpty(ms[1..]));
    }
  }

  lemma NoChunks(total: nat, size: nat, show: bool)
    requires size > 0
    ensures MessageChunks(total, [], size, show, true) == []
  {
  }

  /** All channels of a peer. */
  function Recv(channels: map<nat, Channel>, p: Packet): map<nat, Channel> {
    if p.channel in channels then channels[p.channel := RecvChunk(channels[p.channel], p.bytes)] else channels
  }

  function RecvAll(channels: map<nat, Channel>, wire: seq<Packet>): map<nat, Channel>
    decreases |wire|
  {
    if wire == [] then channels else RecvAll(Recv(channels, wire[0]), wire[1..])
  }

  /** The chunks of one channel among those of all. */
  function OfChannel(wire: seq<Packet>, id: nat): seq<seq<byte>>
    decreases |wire|
  {
    if wire == [] then []
    else (if wire[0].channel == id then [wire[0].bytes] else []) + OfChannel(wire[1..], id)
  }

  /** A channel sees only its own chunks. */
  lemma {:induction false} ChannelsApart(channels: map<nat, Channel>, wire: seq<Packet>, id: nat)
    requires id in channels
    ensures id in RecvAll(channels, wire)
    ensures RecvAll(channels, wire)[id] == RecvChunks(channels[id], OfChannel(wire, id))
    decreases |wire|
  {
    hide RecvChunk;
    if wire != [] {
      var rest := OfChannel(wire[1..], id);
      ChannelsApart(Recv(channels, wire[0]), wire[1..], id);
      if wire[0].channel == id {
        assert ([wire[0].bytes] + rest)[1..] == rest;
      } else {
        assert [] + rest == rest;
      }
    }
  }

  /**
   However the chunks of any number of channels are interleaved, each static channel's queue ends up with exactly the
   non-empty messages sent on it, in order, and every message has the length announced for it.
   */
  lemma InterleavingDelivers(channels: map<nat, Channel>, wire: seq<Packet>, id: nat, ms: seq<Message>, size: nat)
    requires id in channels && !channels[id].dynamic && size > 0 && Sendable(ms)
    requires OfChannel(wire, id) == Stream(ms, size)
    ensures id in RecvAll(channels, wire)
    ensures RecvAll(channels, wire)[id].queue == channels[id].queue + NonEmpty(ms)
    ensures RecvAll(channels, wire)[id].mismatches == channels[id].mismatches
  {
    ChannelsApart(channels, wire, id);
    StreamDelivers(channels[id], ms, size);
  }

  lemma {:induction false} QueueGrows(ch: Channel, chunks: seq<seq<byte>>)
    ensures ch.queue <= RecvChunks(ch, chunks).queue
    decreases |chunks|
  {
    hide Wire.UnLe;
    if chunks != [] {
      QueueGrows(RecvChunk(ch, chunks[0]), chunks[1..]);
    }
  }

  /** At every moment before that, a queue holds a prefix of them. */
  lemma PrefixDelivers(channels: map<nat, Channel>, wire: seq<Packet>, k: nat, id: nat, ms: seq<Message>, size: nat)
    requires id in channels && !channels[id].dynamic && size > 0 && Sendable(ms) && k <= |wire|
    requires OfChannel(wire, id) == Stream(ms, size)
    ensures id in RecvAll(channels, wire[..k])
    ensures RecvAll(channels, wire[..k])[id].queue <= channels[id].queue + NonEmpty(ms)
  {
    ChannelsApart(channels, wire[..k], id);
    OfChannelSplit(wire, k, id);
    var a, b := OfChannel(wire[..k], id), OfChannel(wire[k..], id);
    RecvConcat(channels[id], a, b);
    QueueGrows(RecvChunks(channels[id], a), b);
    StreamDelivers(channels[id], ms, size);
  }

  lemma {:induction false} OfChannelSplit(wire: seq<Packet>, k: nat, id: nat)
    requires k <= |wire|
    ensures OfChannel(wire, id) == OfChannel(wire[..k], id) + OfChannel(wire[k..], id)
    decreases k
  {
    if k == 0 {
      assert wire[..0] == [] && wire[0..] == wire;
    } else {
      OfChannelSplit(wire[1..], k - 1, id);
      assert wire[1..][..k - 1] == wire[..k][1..] && wire[1..][k - 1..] == wire[k..];
      assert wire[..k][0] == wire[0];
    }
  }
}

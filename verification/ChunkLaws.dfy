/**
 Virtual-channel chunks on the wire, in plain numbers (section 2.2.6.1 of [MS-RDPBCGR]): the bytes of every chunk a sender
 makes, and what each kind of chunk does at the receiver.
 */
module ChunkLaws {
  import opened Bits
  import opened Grid
  import opened Chunks
  import Wire

  /** 1 for the first chunk, 2 for the last, 16 when the channel shows its protocol. */
  function FlagsOf(first: bool, last: bool, show: bool): (f: nat)
    ensures f <= 19
  {
    (if first then 1 else 0) + (if last then 2 else 0) + (if show then 16 else 0)
  }

  /** Total length and flags, the lowest byte first, and the data. */
  function Bytes(total: nat, flags: nat, data: seq<byte>): seq<byte>
    requires flags < 256
  {
    [total % 256, total / 256 % 256, total / 65536 % 256, total / 16777216 % 256, flags, 0, 0, 0] + data
  }

  lemma ChunkBytesAre(total: nat, flags: nat, data: seq<byte>)
    requires flags < 256
    ensures ChunkBytes(total, flags, data) == Bytes(total, flags, data)
  {
    hide Wire.Le;
    Wire.LeFour(total);
    Wire.LeFour(flags);
  }

  /** Chunk i carries bytes i * size up to (i + 1) * size of the message, with the length of the whole message. */
  lemma {:induction false} ChunkLaw(total: nat, data: seq<byte>, size: nat, show: bool, first: bool, i: nat)
    requires size > 0 && i < |MessageChunks(total, data, size, show, first)|
    ensures Row(i, size) < |data|
    ensures MessageChunks(total, data, size, show, first)[i]
         == Bytes(total, FlagsOf(first && i == 0, Row(i, size) + size >= |data|, show), Part(data, size, i))
    decreases i
  {
    hide ChunkBytes, Bytes;
    if |data| <= size {
      ChunkBytesAre(total, FlagsOf(first, true, show), data);
      assert Part(data, size, 0) == data;
    } else if i == 0 {
      ChunkBytesAre(total, FlagsOf(first, false, show), data[..size]);
      assert Part(data, size, 0) == data[..size];
    } else {
      ChunkLaw(total, data[size..], size, show, false, i - 1);
      PartNext(data, size, i);
    }
  }

  lemma {:induction false} ChunkCount(total: nat, data: seq<byte>, size: nat, show: bool, first: bool)
    requires size > 0
    ensures |data| <= Row(|MessageChunks(total, data, size, show, first)|, size)
    decreases |data|
  {
    hide ChunkBytes;
    if |data| > size {
      ChunkCount(total, data[size..], size, show, false);
    } else if data != [] {
      assert Row(1, size) == Row(0, size) + size;
    }
  }

  /** What a chunk does on a static channel: the flag 1 forgets what was gathered, the flag 2 queues it, right length or not. */
  lemma ReceiveLaw(ch: Channel, total: nat, flags: nat, data: seq<byte>)
    requires !ch.dynamic && total < 0x1_0000_0000 && flags < 256
    ensures var r := RecvChunk(ch, Bytes(total, flags, data));
      && (flags % 4 == 0 ==> r.gathered == ch.gathered + data && r.queue == ch.queue)
      && (flags % 4 == 1 ==> r.gathered == data && r.queue == ch.queue)
      && (flags % 4 == 2 ==> r.gathered == [] && r.queue == ch.queue + [ch.gathered + data])
      && (flags % 4 == 3 ==> r.gathered == [] && r.queue == ch.queue + [data])
  {
    hide ChunkBytes, RecvChunk;
    ChunkBytesAre(total, flags, data);
    RecvChunkBytes(ch, total, flags, data);
    assert [] + data == data;
  }

  /** A dynamic channel queues nothing here, and bytes too few for a header do nothing. */
  lemma NoQueueLaw(ch: Channel, bytes: seq<byte>)
    ensures ch.dynamic ==> RecvChunk(ch, bytes).queue == ch.queue
    ensures |bytes| < 8 ==> RecvChunk(ch, bytes) == ch
  {
    hide Wire.UnLe;
  }
}

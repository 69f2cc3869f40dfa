/**
 RemoteFX messages byte by byte, in plain numbers (section 2.2.2 of [MS-RDPRFX]): every block the composer writes, and the
 blocks that the parser passes over.
 */
module RfxLayout {
  import opened Bits
  import opened Wire
  import opened RfxMessage
  import opened RfxCompose
  import RlgrSpec

  function Byte(v: nat): (r: seq<byte>)
    ensures |r| == 1
  {
    [v % 256]
  }

  function Word(v: nat): (r: seq<byte>)
    ensures |r| == 2
  {
    [v % 256, v / 256 % 256]
  }

  function Long(v: nat): (r: seq<byte>)
    ensures |r| == 4
  {
    [v % 256, v / 256 % 256, v / 65536 % 256, v / 16777216 % 256]
  }

  lemma WriteOne(v: nat)
    ensures Write([1], [v]) == Byte(v) && Write([2], [v]) == Word(v) && Write([4], [v]) == Long(v)
  {
    hide Le;
    LeTwo(v);
    LeFour(v);
    assert Le(v, 1) == [v % 256] by { LeOne(v); }
    NoFields([1], [v]);
    NoFields([2], [v]);
    NoFields([4], [v]);
  }

  lemma LeOne(v: nat)
    ensures Le(v, 1) == [v % 256]
  {
    assert Le(v / 256, 0) == [];
  }

  lemma NoFields(layout: seq<nat>, values: seq<nat>)
    requires |layout| == |values| == 1
    ensures Write(layout, values) == Le(values[0], layout[0])
  {
    assert Write(layout[1..], values[1..]) == [];
  }

  lemma WriteTwo(a: nat, b: nat, v: nat, w: nat)
    ensures Write([a, b], [v, w]) == Write([a], [v]) + Write([b], [w])
  {
    hide Write;
    WriteConcat([a], [b], [v], [w]);
    assert [a] + [b] == [a, b] && [v] + [w] == [v, w];
  }

  lemma WriteThree(a: nat, b: nat, c: nat, v: nat, w: nat, x: nat)
    ensures Write([a, b, c], [v, w, x]) == Write([a], [v]) + (Write([b], [w]) + Write([c], [x]))
  {
    hide Write;
    WriteTwo(b, c, w, x);
    WriteConcat([a], [b, c], [v], [w, x]);
    assert [a] + [b, c] == [a, b, c] && [v] + [w, x] == [v, w, x];
  }

  lemma WriteFour(a: nat, b: nat, c: nat, d: nat, v: nat, w: nat, x: nat, y: nat)
    ensures Write([a, b, c, d], [v, w, x, y]) == Write([a], [v]) + (Write([b], [w]) + (Write([c], [x]) + Write([d], [y])))
  {
    hide Write;
    WriteThree(b, c, d, w, x, y);
    WriteConcat([a], [b, c, d], [v], [w, x, y]);
    assert [a] + [b, c, d] == [a, b, c, d] && [v] + [w, x, y] == [v, w, x, y];
  }

  // ---------- Blocks ----------

  lemma BlockBytes(kind: nat, body: seq<byte>)
    ensures Block(kind, body) == Word(kind) + (Long(6 + |body|) + body)
  {
    hide Write;
    WriteTwo(2, 4, kind, 6 + |body|);
    WriteOne(kind);
    WriteOne(6 + |body|);
  }

  lemma SyncBytes()
    ensures SyncBlock() == [0xC0, 0xCC, 12, 0, 0, 0, 0xCA, 0xAC, 0xCC, 0xCA, 0, 1]
  {
    hide Write, Block;
    WriteOne(MAGIC);
    WriteOne(VERSION);
    var body := Write([4], [MAGIC]) + Write([2], [VERSION]);
    assert body == [0xCA, 0xAC, 0xCC, 0xCA, 0, 1];
    BlockBytes(SYNC, body);
  }

  lemma VersionsBytes()
    ensures VersionsBlock() == [0xC1, 0xCC, 10, 0, 0, 0, 1, 1, 0, 1]
  {
    hide Write, Block;
    WriteOne(1);
    WriteOne(VERSION);
    WriteTwo(1, 2, 1, VERSION);
    var body := Write([1], [1]) + Write([1, 2], [1, VERSION]);
    assert body == [1, 1, 0, 1];
    BlockBytes(CODEC_VERSIONS, body);
  }

  lemma ChannelsBytes(e: Encoder)
    ensures ChannelsBlock(e) == [0xC2, 0xCC, 12, 0, 0, 0, 1, 0] + (Word(e.width) + Word(e.height))
  {
    hide Write, Block;
    WriteOne(0);
    WriteOne(1);
    WriteOne(e.width);
    WriteOne(e.height);
    WriteThree(1, 2, 2, 0, e.width, e.height);
    var body := Write([1], [1]) + Write([1, 2, 2], [0, e.width, e.height]);
    assert body == [1, 0] + (Word(e.width) + Word(e.height));
    BlockBytes(CHANNELS, body);
  }

  /** Flags in bits 0 to 2, colour conversion 1, transform 1, entropy coder 1 or 4, quantisation 1. */
  lemma ContextBytes(e: Encoder)
    ensures ContextBlock(e) == [0xC3, 0xCC, 13, 0, 0, 0, 1, 0, 0, 64, 0] + Word(e.flags + 0x2028 + if e.mode.RLGR1? then 0x200 else 0x800)
  {
    hide Write, Block;
    var p := ContextProperties(e);
    WriteOne(0);
    WriteOne(64);
    WriteOne(p);
    WriteThree(1, 2, 2, 0, 64, p);
    var body := [1, 0] + Write([1, 2, 2], [0, 64, p]);
    assert body == [1, 0, 0, 64, 0] + Word(p);
    BlockBytes(CONTEXT, body);
  }

  lemma FrameBeginBytes(e: Encoder)
    ensures FrameBegin(e) == [0xC4, 0xCC, 14, 0, 0, 0, 1, 0] + (Long(e.frameIdx) + [1, 0])
  {
    hide Write, Block;
    WriteOne(e.frameIdx);
    WriteOne(1);
    WriteTwo(4, 2, e.frameIdx, 1);
    var body := [1, 0] + Write([4, 2], [e.frameIdx, 1]);
    assert body == [1, 0] + (Long(e.frameIdx) + [1, 0]);
    BlockBytes(FRAME_BEGIN, body);
  }

  lemma FrameEndBytes()
    ensures FrameEnd() == [0xC5, 0xCC, 8, 0, 0, 0, 1, 0]
  {
    hide Write, Block;
    assert [1, 0] + [] == [1, 0];
    BlockBytes(FRAME_END, [1, 0]);
  }

  lemma RectFields(t: Rect)
    ensures Write([2, 2, 2, 2], [t.x, t.y, t.width, t.height]) == Word(t.x) + (Word(t.y) + (Word(t.width) + Word(t.height)))
  {
    hide Write;
    WriteFour(2, 2, 2, 2, t.x, t.y, t.width, t.height);
    WriteOne(t.x);
    WriteOne(t.y);
    WriteOne(t.width);
    WriteOne(t.height);
  }

  /** Rectangle i takes bytes 8i to 8i + 7. */
  lemma {:induction false} RectBytesAt(rects: seq<Rect>, i: nat)
    requires i < |rects|
    ensures var t := rects[i];
      RectBytes(rects)[8 * i..8 * i + 8] == Word(t.x) + (Word(t.y) + (Word(t.width) + Word(t.height)))
    decreases i
  {
    hide Write;
    RectFields(rects[0]);
    var one, more := RectBytes(rects)[..8], RectBytes(rects[1..]);
    assert RectBytes(rects) == one + more;
    if i > 0 {
      RectBytesAt(rects[1..], i - 1);
      assert RectBytes(rects)[8 * i..8 * i + 8] == more[8 * (i - 1)..8 * (i - 1) + 8];
    }
  }

  lemma RegionBytes(rects: seq<Rect>)
    ensures Region(rects)
         == [0xC6, 0xCC] + (Long(15 + 8 * |rects|) + ([1, 0, 1] + (Word(|rects|) + (RectBytes(rects) + [0xC1, 0xCA, 1, 0]))))
  {
    hide Write, Block, RectBytes, Word, Long, Byte;
    var n := |rects|;
    RegionFields(n);
    RegionJoin(Word(n), RectBytes(rects));
    BlockBytes(REGION, [1, 0] + (([1] + Word(n)) + (RectBytes(rects) + [0xC1, 0xCA, 1, 0])));
    RegionWord();
  }

  lemma RegionFields(n: nat)
    ensures Write([1, 2], [1, n]) == [1] + Word(n) && Write([2, 2], [REGION_TYPE, 1]) == [0xC1, 0xCA, 1, 0]
  {
    hide Write;
    WriteOne(1);
    WriteOne(n);
    WriteOne(REGION_TYPE);
    WriteTwo(1, 2, 1, n);
    WriteTwo(2, 2, REGION_TYPE, 1);
  }

  lemma RegionJoin(w: seq<byte>, r: seq<byte>)
    ensures [1, 0] + (([1] + w) + (r + [0xC1, 0xCA, 1, 0])) == [1, 0, 1] + (w + (r + [0xC1, 0xCA, 1, 0]))
  {
  }

  lemma RegionWord()
    ensures Word(REGION) == [0xC6, 0xCC] && Word(EXTENSION) == [0xC7, 0xCC]
  {
  }

  lemma QuantBytesCons(quants: seq<nat>)
    requires |quants| >= 2
    ensures QuantBytes(quants) == [(quants[0] + 16 * quants[1]) % 256] + QuantBytes(quants[2..])
  {
    hide Write;
    WriteOne(quants[0] + 16 * quants[1]);
  }

  /** Two quantisation values a byte, the first in the low half. */
  lemma {:induction false} QuantBytesAt(quants: seq<nat>, i: nat)
    requires 2 * i + 1 < |quants|
    ensures QuantBytes(quants)[i] == (quants[2 * i] + 16 * quants[2 * i + 1]) % 256
    decreases i
  {
    hide QuantBytes;
    QuantBytesCons(quants);
    if i > 0 {
      QuantBytesAt(quants[2..], i - 1);
    }
  }

  /** A tile set of count tiles: its properties, its tables in q and its tiles in t. */
  function TilesetWire(properties: nat, tables: nat, count: nat, q: seq<byte>, t: seq<byte>): seq<byte> {
    [0xC7, 0xCC] + (Long(22 + |q| + |t|) + ([1, 0, 0xC2, 0xCA, 0, 0] + (Word(properties)
      + (Byte(tables) + ([64] + (Word(count) + (Long(|t|) + (q + t))))))))
  }

  /** The same in the parts that the composer writes. */
  function TilesetParts(properties: nat, tables: nat, count: nat, q: seq<byte>, t: seq<byte>): seq<byte> {
    Word(TILESET) + ((Word(0) + (Word(properties) + (Byte(tables) + [64]))) + (Word(count) + (Long(|t|) + (q + t))))
  }

  lemma TilesetBlock(properties: nat, tables: nat, count: nat, q: seq<byte>, t: seq<byte>)
    ensures Block(EXTENSION, [1, 0] + TilesetParts(properties, tables, count, q, t)) == TilesetWire(properties, tables, count, q, t)
  {
    hide Write, Block, Word, Long, Byte;
    TilesetJoin(Word(properties), Byte(tables), Word(count), Long(|t|), q + t);
    TilesetSize(Word(properties), Byte(tables), Word(count), Long(|t|), q + t);
    BlockBytes(EXTENSION, [1, 0] + TilesetParts(properties, tables, count, q, t));
    RegionWord();
  }

  lemma NoTail(t: seq<byte>)
    ensures t + [] == t
  {
  }

  lemma TilesetBytes(e: Encoder, quants: seq<nat>, tiles: seq<Tile>)
    requires |quants| % 10 == 0
    ensures Tileset(e, quants, tiles) == TilesetWire(e.properties, |quants| / 10, |tiles|, QuantBytes(quants), TileBytes(tiles))
  {
    hide Write, Block, TilesetWire, TileBytes, QuantBytes, Word, Long, Byte;
    TilesetFields(e, |quants| / 10);
    WriteOne(TILESET);
    WriteOne(|tiles|);
    WriteOne(|TileBytes(tiles)|);
    NoTail(TileBytes(tiles));
    TilesetBlock(e.properties, |quants| / 10, |tiles|, QuantBytes(quants), TileBytes(tiles));
  }

  lemma TilesetFields(e: Encoder, n: nat)
    ensures Write([2, 2, 1, 1], [0, e.properties, n, 0x40]) == Word(0) + (Word(e.properties) + (Byte(n) + [64]))
  {
    hide Write;
    WriteFour(2, 2, 1, 1, 0, e.properties, n, 0x40);
    WriteOne(0);
    WriteOne(e.properties);
    WriteOne(n);
    WriteOne(0x40);
  }

  lemma TilesetJoin(p: seq<byte>, q: seq<byte>, a: seq<byte>, b: seq<byte>, c: seq<byte>)
    ensures [1, 0] + (Word(TILESET) + ((Word(0) + (p + (q + [64]))) + (a + (b + c))))
         == [1, 0, 0xC2, 0xCA, 0, 0] + (p + (q + ([64] + (a + (b + c)))))
  {
    assert Word(TILESET) == [0xC2, 0xCA] && Word(0) == [0, 0];
  }

  lemma TilesetSize(p: seq<byte>, q: seq<byte>, a: seq<byte>, b: seq<byte>, c: seq<byte>)
    requires |p| == 2 && |q| == 1 && |a| == 2 && |b| == 4
    ensures |[1, 0, 0xC2, 0xCA, 0, 0] + (p + (q + ([64] + (a + (b + c)))))| == 16 + |c|
  {
  }

  lemma TileBlockBytes(t: Tile)
    ensures var p := t.planes;
      TileBlock(t)
      == [0xC3, 0xCA] + (Long(19 + |p.y| + |p.cb| + |p.cr|) + (Byte(t.quantY) + (Byte(t.quantCb) + (Byte(t.quantCr)
         + (Word(t.x / 64) + (Word(t.y / 64) + (Word(|p.y|) + (Word(|p.cb|) + (Word(|p.cr|) + (p.y + (p.cb + p.cr)))))))))))
  {
    hide Write, TileBlock;
    TileParts(t);
    var p := t.planes;
    var n := 19 + |p.y| + |p.cb| + |p.cr|;
    WriteOne(TILE_BLOCK);
    WriteOne(n);
    TileFields(t);
    TileLengths(p);
    TileChain(Byte(t.quantY), Byte(t.quantCb), Byte(t.quantCr), Word(t.x / 64), Word(t.y / 64), Word(|p.y|), Word(|p.cb|), Word(|p.cr|),
              p.y + (p.cb + p.cr));
  }

  lemma TileFields(t: Tile)
    ensures Write([1, 1, 1, 2, 2], [t.quantY, t.quantCb, t.quantCr, t.x / 64, t.y / 64])
         == Byte(t.quantY) + (Byte(t.quantCb) + (Byte(t.quantCr) + (Word(t.x / 64) + Word(t.y / 64))))
  {
    hide Write;
    WriteFour(1, 1, 2, 2, t.quantCb, t.quantCr, t.x / 64, t.y / 64);
    WriteConcat([1], [1, 1, 2, 2], [t.quantY], [t.quantCb, t.quantCr, t.x / 64, t.y / 64]);
    assert [1] + [1, 1, 2, 2] == [1, 1, 1, 2, 2];
    assert [t.quantY] + [t.quantCb, t.quantCr, t.x / 64, t.y / 64] == [t.quantY, t.quantCb, t.quantCr, t.x / 64, t.y / 64];
    WriteOne(t.quantY);
    WriteOne(t.quantCb);
    WriteOne(t.quantCr);
    WriteOne(t.x / 64);
    WriteOne(t.y / 64);
  }

  lemma TileLengths(p: Planes)
    ensures Write([2, 2, 2], [|p.y|, |p.cb|, |p.cr|]) == Word(|p.y|) + (Word(|p.cb|) + Word(|p.cr|))
  {
    hide Write;
    WriteThree(2, 2, 2, |p.y|, |p.cb|, |p.cr|);
    WriteOne(|p.y|);
    WriteOne(|p.cb|);
    WriteOne(|p.cr|);
  }

  lemma TileChain(a: seq<byte>, b: seq<byte>, c: seq<byte>, d: seq<byte>, e: seq<byte>, f: seq<byte>, g: seq<byte>, h: seq<byte>, r: seq<byte>)
    ensures (a + (b + (c + (d + e)))) + ((f + (g + h)) + r) == a + (b + (c + (d + (e + (f + (g + (h + r)))))))
  {
  }

  /** What the tile set says of itself: one bit, the flags, and the same choices as in the context. */
  lemma TilesetPropertiesAre(e: Encoder)
    ensures TilesetProperties(e) == 1 + 2 * e.flags + 0x4050 + if e.mode.RLGR1? then 0x400 else 0x1000
  {
  }

  // ---------- The order of blocks ----------

  function Joined(a: nat, b: nat, c: nat, d: nat): nat {
    a + 256 * b + 65536 * c + 16777216 * d
  }

  function LongAt(s: seq<byte>): nat
    requires |s| >= 4
  {
    Joined(s[0], s[1], s[2], s[3])
  }

  /** The kinds of the blocks of a message, each found by the length of the one before. */
  function Kinds(s: seq<byte>): seq<nat>
    decreases |s|
  {
    if |s| < 6 then []
    else
      var n := LongAt(s[2..]);
      if n < 6 || n > |s| then [] else [Joined(s[0], s[1], 0, 0)] + Kinds(s[n..])
  }

  lemma LongBack(v: nat, tail: seq<byte>)
    requires v < 0x1_0000_0000
    ensures LongAt(Long(v) + tail) == v
  {
    var q := v / 65536;
    assert v / 16777216 == q / 256;
    assert v % 65536 == v % 256 + 256 * (v / 256 % 256);
    assert q == q % 256 + 256 * (q / 256);
  }

  lemma KindsBlock(kind: nat, body: seq<byte>, tail: seq<byte>)
    requires kind < 0x1_0000 && 6 + |body| < 0x1_0000_0000
    ensures Kinds(Block(kind, body) + tail) == [kind] + Kinds(tail)
  {
    hide Block, Long, LongAt;
    BlockBytes(kind, body);
    var n := 6 + |body|;
    var s := Block(kind, body) + tail;
    assert s == Word(kind) + (Long(n) + (body + tail));
    assert s[2..] == Long(n) + (body + tail);
    LongBack(n, body + tail);
    assert s[n..] == tail;
    assert Joined(s[0], s[1], 0, 0) == kind;
  }

  /** A first message: the four blocks of the header, and the four of a frame. */
  lemma MessageKinds(e: Encoder, rects: seq<Rect>, quants: seq<nat>, tiles: seq<Tile>)
    requires |quants| % 10 == 0 && 15 + 8 * |rects| < 0x1_0000_0000 && |Tileset(e, quants, tiles)| < 0x1_0000_0000
    ensures Kinds(Header(e) + Frame(e, rects, quants, tiles)) == [0xCCC0, 0xCCC3, 0xCCC1, 0xCCC2, 0xCCC4, 0xCCC6, 0xCCC7, 0xCCC5]
    ensures Kinds(Frame(e, rects, quants, tiles)) == [0xCCC4, 0xCCC6, 0xCCC7, 0xCCC5]
  {
    hide Kinds, Write, TilesetBody, RectBytes, Block;
    var f0 := FrameEnd();
    var f1 := Tileset(e, quants, tiles) + f0;
    var f2 := Region(rects) + f1;
    var f3 := FrameBegin(e) + f2;
    assert f0 + [] == f0;
    KindsBlock(FRAME_END, [1, 0] + [], []);
    NoKinds();
    KindsBlock(EXTENSION, [1, 0] + TilesetBody(e, quants, tiles, []), f0);
    KindsBlock(REGION, [1, 0] + (Write([1, 2], [1, |rects|]) + (RectBytes(rects) + Write([2, 2], [REGION_TYPE, 1]))), f1);
    KindsBlock(FRAME_BEGIN, [1, 0] + Write([4, 2], [e.frameIdx, 1]), f2);
    HeaderKinds(e, f3);
  }

  lemma NoKinds()
    ensures Kinds([]) == []
  {
  }

  lemma HeaderKinds(e: Encoder, tail: seq<byte>)
    ensures Kinds(Header(e) + tail) == [0xCCC0, 0xCCC3, 0xCCC1, 0xCCC2] + Kinds(tail)
  {
    hide Kinds, Write, Block;
    var a, b, c, d := SyncBlock(), ContextBlock(e), VersionsBlock(), ChannelsBlock(e);
    ConcatAssoc(a, b + (c + d), tail);
    ConcatAssoc(b, c + d, tail);
    ConcatAssoc(c, d, tail);
    KindsBlock(CHANNELS, Write([1], [1]) + Write([1, 2, 2], [0, e.width, e.height]), tail);
    KindsBlock(CODEC_VERSIONS, Write([1], [1]) + Write([1, 2], [1, VERSION]), d + tail);
    KindsBlock(CONTEXT, [1, 0] + Write([1, 2, 2], [0, 64, ContextProperties(e)]), c + (d + tail));
    KindsBlock(SYNC, Write([4], [MAGIC]) + Write([2], [VERSION]), b + (c + (d + tail)));
  }

  // ---------- Blocks that the parser passes over ----------

  lemma OtherKinds(kind: nat, d: seq<byte>, st: State)
    requires kind != 0xCCC0 && kind != 0xCCC1 && kind != 0xCCC2 && kind != 0xCCC3 && kind != 0xCCC6 && kind != 0xCCC7
    ensures Handle(kind, d, st) == st
  {
  }

  lemma ReadLong(v: nat, tail: seq<byte>)
    requires v < 0x1_0000_0000
    ensures Read([4], Long(v) + tail) == Parsed([v], tail)
  {
    hide Read, Write;
    WriteOne(v);
    assert Pow256(4) == 0x1_0000_0000 by { assert Pow256(2) == 0x1_0000; }
    ReadWrite([4], [v], tail);
  }

  lemma ReadWord(v: nat, tail: seq<byte>)
    requires v < 0x1_0000
    ensures Read([2], Word(v) + tail) == Parsed([v], tail)
  {
    hide Read, Write;
    WriteOne(v);
    assert Pow256(2) == 0x1_0000 by { assert Pow256(1) == 0x100; }
    ReadWrite([2], [v], tail);
  }

  lemma ReadByte(v: nat, tail: seq<byte>)
    requires v < 256
    ensures Read([1], [v] + tail) == Parsed([v], tail)
  {
    hide Read, Write;
    WriteOne(v);
    assert Pow256(1) == 0x100 by { assert Pow256(0) == 1; }
    ReadWrite([1], [v], tail);
  }

  /** Another magic number, another number of codecs, no channel, another kind of extension: nothing changes. */
  lemma Refusals(v: nat, w: nat, n: byte, a: byte, b: byte, d: seq<byte>, st: State)
    requires v < 0x1_0000_0000 && v != 0xCACC_ACCA && w < 0x1_0000 && w != 0xCAC2 && n != 1
    ensures Handle(0xCCC0, Long(v) + d, st) == st
    ensures Handle(0xCCC1, [n] + d, st) == st
    ensures Handle(0xCCC2, [0] + d, st) == st
    ensures Handle(0xCCC7, [a, b] + (Word(w) + d), st) == st
  {
    hide Read, Long, Word;
    ReadLong(v, d);
    ReadByte(n, d);
    ReadByte(0, d);
    ReadWord(w, d);
    assert Drop([a, b] + (Word(w) + d), 2) == Word(w) + d;
  }

  /** Of the context, the properties count: the flags in three bits, and the entropy coder 1 or 4 in four; others keep the mode. */
  lemma ContextLaw(p: nat, a: byte, b: byte, id: byte, size: nat, d: seq<byte>, st: State)
    requires p < 0x1_0000 && size < 0x1_0000
    ensures var r := Handle(0xCCC3, [a, b] + ([id] + (Word(size) + (Word(p) + d))), st);
      && r.msg == st.msg && r.dec == st.dec.(properties := r.dec.properties, flags := r.dec.flags, mode := r.dec.mode)
      && r.dec.properties == p && r.dec.flags == p % 8
      && r.dec.mode == if p / 512 % 16 == 1 then RlgrSpec.RLGR1 else if p / 512 % 16 == 4 then RlgrSpec.RLGR3 else st.dec.mode
  {
    hide Read, Word, Write;
    var body := [id] + (Word(size) + (Word(p) + d));
    assert Drop([a, b] + body, 2) == body;
    WriteThree(1, 2, 2, id, size, p);
    WriteOne(id);
    WriteOne(size);
    WriteOne(p);
    assert body == Write([1, 2, 2], [id, size, p]) + d;
    FitsThree(id, size, p);
    ReadWrite([1, 2, 2], [id, size, p], d);
  }

  lemma FitsThree(a: nat, b: nat, c: nat)
    requires a < 0x100 && b < 0x1_0000 && c < 0x1_0000
    ensures Fits([1, 2, 2], [a, b, c])
  {
    assert Pow256(1) == 0x100 && Pow256(2) == 0x1_0000;
  }

  /** A tile set without tables changes their number only; one without tiles empties the list. */
  lemma EmptyTilesets(a: byte, b: byte, i: nat, p: nat, n: byte, size: byte, d: seq<byte>, st: State)
    requires i < 0x1_0000 && p < 0x1_0000
    ensures Handle(0xCCC7, [a, b] + (Word(0xCAC2) + (Word(i) + (Word(p) + ([0, size] + d)))), st) == st.(dec := st.dec.(numQuants := 0))
    ensures n > 0 ==>
      Handle(0xCCC7, [a, b] + (Word(0xCAC2) + (Word(i) + (Word(p) + ([n, size] + (Word(0) + d))))), st)
      == State(st.dec.(numQuants := n), st.msg.(tiles := []))
  {
    hide Read, Word;
    TilesetRead(a, b, i, p, 0, size, d);
    TilesetRead(a, b, i, p, n, size, Word(0) + d);
    ReadWord(0, d);
  }

  lemma TilesetRead(a: byte, b: byte, i: nat, p: nat, n: byte, size: byte, d: seq<byte>)
    requires i < 0x1_0000 && p < 0x1_0000
    ensures var body := Word(i) + (Word(p) + ([n, size] + d));
      && Drop([a, b] + (Word(0xCAC2) + body), 2) == Word(0xCAC2) + body
      && Read([2], Word(0xCAC2) + body) == Parsed([0xCAC2], body)
      && Read([2, 2, 1, 1], body) == Parsed([i, p, n, size], d)
  {
    hide Read, Word, Write;
    var body := Word(i) + (Word(p) + ([n, size] + d));
    ReadWord(0xCAC2, body);
    WriteFour(2, 2, 1, 1, i, p, n, size);
    WriteOne(i);
    WriteOne(p);
    WriteOne(n);
    WriteOne(size);
    assert body == Write([2, 2, 1, 1], [i, p, n, size]) + d;
    FitsFour(i, p, n, size);
    ReadWrite([2, 2, 1, 1], [i, p, n, size], d);
  }

  lemma FitsFour(a: nat, b: nat, c: nat, d: nat)
    requires a < 0x1_0000 && b < 0x1_0000 && c < 0x100 && d < 0x100
    ensures Fits([2, 2, 1, 1], [a, b, c, d])
  {
    assert Pow256(1) == 0x100 && Pow256(2) == 0x1_0000;
  }

  /** Parsing stops at six bytes or fewer, and at a block without a length. */
  lemma ParseStops(kind: nat, d: seq<byte>, s: seq<byte>, st: State)
    requires kind < 0x1_0000 && |s| <= 6
    ensures ParseBlocks(s, st) == st && ParseBlocks(Word(kind) + ([0, 0, 0, 0] + d), st) == st
  {
    hide Read, Write, Handle;
    WriteTwo(2, 4, kind, 0);
    WriteOne(kind);
    WriteOne(0);
    assert Long(0) == [0, 0, 0, 0];
    assert Word(kind) + ([0, 0, 0, 0] + d) == Write([2, 4], [kind, 0]) + d;
    assert Pow256(1) == 0x100 && Pow256(2) == 0x1_0000 && Pow256(4) >= 1;
    ReadWrite([2, 4], [kind, 0], d);
  }
}

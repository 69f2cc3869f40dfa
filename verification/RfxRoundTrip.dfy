/** Parsing a composed RemoteFX message gives back everything the composer put in. */
module RfxRoundTrip {
  import opened Bits
  import opened Wire
  import opened RfxMessage

  // ---------- Blocks ----------

  lemma Powers()
    ensures Pow256(1) == 0x100 && Pow256(2) == 0x1_0000 && Pow256(4) == 0x1_0000_0000
  {
    assert Pow256(3) == 256 * Pow256(2);
  }

  /** The parser meets a block: its handler gets the bytes from the body on, and the next block follows the body. */
  lemma ParseBlock(kind: nat, body: seq<byte>, tail: seq<byte>, st: State)
    requires kind < 0x1_0000 && 0 < |body| < 0x1_0000_0000 - 6
    ensures ParseBlocks(Block(kind, body) + tail, st) == ParseBlocks(tail, Handle(kind, body + tail, st))
  {
    hide Handle, Write, Read;
    Powers();
    var n := 6 + |body|;
    var head := Write([2, 4], [kind, n]);
    var s := Block(kind, body) + tail;
    ConcatAssoc(head, body, tail);
    ReadWrite([2, 4], [kind, n], body + tail);
    assert s == head + (body + tail);
    TakeDropConcat(Block(kind, body), tail);
  }

  lemma ParseChannelBlock(kind: nat, body: seq<byte>, tail: seq<byte>, st: State)
    requires CONTEXT <= kind <= EXTENSION && |body| < 0x1_0000_0000 - 8
    ensures ParseBlocks(ChannelBlock(kind, body) + tail, st)
         == ParseBlocks(tail, Handle(kind, [1, 0] + (body + tail), st))
  {
    hide Handle, Block, ParseBlocks;
    ParseBlock(kind, [1, 0] + body, tail, st);
    ConcatAssoc([1, 0], body, tail);
  }

  lemma Skipped(d: seq<byte>)
    ensures Drop([1, 0] + d, 2) == d
  {
    TakeDropConcat([1, 0], d);
  }

  // ---------- Lists ----------

  predicate RectFits(r: Rect) {
    r.x < 0x1_0000 && r.y < 0x1_0000 && r.width < 0x1_0000 && r.height < 0x1_0000
  }

  lemma {:induction false} RectsBack(rects: seq<Rect>, tail: seq<byte>)
    requires forall i :: 0 <= i < |rects| ==> RectFits(rects[i])
    ensures ReadRects(|rects|, RectBytes(rects) + tail) == rects
  {
    hide Read, Write;
    if rects != [] {
      Powers();
      var t := rects[0];
      var later := RectBytes(rects[1..]);
      ReadWrite([2, 2, 2, 2], [t.x, t.y, t.width, t.height], later + tail);
      ConcatAssoc(Write([2, 2, 2, 2], [t.x, t.y, t.width, t.height]), later, tail);
      RectsBack(rects[1..], tail);
      assert rects == [t] + rects[1..];
    }
  }

  lemma {:induction false} QuantsBack(quants: seq<nat>, tail: seq<byte>)
    requires |quants| % 2 == 0 && forall i :: 0 <= i < |quants| ==> quants[i] < 16
    ensures ReadQuants(|quants| / 2, QuantBytes(quants) + tail) == quants
  {
    hide Read, Write;
    if quants != [] {
      Powers();
      var b := quants[0] + 16 * quants[1];
      var later := QuantBytes(quants[2..]);
      ReadWrite([1], [b], later + tail);
      ConcatAssoc(Write([1], [b]), later, tail);
      QuantsBack(quants[2..], tail);
      assert quants == [quants[0], quants[1]] + quants[2..];
      assert |quants| / 2 - 1 == |quants[2..]| / 2;
    }
  }

  /** A tile on the grid whose numbers and lengths fit their fields. */
  predicate TileFits(t: Tile) {
    && t.quantY < 256 && t.quantCb < 256 && t.quantCr < 256
    && t.x < 0x1_0000 && t.x % 64 == 0 && t.y < 0x1_0000 && t.y % 64 == 0
    && |t.planes.y| < 0x1_0000 && |t.planes.cb| < 0x1_0000 && |t.planes.cr| < 0x1_0000
  }

  lemma PlanesBack(p: Planes, tail: seq<byte>)
    ensures var d := p.y + (p.cb + (p.cr + tail));
      && Take(d, |p.y|) == p.y && Take(Drop(d, |p.y|), |p.cb|) == p.cb
      && Take(Drop(d, |p.y| + |p.cb|), |p.cr|) == p.cr
  {
    TakeDropConcat(p.y, p.cb + (p.cr + tail));
    TakeDropConcat(p.cb, p.cr + tail);
    ConcatAssoc(p.y, p.cb, p.cr + tail);
    TakeDropConcat(p.y + p.cb, p.cr + tail);
    TakeDropConcat(p.cr, tail);
  }

  /** The tile decoder is handed exactly the three byte ranges that the tile wrote. */
  lemma TileBack(t: Tile, tail: seq<byte>)
    requires TileFits(t)
    ensures TileOf(TileHeader(t) + (t.planes.y + (t.planes.cb + (t.planes.cr + tail)))) == t
  {
    hide Read, Write, Take, Drop;
    Powers();
    ReadWrite([1, 1, 1, 2, 2, 2, 2, 2],
              [t.quantY, t.quantCb, t.quantCr, t.x / 64, t.y / 64, |t.planes.y|, |t.planes.cb|, |t.planes.cr|],
              t.planes.y + (t.planes.cb + (t.planes.cr + tail)));
    PlanesBack(t.planes, tail);
    assert t.x / 64 * 64 == t.x && t.y / 64 * 64 == t.y;
  }

  lemma {:induction false} TilesBack(tiles: seq<Tile>, tail: seq<byte>)
    requires forall i :: 0 <= i < |tiles| ==> TileFits(tiles[i])
    ensures ReadTiles(|tiles|, TileBytes(tiles) + tail) == tiles
  {
    hide Read, Write, TileOf, TileHeader, TileFits;
    if tiles != [] {
      var t, later := tiles[0], TileBytes(tiles[1..]);
      ConcatAssoc(TileBlock(t), later, tail);
      OneTileBack(t, later + tail);
      TakeDropConcat(TileBlock(t), later + tail);
      TilesBack(tiles[1..], tail);
      assert tiles == [t] + tiles[1..];
    }
  }

  lemma OneTileBack(t: Tile, tail: seq<byte>)
    requires TileFits(t)
    ensures var p := Read([2, 4], TileBlock(t) + tail);
      p.values == [TILE_BLOCK, |TileBlock(t)|] && TileOf(p.rest) == t
  {
    hide Read, Write, TileOf, TileHeader;
    Powers();
    var h, y, cb, cr := TileHeader(t), t.planes.y, t.planes.cb, t.planes.cr;
    var body := h + (y + (cb + cr));
    var head := Write([2, 4], [TILE_BLOCK, 6 + |body|]);
    ConcatAssoc(head, body, tail);
    ReadWrite([2, 4], [TILE_BLOCK, 6 + |body|], body + tail);
    ConcatAssoc(h, y + (cb + cr), tail);
    ConcatAssoc(y, cb + cr, tail);
    ConcatAssoc(cb, cr, tail);
    TileBack(t, tail);
  }

  // ---------- The header ----------

  predicate EncoderFits(e: Encoder) {
    e.flags < 8 && e.width < 0x1_0000 && e.height < 0x1_0000 && e.frameIdx < 0x1_0000_0000 && e.properties < 0x1_0000
  }

  /** What a header tells the parser. */
  function Told(dec: Decoder, e: Encoder): Decoder {
    dec.(version := VERSION, codecId := 1, codecVersion := 0, width := e.width, height := e.height,
         properties := ContextProperties(e), flags := e.flags, mode := e.mode)
  }

  lemma SyncBack(st: State, tail: seq<byte>)
    ensures OnSync(st, Write([4], [MAGIC]) + Write([2], [VERSION]) + tail) == st.(dec := st.dec.(version := VERSION))
  {
    hide Read, Write;
    Powers();
    ConcatAssoc(Write([4], [MAGIC]), Write([2], [VERSION]), tail);
    ReadWrite([4], [MAGIC], Write([2], [VERSION]) + tail);
    ReadWrite([2], [VERSION], tail);
  }

  lemma ContextBack(st: State, e: Encoder, tail: seq<byte>)
    requires EncoderFits(e)
    ensures OnContext(st, Write([1, 2, 2], [0, 64, ContextProperties(e)]) + tail)
         == st.(dec := st.dec.(properties := ContextProperties(e), flags := e.flags, mode := e.mode))
  {
    hide Read, Write;
    Powers();
    ReadWrite([1, 2, 2], [0, 64, ContextProperties(e)], tail);
  }

  /** The codec version is read as one byte, so only its low byte arrives. */
  lemma VersionsBack(st: State, tail: seq<byte>)
    ensures OnCodecVersions(st, Write([1], [1]) + Write([1, 2], [1, VERSION]) + tail)
         == st.(dec := st.dec.(codecId := 1, codecVersion := 0))
  {
    hide Read, Write;
    Powers();
    ConcatAssoc(Write([1], [1]), Write([1, 2], [1, VERSION]), tail);
    ReadWrite([1], [1], Write([1, 2], [1, VERSION]) + tail);
    VersionBytes();
    assert Write([1, 2], [1, VERSION]) + tail == Write([1, 1], [1, 0]) + ([1] + tail);
    ReadWrite([1, 1], [1, 0], [1] + tail);
  }

  lemma VersionBytes()
    ensures Write([1, 2], [1, VERSION]) == [1, 0, 1] && Write([1, 1], [1, 0]) == [1, 0]
  {
  }

  lemma ChannelsBack(st: State, e: Encoder, tail: seq<byte>)
    requires EncoderFits(e)
    ensures OnChannels(st, Write([1], [1]) + Write([1, 2, 2], [0, e.width, e.height]) + tail)
         == st.(dec := st.dec.(width := e.width, height := e.height))
  {
    hide Read, Write;
    Powers();
    ConcatAssoc(Write([1], [1]), Write([1, 2, 2], [0, e.width, e.height]), tail);
    ReadWrite([1], [1], Write([1, 2, 2], [0, e.width, e.height]) + tail);
    ReadWrite([1, 2, 2], [0, e.width, e.height], tail);
  }

  lemma HeaderBack(e: Encoder, st: State, tail: seq<byte>)
    requires EncoderFits(e)
    ensures ParseBlocks(Header(e) + tail, st) == ParseBlocks(tail, st.(dec := Told(st.dec, e)))
  {
    hide ParseBlocks, Block, Write, OnSync, OnContext, OnCodecVersions, OnChannels, ContextProperties, SyncBlock, ContextBlock,
      VersionsBlock, ChannelsBlock, Handle, Drop;
    var a, b, c, d := SyncBlock(), ContextBlock(e), VersionsBlock(), ChannelsBlock(e);
    ConcatAssoc(a, b + (c + d), tail);
    ConcatAssoc(b, c + d, tail);
    ConcatAssoc(c, d, tail);
    var st1 := st.(dec := st.dec.(version := VERSION));
    var st2 := st1.(dec := st1.dec.(properties := ContextProperties(e), flags := e.flags, mode := e.mode));
    var st3 := st2.(dec := st2.dec.(codecId := 1, codecVersion := 0));
    SyncParsed(st, b + (c + (d + tail)));
    ContextParsed(st1, e, c + (d + tail));
    VersionsParsed(st2, d + tail);
    ChannelsParsed(st3, e, tail);
  }

  lemma SyncParsed(st: State, tail: seq<byte>)
    ensures ParseBlocks(SyncBlock() + tail, st) == ParseBlocks(tail, st.(dec := st.dec.(version := VERSION)))
  {
    hide ParseBlocks, Block, Write, OnSync;
    ParseBlock(SYNC, Write([4], [MAGIC]) + Write([2], [VERSION]), tail, st);
    SyncBack(st, tail);
  }

  lemma ContextParsed(st: State, e: Encoder, tail: seq<byte>)
    requires EncoderFits(e)
    ensures ParseBlocks(ContextBlock(e) + tail, st)
         == ParseBlocks(tail, st.(dec := st.dec.(properties := ContextProperties(e), flags := e.flags, mode := e.mode)))
  {
    hide ParseBlocks, ChannelBlock, Write, OnContext, ContextProperties, Drop;
    var body := Write([1, 2, 2], [0, 64, ContextProperties(e)]);
    ParseChannelBlock(CONTEXT, body, tail, st);
    Skipped(body + tail);
    ContextBack(st, e, tail);
  }

  lemma VersionsParsed(st: State, tail: seq<byte>)
    ensures ParseBlocks(VersionsBlock() + tail, st) == ParseBlocks(tail, st.(dec := st.dec.(codecId := 1, codecVersion := 0)))
  {
    hide ParseBlocks, Block, Write, OnCodecVersions;
    ParseBlock(CODEC_VERSIONS, Write([1], [1]) + Write([1, 2], [1, VERSION]), tail, st);
    VersionsBack(st, tail);
  }

  lemma ChannelsParsed(st: State, e: Encoder, tail: seq<byte>)
    requires EncoderFits(e)
    ensures ParseBlocks(ChannelsBlock(e) + tail, st)
         == ParseBlocks(tail, st.(dec := st.dec.(width := e.width, height := e.height)))
  {
    hide ParseBlocks, Block, Write, OnChannels;
    ParseBlock(CHANNELS, Write([1], [1]) + Write([1, 2, 2], [0, e.width, e.height]), tail, st);
    ChannelsBack(st, e, tail);
  }

  // ---------- The frame ----------

  predicate FrameFits(rects: seq<Rect>, quants: seq<nat>, tiles: seq<Tile>) {
    && |rects| < 0x1_0000 && (forall i :: 0 <= i < |rects| ==> RectFits(rects[i]))
    && |quants| % 10 == 0 && 10 <= |quants| < 2560 && (forall i :: 0 <= i < |quants| ==> quants[i] < 16)
    && |tiles| < 0x1_0000 && (forall i :: 0 <= i < |tiles| ==> TileFits(tiles[i]))
  }

  lemma RegionBack(st: State, rects: seq<Rect>, tail: seq<byte>)
    requires |rects| < 0x1_0000 && (forall i :: 0 <= i < |rects| ==> RectFits(rects[i]))
    ensures ParseBlocks(Region(rects) + tail, st) == ParseBlocks(tail, st.(msg := st.msg.(rects := rects)))
  {
    hide ParseBlocks, ChannelBlock, Write, Read, RectBytes, ReadRects, RectFits, Drop;
    Powers();
    var a, b, c := Write([1, 2], [1, |rects|]), RectBytes(rects), Write([2, 2], [REGION_TYPE, 1]);
    ParseChannelBlock(REGION, a + (b + c), tail, st);
    ConcatAssoc(a, b + c, tail);
    ConcatAssoc(b, c, tail);
    Skipped(a + (b + (c + tail)));
    ReadWrite([1, 2], [1, |rects|], b + (c + tail));
    RectsBack(rects, c + tail);
  }

  /** What a tile set tells the parser; nothing about tiles when there are none. */
  function WithTiles(st: State, quants: seq<nat>, tiles: seq<Tile>): State {
    State(st.dec.(numQuants := |quants| / 10, quants := if tiles == [] then st.dec.quants else quants), st.msg.(tiles := tiles))
  }

  lemma TilesetRead(e: Encoder, st: State, quants: seq<nat>, tiles: seq<Tile>, tail: seq<byte>)
    requires EncoderFits(e) && FrameFits([], quants, tiles) && |TileBytes(tiles)| < 0x1_0000_0000
    ensures OnTileset(st, TilesetBody(e, quants, tiles, tail)) == WithTiles(st, quants, tiles)
  {
    hide Write, Read, QuantBytes, TileBytes, ReadQuants, ReadTiles, TileFits, Drop;
    Powers();
    var n := |quants| / 10;
    var data := TileBytes(tiles) + tail;
    ReadWrite([4], [|TileBytes(tiles)|], TileData(quants, tiles, tail));
    ReadWrite([2], [|tiles|], SizedTiles(quants, tiles, tail));
    ReadWrite([2, 2, 1, 1], [0, e.properties, n, 0x40], CountedTiles(quants, tiles, tail));
    ReadWrite([2], [TILESET], TableCount(e, quants) + CountedTiles(quants, tiles, tail));
    QuantsBack(quants, data);
    assert 5 * n == |quants| / 2;
    TakeDropConcat(QuantBytes(quants), data);
    TilesBack(tiles, tail);
  }

  lemma TilesetAppend(e: Encoder, quants: seq<nat>, tiles: seq<Tile>, tail: seq<byte>)
    requires |quants| % 10 == 0
    ensures TilesetBody(e, quants, tiles, []) + tail == TilesetBody(e, quants, tiles, tail)
    ensures |TilesetBody(e, quants, tiles, [])| == 14 + |quants| / 2 + |TileBytes(tiles)|
  {
    hide Write, QuantBytes, TileBytes, TableCount;
    assert TileBytes(tiles) + [] == TileBytes(tiles);
    ConcatAssoc(QuantBytes(quants), TileBytes(tiles), tail);
    ConcatAssoc(Write([4], [|TileBytes(tiles)|]), TileData(quants, tiles, []), tail);
    ConcatAssoc(Write([2], [|tiles|]), SizedTiles(quants, tiles, []), tail);
    ConcatAssoc(TableCount(e, quants), CountedTiles(quants, tiles, []), tail);
    ConcatAssoc(Write([2], [TILESET]), TableCount(e, quants) + CountedTiles(quants, tiles, []), tail);
    assert Total([2]) == 2 && Total([4]) == 4;
  }

  lemma TilesetBack(e: Encoder, st: State, quants: seq<nat>, tiles: seq<Tile>, tail: seq<byte>)
    requires EncoderFits(e) && FrameFits([], quants, tiles) && |TileBytes(tiles)| < 0x1_0000_0000 - 2000
    ensures ParseBlocks(Tileset(e, quants, tiles) + tail, st) == ParseBlocks(tail, WithTiles(st, quants, tiles))
  {
    hide ParseBlocks, ChannelBlock, TilesetBody, TileBytes, OnTileset, WithTiles, TileFits, Drop;
    TilesetAppend(e, quants, tiles, tail);
    ParseChannelBlock(EXTENSION, TilesetBody(e, quants, tiles, []), tail, st);
    Skipped(TilesetBody(e, quants, tiles, tail));
    TilesetRead(e, st, quants, tiles, tail);
  }

  /** Blocks whose handlers do nothing. */
  lemma QuietBlock(kind: nat, body: seq<byte>, tail: seq<byte>, st: State)
    requires (kind == FRAME_BEGIN || kind == FRAME_END) && |body| < 100
    ensures ParseBlocks(ChannelBlock(kind, body) + tail, st) == ParseBlocks(tail, st)
  {
    hide ParseBlocks, ChannelBlock;
    ParseChannelBlock(kind, body, tail, st);
  }

  lemma FrameBack(e: Encoder, st: State, rects: seq<Rect>, quants: seq<nat>, tiles: seq<Tile>)
    requires EncoderFits(e) && FrameFits(rects, quants, tiles) && |TileBytes(tiles)| < 0x1_0000_0000 - 2000
    ensures ParseBlocks(Frame(e, rects, quants, tiles), st) == WithTiles(st.(msg := st.msg.(rects := rects)), quants, tiles)
  {
    hide ParseBlocks, ChannelBlock, Write, Region, Tileset, TileBytes, RectFits, TileFits, WithTiles;
    var a, b, c, d := FrameBegin(e), Region(rects), Tileset(e, quants, tiles), FrameEnd();
    QuietBlock(FRAME_BEGIN, Write([4, 2], [e.frameIdx, 1]), b + (c + d), st);
    RegionBack(st, rects, c + d);
    var st1 := st.(msg := st.msg.(rects := rects));
    TilesetBack(e, st1, quants, tiles, d);
    var st2 := WithTiles(st1, quants, tiles);
    QuietBlock(FRAME_END, [], [], st2);
    assert d + [] == d;
    NoBlocks(st2);
  }

  lemma NoBlocks(st: State)
    ensures ParseBlocks([], st) == st
  {
  }

  /**
   A composed message with its header, parsed in any earlier decoder state: the parser recovers the image size, the
   entropy coder and flags, the rectangles, the quantisation tables, and for every tile its place, its tables and
   exactly its three byte ranges.
   */
  lemma MessageRoundTrip(e: Encoder, dec: Decoder, rects: seq<Rect>, quants: seq<nat>, tiles: seq<Tile>)
    requires EncoderFits(e) && FrameFits(rects, quants, tiles) && |TileBytes(tiles)| < 0x1_0000_0000 - 2000
    ensures var r := Parse(Header(e) + Frame(e, rects, quants, tiles), dec);
      && r.dec.width == e.width && r.dec.height == e.height && r.dec.mode == e.mode && r.dec.flags == e.flags
      && r.msg == Message(rects, tiles)
      && r.dec.numQuants == |quants| / 10 && (tiles != [] ==> r.dec.quants == quants)
  {
    hide ParseBlocks, Header, Frame, RectFits, TileFits;
    var st := State(dec, Message([], []));
    HeaderBack(e, st, Frame(e, rects, quants, tiles));
    FrameBack(e, st.(dec := Told(dec, e)), rects, quants, tiles);
  }

  /** A later message has no header; what the decoder knew of the image stays. */
  lemma LaterMessageRoundTrip(e: Encoder, dec: Decoder, rects: seq<Rect>, quants: seq<nat>, tiles: seq<Tile>)
    requires EncoderFits(e) && FrameFits(rects, quants, tiles) && |TileBytes(tiles)| < 0x1_0000_0000 - 2000
    ensures var r := Parse(Frame(e, rects, quants, tiles), dec);
      && r.dec == dec.(numQuants := |quants| / 10, quants := if tiles == [] then dec.quants else quants)
      && r.msg == Message(rects, tiles)
  {
    hide ParseBlocks, Frame, RectFits, TileFits;
    FrameBack(e, State(dec, Message([], [])), rects, quants, tiles);
  }
}

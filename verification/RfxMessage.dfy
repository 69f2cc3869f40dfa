/**
 RemoteFX messages ([MS-RDPRFX] section 2.2.2): blocks of type, length and body. What the composer writes and what the
 parser makes of any bytes, as functions.
 */
module RfxMessage {
  import opened Bits
  import opened Wire
  import RlgrSpec

  type Mode = RlgrSpec.Mode

  const MAGIC: nat := 0xCACC_ACCA
  const VERSION: nat := 0x0100
  const SYNC: nat := 0xCCC0
  const CODEC_VERSIONS: nat := 0xCCC1
  const CHANNELS: nat := 0xCCC2
  const CONTEXT: nat := 0xCCC3
  const FRAME_BEGIN: nat := 0xCCC4
  const FRAME_END: nat := 0xCCC5
  const REGION: nat := 0xCCC6
  const EXTENSION: nat := 0xCCC7
  const REGION_TYPE: nat := 0xCAC1
  const TILESET: nat := 0xCAC2
  const TILE_BLOCK: nat := 0xCAC3

  datatype Rect = Rect(x: nat, y: nat, width: nat, height: nat)
  datatype Planes = Planes(y: seq<byte>, cb: seq<byte>, cr: seq<byte>)

  /** A tile: its quantisation tables, its place in pixels, and the coded bytes of its three components. */
  datatype Tile = Tile(quantY: nat, quantCb: nat, quantCr: nat, x: nat, y: nat, planes: Planes)

  datatype Message = Message(rects: seq<Rect>, tiles: seq<Tile>)

  // ---------- Parsing ----------

  /** What the parser keeps between messages. Quantisation tables are ten values each, one after another. */
  datatype Decoder = Decoder(version: nat, codecId: nat, codecVersion: nat, width: nat, height: nat, properties: nat,
                             flags: nat, mode: Mode, numQuants: nat, quants: seq<nat>)

  datatype State = State(dec: Decoder, msg: Message)

  function OnSync(st: State, d: seq<byte>): State {
    var p := Read([4], d);
    if p.values[0] != MAGIC then st else st.(dec := st.dec.(version := Read([2], p.rest).values[0]))
  }

  function OnCodecVersions(st: State, d: seq<byte>): State {
    var p := Read([1], d);
    var q := Read([1, 1], p.rest).values;
    if p.values[0] != 1 then st else st.(dec := st.dec.(codecId := q[0], codecVersion := q[1]))
  }

  function OnChannels(st: State, d: seq<byte>): State {
    var p := Read([1], d);
    var q := Read([1, 2, 2], p.rest).values;
    if p.values[0] < 1 then st else st.(dec := st.dec.(width := q[1], height := q[2]))
  }

  function OnContext(st: State, d: seq<byte>): State {
    var properties := Read([1, 2, 2], d).values[2];
    var entropy := properties / 512 % 16;
    st.(dec := st.dec.(properties := properties, flags := properties % 8,
                       mode := if entropy == 1 then RlgrSpec.RLGR1 else if entropy == 4 then RlgrSpec.RLGR3 else st.dec.mode))
  }

  function ReadRects(n: nat, d: seq<byte>): (r: seq<Rect>)
    ensures |r| == n
  {
    if n == 0 then []
    else
      var p := Read([2, 2, 2, 2], d);
      [Rect(p.values[0], p.values[1], p.values[2], p.values[3])] + ReadRects(n - 1, p.rest)
  }

  function OnRegion(st: State, d: seq<byte>): State {
    var p := Read([1, 2], d);
    st.(msg := st.msg.(rects := ReadRects(p.values[1], p.rest)))
  }

  /** Two quantisation values from every byte, the low half first. */
  function ReadQuants(n: nat, d: seq<byte>): (r: seq<nat>)
    ensures |r| == 2 * n
  {
    if n == 0 then []
    else
      var p := Read([1], d);
      [p.values[0] % 16, p.values[0] / 16] + ReadQuants(n - 1, p.rest)
  }

  /** The tile decoder gets three byte ranges that follow one another. */
  function TileOf(d: seq<byte>): Tile {
    var p := Read([1, 1, 1, 2, 2, 2, 2, 2], d);
    var v := p.values;
    Tile(v[0], v[1], v[2], v[3] * 64 % 0x1_0000, v[4] * 64 % 0x1_0000,
         Planes(Take(p.rest, v[5]), Take(Drop(p.rest, v[5]), v[6]), Take(Drop(p.rest, v[5] + v[6]), v[7])))
  }

  function ReadTiles(n: nat, d: seq<byte>): seq<Tile>
    decreases n
  {
    if n == 0 then []
    else
      var p := Read([2, 4], d);
      if p.values[0] != TILE_BLOCK then [] else [TileOf(p.rest)] + ReadTiles(n - 1, Drop(d, p.values[1]))
  }

  function OnTileset(st: State, d: seq<byte>): State {
    var p := Read([2], d);
    var q := Read([2, 2, 1, 1], p.rest);
    var n := q.values[2];
    var r := Read([2], q.rest);
    var t := Read([4], r.rest);
    if p.values[0] != TILESET then st
    else if n < 1 then st.(dec := st.dec.(numQuants := n))
    else if r.values[0] < 1 then State(st.dec.(numQuants := n), st.msg.(tiles := []))
    else
      State(st.dec.(numQuants := n, quants := ReadQuants(5 * n, t.rest)),
            st.msg.(tiles := ReadTiles(r.values[0], Drop(t.rest, 5 * n))))
  }

  /** A block's handler. Blocks of a codec channel start with two bytes that are skipped. */
  function Handle(kind: nat, d: seq<byte>, st: State): State {
    var body := if CONTEXT <= kind <= EXTENSION then Drop(d, 2) else d;
    if kind == SYNC then OnSync(st, body)
    else if kind == CODEC_VERSIONS then OnCodecVersions(st, body)
    else if kind == CHANNELS then OnChannels(st, body)
    else if kind == CONTEXT then OnContext(st, body)
    else if kind == REGION then OnRegion(st, body)
    else if kind == EXTENSION then OnTileset(st, body)
    else st
  }

  function ParseBlocks(s: seq<byte>, st: State): State
    decreases |s|
  {
    if |s| <= 6 then st
    else
      var p := Read([2, 4], s);
      if p.values[1] == 0 then st else ParseBlocks(Drop(s, p.values[1]), Handle(p.values[0], p.rest, st))
  }

  function Parse(s: seq<byte>, dec: Decoder): State {
    ParseBlocks(s, State(dec, Message([], [])))
  }

  // ---------- Composing ----------

  /** What the composer writes from: image size, mode, and tables. */
  datatype Encoder = Encoder(flags: nat, width: nat, height: nat, mode: Mode, properties: nat, frameIdx: nat,
                             quants: seq<nat>, quantY: nat, quantCb: nat, quantCr: nat)

  function Block(kind: nat, body: seq<byte>): (r: seq<byte>)
    ensures |r| == 6 + |body|
  {
    Write([2, 4], [kind, 6 + |body|]) + body
  }

  function ChannelBlock(kind: nat, body: seq<byte>): (r: seq<byte>)
    ensures |r| == 8 + |body|
  {
    Block(kind, [1, 0] + body)
  }

  function Entropy(mode: Mode): nat {
    if mode.RLGR1? then 1 else 4
  }

  /** Flags, colour conversion, transform, entropy coder and quantisation, each in bits of its own. */
  function ContextProperties(e: Encoder): nat {
    e.flags + 8 + 32 + 512 * Entropy(e.mode) + 8192
  }

  function SyncBlock(): seq<byte> {
    Block(SYNC, Write([4], [MAGIC]) + Write([2], [VERSION]))
  }

  function ContextBlock(e: Encoder): seq<byte> {
    ChannelBlock(CONTEXT, Write([1, 2, 2], [0, 64, ContextProperties(e)]))
  }

  function VersionsBlock(): seq<byte> {
    Block(CODEC_VERSIONS, Write([1], [1]) + Write([1, 2], [1, VERSION]))
  }

  function ChannelsBlock(e: Encoder): seq<byte> {
    Block(CHANNELS, Write([1], [1]) + Write([1, 2, 2], [0, e.width, e.height]))
  }

  function Header(e: Encoder): seq<byte> {
    SyncBlock() + (ContextBlock(e) + (VersionsBlock() + ChannelsBlock(e)))
  }

  function FrameBegin(e: Encoder): seq<byte> {
    ChannelBlock(FRAME_BEGIN, Write([4, 2], [e.frameIdx, 1]))
  }

  function FrameEnd(): seq<byte> {
    ChannelBlock(FRAME_END, [])
  }

  function RectBytes(rects: seq<Rect>): (r: seq<byte>)
    ensures |r| == 8 * |rects|
  {
    if rects == [] then []
    else
      var t := rects[0];
      Write([2, 2, 2, 2], [t.x, t.y, t.width, t.height]) + RectBytes(rects[1..])
  }

  function Region(rects: seq<Rect>): seq<byte> {
    ChannelBlock(REGION, Write([1, 2], [1, |rects|]) + (RectBytes(rects) + Write([2, 2], [REGION_TYPE, 1])))
  }

  /** Two values per byte. */
  function QuantBytes(quants: seq<nat>): (r: seq<byte>)
    ensures |r| == |quants| / 2
  {
    if |quants| < 2 then [] else Write([1], [quants[0] + 16 * quants[1]]) + QuantBytes(quants[2..])
  }

  function TileHeader(t: Tile): (r: seq<byte>)
    ensures |r| == 13
  {
    Write([1, 1, 1, 2, 2, 2, 2, 2],
          [t.quantY, t.quantCb, t.quantCr, t.x / 64, t.y / 64, |t.planes.y|, |t.planes.cb|, |t.planes.cr|])
  }

  function TileBlock(t: Tile): (r: seq<byte>)
    ensures |r| == 19 + |t.planes.y| + |t.planes.cb| + |t.planes.cr|
  {
    Block(TILE_BLOCK, TileHeader(t) + (t.planes.y + (t.planes.cb + t.planes.cr)))
  }

  function TileBytes(tiles: seq<Tile>): seq<byte> {
    if tiles == [] then [] else TileBlock(tiles[0]) + TileBytes(tiles[1..])
  }

  // The body of a tile set, from its last part to its first, each followed by what comes after the message.

  function TileData(quants: seq<nat>, tiles: seq<Tile>, tail: seq<byte>): seq<byte>
    requires |quants| % 10 == 0
  {
    QuantBytes(quants) + (TileBytes(tiles) + tail)
  }

  function SizedTiles(quants: seq<nat>, tiles: seq<Tile>, tail: seq<byte>): seq<byte>
    requires |quants| % 10 == 0
  {
    Write([4], [|TileBytes(tiles)|]) + TileData(quants, tiles, tail)
  }

  function CountedTiles(quants: seq<nat>, tiles: seq<Tile>, tail: seq<byte>): seq<byte>
    requires |quants| % 10 == 0
  {
    Write([2], [|tiles|]) + SizedTiles(quants, tiles, tail)
  }

  function TableCount(e: Encoder, quants: seq<nat>): (r: seq<byte>)
    ensures |r| == 6
  {
    Write([2, 2, 1, 1], [0, e.properties, |quants| / 10, 0x40])
  }

  function TilesetBody(e: Encoder, quants: seq<nat>, tiles: seq<Tile>, tail: seq<byte>): seq<byte>
    requires |quants| % 10 == 0
  {
    Write([2], [TILESET]) + (TableCount(e, quants) + CountedTiles(quants, tiles, tail))
  }

  function Tileset(e: Encoder, quants: seq<nat>, tiles: seq<Tile>): seq<byte>
    requires |quants| % 10 == 0
  {
    ChannelBlock(EXTENSION, TilesetBody(e, quants, tiles, []))
  }

  /** One frame: begin, region, tiles, end. */
  function Frame(e: Encoder, rects: seq<Rect>, quants: seq<nat>, tiles: seq<Tile>): seq<byte>
    requires |quants| % 10 == 0
  {
    FrameBegin(e) + (Region(rects) + (Tileset(e, quants, tiles) + FrameEnd()))
  }
}

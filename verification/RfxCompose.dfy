/**
 The RemoteFX composer: blocks are written into a stream, and lengths that are known only afterwards are patched in.
 An image is cut into a grid of tiles.
 */
module RfxCompose {
  import opened Bits
  import opened Grid
  import opened Wire
  import opened RfxMessage
  import Quantization

  // ---------- The stream ----------

  /** A byte stream with a cursor. Room that is skipped holds junk until it is written. */
  class Stream {
    var data: seq<byte>
    var pos: nat
    const junk: byte

    ghost predicate Valid()
      reads this
    {
      pos <= |data|
    }

    /** The cursor is behind everything written so far. */
    ghost predicate AtEnd()
      reads this
    {
      pos == |data|
    }

    constructor (fill: byte)
      ensures AtEnd() && data == []
    {
      data, pos, junk := [], 0, fill;
    }

    method Put(bytes: seq<byte>)
      requires Valid()
      modifies this
      ensures Valid() && pos == old(pos) + |bytes|
      ensures data == Overwritten(old(data), old(pos), bytes)
    {
      data := data[..pos] + bytes + Drop(data, pos + |bytes|);
      pos := pos + |bytes|;
    }

    method Skip(n: nat)
      requires AtEnd()
      modifies this
      ensures AtEnd() && data == old(data) + seq(n, _ => junk)
    {
      data := data + seq(n, _ => junk);
      pos := pos + n;
    }

    method SetPos(p: nat)
      requires p <= |data|
      modifies this`pos
      ensures Valid() && pos == p
    {
      pos := p;
    }
  }

  function Overwritten(data: seq<byte>, pos: nat, bytes: seq<byte>): seq<byte>
    requires pos <= |data|
  {
    data[..pos] + bytes + Drop(data, pos + |bytes|)
  }

  lemma Appended(data: seq<byte>, bytes: seq<byte>)
    ensures Overwritten(data, |data|, bytes) == data + bytes
  {
  }

  /** Patching a gap that was left between two parts. */
  lemma Patched(before: seq<byte>, gap: seq<byte>, after: seq<byte>, bytes: seq<byte>)
    requires |gap| == |bytes|
    ensures Overwritten(before + (gap + after), |before|, bytes) == before + (bytes + after)
  {
    var d := before + (gap + after);
    assert d[..|before|] == before;
    assert Drop(d, |before| + |bytes|) == after;
    ConcatAssoc(before, bytes, after);
  }

  lemma {:induction false} WriteConcat(a: seq<nat>, b: seq<nat>, va: seq<nat>, vb: seq<nat>)
    requires |a| == |va| && |b| == |vb|
    ensures Write(a + b, va + vb) == Write(a, va) + Write(b, vb)
  {
    hide Le;
    if a == [] {
      assert a + b == b && va + vb == vb;
    } else {
      assert (a + b)[1..] == a[1..] + b && (va + vb)[1..] == va[1..] + vb;
      WriteConcat(a[1..], b, va[1..], vb);
      ConcatAssoc(Le(va[0], a[0]), Write(a[1..], va[1..]), Write(b, vb));
    }
  }

  // ---------- The grid ----------

  /** The number of 64-pixel steps that cover n pixels. */
  function Steps(n: nat): nat {
    (n + 63) / 64
  }

  /** The extent of step i: the last one is cut at the edge. */
  function Extent(i: nat, n: nat): int {
    if i + 1 < Steps(n) then 64 else n - 64 * i
  }

  /** The quantisation tables in use, and a tile's choice among them. */
  function Tables(e: Encoder): seq<nat> {
    if e.quants == [] then Quantization.DEFAULT_QUANTS else e.quants
  }

  function Choice(e: Encoder, index: nat): nat {
    if e.quants == [] then 0 else index
  }

  /** Compresses the part of the image at tile (x, y) with the given width and height. */
  type Coder = (nat, nat, int, int) -> Planes

  function TileOn(e: Encoder, width: nat, height: nat, code: Coder, x: nat, y: nat): Tile {
    Tile(Choice(e, e.quantY), Choice(e, e.quantCb), Choice(e, e.quantCr), 64 * x, 64 * y,
         code(x, y, Extent(x, width), Extent(y, height)))
  }

  /** The first k tiles, row by row. */
  function SomeTiles(e: Encoder, width: nat, height: nat, code: Coder, k: nat): (r: seq<Tile>)
    requires width > 0 || k == 0
    ensures |r| == k
  {
    seq(k, i requires 0 <= i < k => TileOn(e, width, height, code, ColOf(i, Steps(width)), RowOf(i, Steps(width))))
  }

  function GridTiles(e: Encoder, width: nat, height: nat, code: Coder): (r: seq<Tile>)
    ensures |r| == Row(Steps(height), Steps(width))
  {
    if width == 0 then NoTiles(Steps(height)); [] else SomeTiles(e, width, height, code, Row(Steps(height), Steps(width)))
  }

  lemma {:induction false} NoTiles(n: nat)
    ensures Row(n, 0) == 0
  {
    if n > 0 {
      NoTiles(n - 1);
    }
  }

  /** Tile i covers a pixel when the pixel lies inside its cut extent. */
  predicate Covers(i: nat, width: nat, height: nat, px: nat, py: nat)
    requires width > 0
  {
    var x, y := ColOf(i, Steps(width)), RowOf(i, Steps(width));
    64 * x <= px < 64 * x + Extent(x, width) && 64 * y <= py < 64 * y + Extent(y, height)
  }

  lemma StepOf(n: nat, p: nat, i: nat)
    requires p < n && i < Steps(n)
    ensures 64 * i <= p < 64 * i + Extent(i, n) <==> i == p / 64
    ensures p / 64 < Steps(n) && 1 <= Extent(i, n) <= 64 && 64 * i + Extent(i, n) <= n
  {
  }

  lemma SomeStep(n: nat)
    requires n > 0
    ensures Steps(n) > 0
  {
  }

  /** Every pixel of the image lies in exactly one tile, and every tile lies inside the image. */
  lemma GridCovers(width: nat, height: nat, px: nat, py: nat, i: nat)
    requires px < width && py < height && i < Row(Steps(height), Steps(width))
    ensures Covers(i, width, height, px, py) <==> i == Row(py / 64, Steps(width)) + px / 64
    ensures Row(py / 64, Steps(width)) + px / 64 < Row(Steps(height), Steps(width))
    ensures var x, y := ColOf(i, Steps(width)), RowOf(i, Steps(width));
      && 1 <= Extent(x, width) <= 64 && 64 * x + Extent(x, width) <= width
      && 1 <= Extent(y, height) <= 64 && 64 * y + Extent(y, height) <= height
  {
    hide Row, RowOf, ColOf, Extent, Steps;
    var nx := Steps(width);
    SomeStep(width);
    var x, y := ColOf(i, nx), RowOf(i, nx);
    RowBound(i, nx, Steps(height));
    Split(i, nx);
    StepOf(width, px, x);
    StepOf(height, py, y);
    RowOfRow(py / 64, px / 64, nx);
    Inside(py / 64, px / 64, nx, Steps(height));
  }

  // ---------- Composing ----------

  method Append(s: Stream, bytes: seq<byte>)
    requires s.AtEnd()
    modifies s
    ensures s.AtEnd() && s.data == old(s.data) + bytes
  {
    Appended(s.data, bytes);
    s.Put(bytes);
  }

  /** Patches a gap of the stream and goes back to the end. */
  method Patch(s: Stream, at: nat, bytes: seq<byte>, ghost before: seq<byte>, ghost gap: seq<byte>, ghost after: seq<byte>)
    requires s.AtEnd() && s.data == before + (gap + after) && |gap| == |bytes| && at == |before|
    modifies s
    ensures s.AtEnd() && s.data == before + (bytes + after)
  {
    hide Overwritten;
    var endPos := s.pos;
    Patched(before, gap, after, bytes);
    s.SetPos(at);
    s.Put(bytes);
    s.SetPos(endPos);
  }

  /** The parts of a tile block in the order in which they are final. */
  lemma TileParts(t: Tile)
    ensures var p := t.planes;
      TileBlock(t)
      == Write([2], [TILE_BLOCK]) + (Write([4], [19 + |p.y| + |p.cb| + |p.cr|])
         + (Write([1, 1, 1, 2, 2], [t.quantY, t.quantCb, t.quantCr, t.x / 64, t.y / 64])
            + (Write([2, 2, 2], [|p.y|, |p.cb|, |p.cr|]) + (p.y + (p.cb + p.cr)))))
  {
    hide Write;
    var p := t.planes;
    var n := 19 + |p.y| + |p.cb| + |p.cr|;
    assert [2] + [4] == [2, 4] && [TILE_BLOCK] + [n] == [TILE_BLOCK, n];
    WriteConcat([2], [4], [TILE_BLOCK], [n]);
    var a, b := [t.quantY, t.quantCb, t.quantCr, t.x / 64, t.y / 64], [|p.y|, |p.cb|, |p.cr|];
    assert [1, 1, 1, 2, 2] + [2, 2, 2] == [1, 1, 1, 2, 2, 2, 2, 2];
    assert a + b == [t.quantY, t.quantCb, t.quantCr, t.x / 64, t.y / 64, |p.y|, |p.cb|, |p.cr|];
    WriteConcat([1, 1, 1, 2, 2], [2, 2, 2], a, b);
    ConcatAssoc(Write([1, 1, 1, 2, 2], a), Write([2, 2, 2], b), p.y + (p.cb + p.cr));
    ConcatAssoc(Write([2], [TILE_BLOCK]), Write([4], [n]), TileHeader(t) + (p.y + (p.cb + p.cr)));
  }

  /** Writes one tile. Its lengths are known only after its components have been coded. */
  method ComposeTile(s: Stream, t: Tile)
    requires s.AtEnd()
    modifies s
    ensures s.AtEnd() && s.data == old(s.data) + TileBlock(t)
  {
    hide Write, TileBlock;
    ghost var d0 := s.data;
    var startPos := s.pos;
    Append(s, Write([2], [TILE_BLOCK]));
    s.Skip(4);
    Append(s, Write([1, 1, 1, 2, 2], [t.quantY, t.quantCb, t.quantCr, t.x / 64, t.y / 64]));
    s.Skip(6);
    Append(s, t.planes.y);
    Append(s, t.planes.cb);
    Append(s, t.planes.cr);
    var y, cb, cr := |t.planes.y|, |t.planes.cb|, |t.planes.cr|;
    ghost var a, b := Write([2], [TILE_BLOCK]), Write([1, 1, 1, 2, 2], [t.quantY, t.quantCb, t.quantCr, t.x / 64, t.y / 64]);
    ghost var g4, g6, c := seq(4, _ => s.junk), seq(6, _ => s.junk), t.planes.y + (t.planes.cb + t.planes.cr);
    TileSpread(d0, a, g4, b, g6, t.planes);
    Patch(s, startPos + 2, Write([4], [19 + y + cb + cr]), d0 + a, g4, b + (g6 + c));
    ghost var n := Write([4], [19 + y + cb + cr]);
    TileMid(d0, a, n, b, g6, c);
    Patch(s, startPos + 13, Write([2, 2, 2], [y, cb, cr]), d0 + a + n + b, g6, c);
    TileJoin(d0, a, n, b, Write([2, 2, 2], [y, cb, cr]), c);
    TileParts(t);
  }

  lemma TileSpread(d: seq<byte>, a: seq<byte>, g: seq<byte>, b: seq<byte>, h: seq<byte>, p: Planes)
    ensures d + a + g + b + h + p.y + p.cb + p.cr == (d + a) + (g + (b + (h + (p.y + (p.cb + p.cr)))))
  {
    var e := d + a;
    ConcatAssoc(e + g + b + h + p.y, p.cb, p.cr);
    ConcatAssoc(e + g + b + h, p.y, p.cb + p.cr);
    ConcatAssoc(e + g + b, h, p.y + (p.cb + p.cr));
    ConcatAssoc(e + g, b, h + (p.y + (p.cb + p.cr)));
    ConcatAssoc(e, g, b + (h + (p.y + (p.cb + p.cr))));
  }

  lemma TileMid(d: seq<byte>, a: seq<byte>, n: seq<byte>, b: seq<byte>, h: seq<byte>, c: seq<byte>)
    ensures (d + a) + (n + (b + (h + c))) == d + a + n + b + (h + c)
  {
    ConcatAssoc(d + a, n, b + (h + c));
    ConcatAssoc(d + a + n, b, h + c);
  }

  lemma TileJoin(d: seq<byte>, a: seq<byte>, n: seq<byte>, b: seq<byte>, l: seq<byte>, c: seq<byte>)
    ensures d + a + n + b + (l + c) == d + (a + (n + (b + (l + c))))
  {
    TileMid(d, a, n, b, l, c);
    ConcatAssoc(d, a, n + (b + (l + c)));
  }

  lemma {:induction false} TileBytesOneMore(tiles: seq<Tile>, t: Tile)
    ensures TileBytes(tiles + [t]) == TileBytes(tiles) + TileBlock(t)
  {
    hide TileBlock;
    if tiles == [] {
      assert (tiles + [t])[1..] == [];
    } else {
      assert (tiles + [t])[1..] == tiles[1..] + [t];
      TileBytesOneMore(tiles[1..], t);
      ConcatAssoc(TileBlock(tiles[0]), TileBytes(tiles[1..]), TileBlock(t));
    }
  }

  /** The tile at place (x, y) follows those before it. */
  lemma NextTile(e: Encoder, width: nat, height: nat, code: Coder, x: nat, y: nat)
    requires x < Steps(width)
    ensures var k := Row(y, Steps(width)) + x;
      SomeTiles(e, width, height, code, k + 1) == SomeTiles(e, width, height, code, k) + [TileOn(e, width, height, code, x, y)]
  {
    hide TileOn, Row, RowOf, ColOf;
    RowOfRow(y, x, Steps(width));
  }

  /** One row of tiles, behind d and the rows before it. */
  method ComposeRow(s: Stream, e: Encoder, width: nat, height: nat, code: Coder, y: nat, ghost d: seq<byte>)
    requires s.AtEnd() && width > 0 && s.data == d + TileBytes(SomeTiles(e, width, height, code, Row(y, Steps(width))))
    modifies s
    ensures s.AtEnd() && s.data == d + TileBytes(SomeTiles(e, width, height, code, Row(y + 1, Steps(width))))
  {
    hide TileBytes, TileBlock, TileOn, SomeTiles;
    var nx := Steps(width);
    var x := 0;
    while x < nx
      invariant 0 <= x <= nx && s.AtEnd()
      invariant s.data == d + TileBytes(SomeTiles(e, width, height, code, Row(y, nx) + x))
    {
      ghost var tiles := SomeTiles(e, width, height, code, Row(y, nx) + x);
      var t := TileOn(e, width, height, code, x, y);
      ComposeTile(s, t);
      NextTile(e, width, height, code, x, y);
      TileBytesOneMore(tiles, t);
      ConcatAssoc(d, TileBytes(tiles), TileBlock(t));
      x := x + 1;
    }
  }

  /** All rows of tiles. */
  method ComposeTiles(s: Stream, e: Encoder, width: nat, height: nat, code: Coder)
    requires s.AtEnd()
    modifies s
    ensures s.AtEnd() && s.data == old(s.data) + TileBytes(GridTiles(e, width, height, code))
  {
    hide TileBytes, SomeTiles;
    ghost var d := s.data;
    NoTileBytes(d);
    if width == 0 {
      return;
    }
    var y := 0;
    SomeTilesZero(e, width, height, code);
    while y < Steps(height)
      invariant 0 <= y <= Steps(height) && s.AtEnd()
      invariant s.data == d + TileBytes(SomeTiles(e, width, height, code, Row(y, Steps(width))))
    {
      ComposeRow(s, e, width, height, code, y, d);
      y := y + 1;
    }
  }

  lemma NoTileBytes(d: seq<byte>)
    ensures d + TileBytes([]) == d
  {
  }

  lemma SomeTilesZero(e: Encoder, width: nat, height: nat, code: Coder)
    ensures SomeTiles(e, width, height, code, 0) == []
  {
  }

  /** Two values per byte. */
  method ComposeQuants(s: Stream, quants: seq<nat>)
    requires s.AtEnd() && |quants| % 2 == 0
    modifies s
    ensures s.AtEnd() && s.data == old(s.data) + QuantBytes(quants)
  {
    hide Write;
    var left := quants;
    ghost var d := s.data;
    ghost var done: seq<byte> := [];
    while left != []
      invariant |left| % 2 == 0 && s.AtEnd() && s.data == d + done
      invariant done + QuantBytes(left) == QuantBytes(quants)
      decreases |left|
    {
      var b := Write([1], [left[0] + 16 * left[1]]);
      Append(s, b);
      ConcatAssoc(done, b, QuantBytes(left[2..]));
      ConcatAssoc(d, done, b);
      done := done + b;
      left := left[2..];
    }
  }

  /** The fixed fields between the two lengths of a tile set. */
  function TilesetFields(e: Encoder, tables: seq<nat>, count: nat): (r: seq<byte>)
    ensures |r| == 12
  {
    [1, 0] + (Write([2], [TILESET]) + (TableCount(e, tables) + Write([2], [count])))
  }

  lemma TilesetParts(e: Encoder, tables: seq<nat>, tiles: seq<Tile>)
    requires |tables| % 10 == 0
    ensures Tileset(e, tables, tiles)
         == Write([2], [EXTENSION]) + (Write([4], [22 + |tables| / 2 + |TileBytes(tiles)|])
            + (TilesetFields(e, tables, |tiles|) + SizedTiles(tables, tiles, [])))
  {
    hide Write, TableCount, SizedTiles, TileBytes;
    var n := 22 + |tables| / 2 + |TileBytes(tiles)|;
    TilesetLength(e, tables, tiles);
    LengthField(EXTENSION, n);
    JoinFields(Write([2], [EXTENSION]), Write([4], [n]), [1, 0], Write([2], [TILESET]), TableCount(e, tables),
               Write([2], [|tiles|]), SizedTiles(tables, tiles, []));
  }

  lemma LengthField(kind: nat, n: nat)
    ensures Write([2, 4], [kind, n]) == Write([2], [kind]) + Write([4], [n])
  {
    hide Write;
    assert [2] + [4] == [2, 4] && [kind] + [n] == [kind, n];
    WriteConcat([2], [4], [kind], [n]);
  }

  lemma JoinFields(h: seq<byte>, n: seq<byte>, m: seq<byte>, a: seq<byte>, b: seq<byte>, c: seq<byte>, z: seq<byte>)
    ensures (h + n) + (m + (a + (b + (c + z)))) == h + (n + ((m + (a + (b + c))) + z))
  {
    ConcatAssoc(b, c, z);
    ConcatAssoc(a, b + c, z);
    ConcatAssoc(m, a + (b + c), z);
    ConcatAssoc(h, n, m + (a + (b + (c + z))));
  }

  lemma TilesetLength(e: Encoder, tables: seq<nat>, tiles: seq<Tile>)
    requires |tables| % 10 == 0
    ensures |TilesetBody(e, tables, tiles, [])| == 14 + |tables| / 2 + |TileBytes(tiles)|
  {
    hide Write, TableCount, QuantBytes, TileBytes;
    assert Total([2]) == 2 && Total([4]) == 4;
  }

  /** Writes the tile set of an image; both of its lengths are patched in at the end. */
  method ComposeTileset(s: Stream, e: Encoder, width: nat, height: nat, code: Coder)
    requires s.AtEnd() && |e.quants| % 10 == 0
    modifies s
    ensures s.AtEnd() && s.data == old(s.data) + Tileset(e, Tables(e), GridTiles(e, width, height, code))
  {
    hide Write, Tileset, TilesetFields, QuantBytes, TileBytes, GridTiles, TileData;
    var tables := Tables(e);
    TablesFit(e);
    ghost var tiles := GridTiles(e, width, height, code);
    var numTiles := Count(width, height);
    var startPos := s.pos;
    ghost var d0 := s.data;
    Append(s, Write([2], [EXTENSION]));
    s.Skip(4);
    Append(s, TilesetFields(e, tables, numTiles));
    s.Skip(4);
    ComposeQuants(s, tables);
    var dataPos := s.pos;
    ComposeTiles(s, e, width, height, code);
    var tilesDataSize := s.pos - dataPos;
    ghost var a, b, g := Write([2], [EXTENSION]), TilesetFields(e, tables, numTiles), seq(4, _ => s.junk);
    ghost var c := TileData(tables, tiles, []);
    NoTail(tables, tiles);
    Spread(d0, a, g, b, g, QuantBytes(tables), TileBytes(tiles));
    ghost var n := Write([4], [22 + |tables| / 2 + tilesDataSize]);
    Patch(s, startPos + 2, Write([4], [22 + |tables| / 2 + tilesDataSize]), d0 + a, g, b + (g + c));
    TileMid(d0, a, n, b, g, c);
    Patch(s, startPos + 18, Write([4], [tilesDataSize]), d0 + a + n + b, g, c);
    TileJoin(d0, a, n, b, Write([4], [tilesDataSize]), c);
    TilesetParts(e, tables, tiles);
  }

  lemma NoTail(tables: seq<nat>, tiles: seq<Tile>)
    requires |tables| % 10 == 0
    ensures TileData(tables, tiles, []) == QuantBytes(tables) + TileBytes(tiles)
  {
    hide QuantBytes, TileBytes;
    assert TileBytes(tiles) + [] == TileBytes(tiles);
  }

  lemma TablesFit(e: Encoder)
    requires |e.quants| % 10 == 0
    ensures |Tables(e)| % 10 == 0 && |Tables(e)| >= 10
  {
  }

  function Count(width: nat, height: nat): (n: nat)
    ensures n == Row(Steps(height), Steps(width))
  {
    RowProduct(Steps(height), Steps(width));
    Steps(height) * Steps(width)
  }

  lemma Spread(d: seq<byte>, a: seq<byte>, g: seq<byte>, b: seq<byte>, h: seq<byte>, q: seq<byte>, t: seq<byte>)
    ensures d + a + g + b + h + q + t == (d + a) + (g + (b + (h + (q + t))))
  {
    var e := d + a;
    ConcatAssoc(e + g + b + h, q, t);
    ConcatAssoc(e + g + b, h, q + t);
    ConcatAssoc(e + g, b, h + (q + t));
    ConcatAssoc(e, g, b + (h + (q + t)));
  }

  /** The region block lists the rectangles. */
  method ComposeRegion(s: Stream, rects: seq<Rect>)
    requires s.AtEnd()
    modifies s
    ensures s.AtEnd() && s.data == old(s.data) + Region(rects)
  {
    hide Write, RectBytes, Region;
    ghost var d := s.data;
    var size := 15 + 8 * |rects|;
    var head := Write([2, 4], [REGION, size]) + ([1, 0] + Write([1, 2], [1, |rects|]));
    Append(s, head);
    ComposeRects(s, rects);
    var foot := Write([2, 2], [REGION_TYPE, 1]);
    Append(s, foot);
    RegionParts(rects);
    JoinRegion(d, Write([2, 4], [REGION, size]), [1, 0], Write([1, 2], [1, |rects|]), RectBytes(rects), foot);
  }

  lemma RegionParts(rects: seq<Rect>)
    ensures Region(rects)
         == Write([2, 4], [REGION, 15 + 8 * |rects|])
            + ([1, 0] + (Write([1, 2], [1, |rects|]) + (RectBytes(rects) + Write([2, 2], [REGION_TYPE, 1]))))
  {
    hide Write, RectBytes;
    RegionLength(rects);
  }

  lemma RegionLength(rects: seq<Rect>)
    ensures |[1, 0] + (Write([1, 2], [1, |rects|]) + (RectBytes(rects) + Write([2, 2], [REGION_TYPE, 1])))| == 9 + 8 * |rects|
  {
    hide Write, RectBytes;
    assert Total([1, 2]) == 3 && Total([2, 2]) == 4;
  }

  lemma JoinRegion(d: seq<byte>, h: seq<byte>, m: seq<byte>, a: seq<byte>, b: seq<byte>, foot: seq<byte>)
    ensures d + (h + (m + a)) + b + foot == d + (h + (m + (a + (b + foot))))
  {
    ConcatAssoc(d + (h + (m + a)), b, foot);
    ConcatAssoc(d, h + (m + a), b + foot);
    ConcatAssoc(h, m + a, b + foot);
    ConcatAssoc(m, a, b + foot);
  }

  method ComposeRects(s: Stream, rects: seq<Rect>)
    requires s.AtEnd()
    modifies s
    ensures s.AtEnd() && s.data == old(s.data) + RectBytes(rects)
  {
    hide Write;
    ghost var d := s.data;
    ghost var done: seq<byte> := [];
    var i := 0;
    assert rects[0..] == rects;
    while i < |rects|
      invariant 0 <= i <= |rects| && s.AtEnd() && s.data == d + done
      invariant done + RectBytes(rects[i..]) == RectBytes(rects)
    {
      var t := rects[i];
      var b := Write([2, 2, 2, 2], [t.x, t.y, t.width, t.height]);
      Append(s, b);
      assert rects[i..][1..] == rects[i + 1..];
      ConcatAssoc(done, b, RectBytes(rects[i + 1..]));
      ConcatAssoc(d, done, b);
      done := done + b;
      i := i + 1;
    }
    assert rects[i..] == [];
  }

  // ---------- Messages ----------

  /** The properties a tile set repeats, in bits one higher than in the context block. */
  function TilesetProperties(e: Encoder): nat {
    1 + 2 * e.flags + 16 + 64 + 1024 * Entropy(e.mode) + 16384
  }

  class Composer {
    const flags: nat
    const width: nat
    const height: nat
    const mode: Mode
    const quants: seq<nat>
    const quantY: nat
    const quantCb: nat
    const quantCr: nat
    var properties: nat
    var frameIdx: nat
    var headerProcessed: bool

    function View(): Encoder
      reads this
    {
      Encoder(flags, width, height, mode, properties, frameIdx, quants, quantY, quantCb, quantCr)
    }

    constructor (e: Encoder)
      ensures View() == e && !headerProcessed
    {
      flags, width, height, mode, quants := e.flags, e.width, e.height, e.mode, e.quants;
      quantY, quantCb, quantCr := e.quantY, e.quantCb, e.quantCr;
      properties, frameIdx, headerProcessed := e.properties, e.frameIdx, false;
    }

    /** Only the first frame carries the header. */
    method Compose(s: Stream, rects: seq<Rect>, imageWidth: nat, imageHeight: nat, code: Coder)
      requires s.AtEnd() && |quants| % 10 == 0
      modifies s, this
      ensures s.AtEnd()
      ensures var first := old(frameIdx) == 0 && !old(headerProcessed);
        var e := if first then old(View()).(properties := TilesetProperties(old(View()))) else old(View());
        && s.data == old(s.data) + (if first then Header(e) else [])
                     + Frame(e, rects, Tables(e), GridTiles(e, imageWidth, imageHeight, code))
        && View() == e.(frameIdx := e.frameIdx + 1) && headerProcessed == (old(headerProcessed) || first)
    {
      hide Header, FrameBegin, Region, Tileset, FrameEnd, GridTiles;
      ghost var d := s.data;
      if frameIdx == 0 && !headerProcessed {
        HeaderProperties(View(), TilesetProperties(View()));
        properties := TilesetProperties(View());
        Append(s, Header(View()));
        headerProcessed := true;
      }
      ghost var e, d1 := View(), s.data;
      assert d + [] == d;
      Append(s, FrameBegin(View()));
      ComposeRegion(s, rects);
      ComposeTileset(s, View(), imageWidth, imageHeight, code);
      Append(s, FrameEnd());
      frameIdx := frameIdx + 1;
      FrameParts(d1, FrameBegin(e), Region(rects), Tileset(e, Tables(e), GridTiles(e, imageWidth, imageHeight, code)), FrameEnd());
    }
  }

  lemma HeaderProperties(e: Encoder, p: nat)
    ensures Header(e.(properties := p)) == Header(e)
  {
    hide Write;
  }

  lemma FrameParts(d: seq<byte>, a: seq<byte>, b: seq<byte>, c: seq<byte>, f: seq<byte>)
    ensures d + a + b + c + f == d + (a + (b + (c + f)))
  {
    ConcatAssoc(d + a + b, c, f);
    ConcatAssoc(d + a, b, c + f);
    ConcatAssoc(d, a, b + (c + f));
  }
}

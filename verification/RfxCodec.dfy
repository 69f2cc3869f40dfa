/**
 Tile codec and message framing together: an image whose tiles are coded component by component is composed into a
 message, parsed, and decoded again with the tables and the entropy coder that the message carries.
 */
module RfxCodec {
  import opened Bits
  import opened Grid
  import opened DwtLine
  import opened DwtTile
  import opened Quantization
  import opened RfxMessage
  import opened RfxRoundTrip
  import opened RfxCompose
  import opened RfxImage
  import RlgrSpec
  import TileLossless
  import Component

  /** The samples of a tile, 64 rows of 64 in each colour component. */
  datatype Colours = Colours(y: seq<sint16>, cb: seq<sint16>, cr: seq<sint16>)

  /** The tile in column x and row y of the grid. */
  type Picture = (nat, nat) -> Colours

  predicate HasTable(quants: seq<nat>, index: nat) {
    10 * index + 10 <= |quants| && Values(quants[10 * index..10 * index + 10])
  }

  /** Table number index, as both sides address it. */
  function Table(quants: seq<nat>, index: nat): (q: seq<nat>)
    requires HasTable(quants, index)
    ensures Values(q)
  {
    quants[10 * index..10 * index + 10]
  }

  /** The bytes begin with the whole code of the samples, and the bound on the samples' error says something. */
  predicate Coded(mode: RlgrSpec.Mode, s: seq<sint16>, q: seq<nat>, bytes: seq<byte>)
    requires Values(q)
  {
    && |s| == TILE && AllWithin(s, SAMPLES) && Component.SampleError(mode, s, q) <= ERROR_RANGE
    && RlgrSpec.Encode(mode, TileLossless.Prepared(Component.Coefficients(s, q))) <= BytesBits(bytes)
  }

  /** The decoder's side of one component. */
  function DecodedPlane(mode: RlgrSpec.Mode, q: seq<nat>, bytes: seq<byte>, stale: seq<sint16>): seq<sint16>
    requires Values(q) && |stale| == TILE
  {
    Component.Samples(TileLossless.Decoded(mode, bytes, stale), q)
  }

  predicate PlaneNear(mode: RlgrSpec.Mode, q: seq<nat>, bytes: seq<byte>, stale: seq<sint16>, s: seq<sint16>)
    requires Values(q) && |stale| == TILE && |s| == TILE
  {
    var error := Component.SampleError(mode, s, q);
    AllNear(DecodedPlane(mode, q, bytes, stale), s, -error - 21, error + 6)
  }

  lemma PlaneDecodes(mode: RlgrSpec.Mode, q: seq<nat>, bytes: seq<byte>, stale: seq<sint16>, s: seq<sint16>)
    requires Values(q) && |stale| == TILE && Coded(mode, s, q, bytes)
    ensures PlaneNear(mode, q, bytes, stale, s)
  {
    hide BytesBits, RlgrSpec.Encode, Component.Coefficients, TileLossless.Prepared, TileLossless.Decoded, Component.Samples,
      AllNear, Component.SampleError, AllWithin;
    var code := RlgrSpec.Encode(mode, TileLossless.Prepared(Component.Coefficients(s, q)));
    Component.ComponentRoundTrip(mode, s, q, bytes, BytesBits(bytes)[|code|..], stale);
  }

  /** The tables that the encoder's choice names. */
  predicate HasTables(e: Encoder) {
    && HasTable(Tables(e), Choice(e, e.quantY)) && HasTable(Tables(e), Choice(e, e.quantCb))
    && HasTable(Tables(e), Choice(e, e.quantCr))
  }

  predicate TileCoded(e: Encoder, p: Planes, c: Colours)
    requires HasTables(e)
  {
    && Coded(e.mode, c.y, Table(Tables(e), Choice(e, e.quantY)), p.y)
    && Coded(e.mode, c.cb, Table(Tables(e), Choice(e, e.quantCb)), p.cb)
    && Coded(e.mode, c.cr, Table(Tables(e), Choice(e, e.quantCr)), p.cr)
  }

  predicate PictureCoded(e: Encoder, width: nat, height: nat, code: Coder, picture: Picture)
    requires HasTables(e)
  {
    forall x, y :: 0 <= x < Steps(width) && 0 <= y < Steps(height) ==>
      TileCoded(e, code(x, y, Extent(x, width), Extent(y, height)), picture(x, y))
  }

  /** A parsed tile, decoded, against the tile of the picture at its place. */
  predicate TileNear(dec: Decoder, t: Tile, stale: Colours, c: Colours)
    requires |stale.y| == |stale.cb| == |stale.cr| == TILE
  {
    && HasTable(dec.quants, t.quantY) && HasTable(dec.quants, t.quantCb) && HasTable(dec.quants, t.quantCr)
    && |c.y| == |c.cb| == |c.cr| == TILE
    && PlaneNear(dec.mode, Table(dec.quants, t.quantY), t.planes.y, stale.y, c.y)
    && PlaneNear(dec.mode, Table(dec.quants, t.quantCb), t.planes.cb, stale.cb, c.cb)
    && PlaneNear(dec.mode, Table(dec.quants, t.quantCr), t.planes.cr, stale.cr, c.cr)
  }

  /** Tile i of a parsed message. */
  predicate TileAt(r: State, i: nat, x: nat, y: nat, stale: Colours, c: Colours)
    requires |stale.y| == |stale.cb| == |stale.cr| == TILE
  {
    i < |r.msg.tiles| && r.msg.tiles[i].x == 64 * x && r.msg.tiles[i].y == 64 * y && TileNear(r.dec, r.msg.tiles[i], stale, c)
  }

  lemma TileDecodes(e: Encoder, dec: Decoder, t: Tile, stale: Colours, c: Colours)
    requires HasTables(e) && TileCoded(e, t.planes, c) && |stale.y| == |stale.cb| == |stale.cr| == TILE
    requires dec.mode == e.mode && dec.quants == Tables(e)
    requires t.quantY == Choice(e, e.quantY) && t.quantCb == Choice(e, e.quantCb) && t.quantCr == Choice(e, e.quantCr)
    ensures TileNear(dec, t, stale, c)
  {
    hide HasTable, Table, PlaneNear, Component.SampleError, AllWithin, RlgrSpec.Encode, BytesBits;
    PlaneDecodes(dec.mode, Table(dec.quants, t.quantY), t.planes.y, stale.y, c.y);
    PlaneDecodes(dec.mode, Table(dec.quants, t.quantCb), t.planes.cb, stale.cb, c.cb);
    PlaneDecodes(dec.mode, Table(dec.quants, t.quantCr), t.planes.cr, stale.cr, c.cr);
  }

  lemma GridTileAt(e: Encoder, width: nat, height: nat, code: Coder, i: nat)
    requires i < |GridTiles(e, width, height, code)|
    ensures width > 0 && Steps(width) > 0 && ColOf(i, Steps(width)) < Steps(width) && RowOf(i, Steps(width)) < Steps(height)
    ensures GridTiles(e, width, height, code)[i] == TileOn(e, width, height, code, ColOf(i, Steps(width)), RowOf(i, Steps(width)))
  {
    hide Row, RowOf, ColOf, TileOn;
    if width == 0 {
      NoTiles(Steps(height));
    }
    SomeStep(width);
    RowBound(i, Steps(width), Steps(height));
  }

  /**
   A whole image: composed, parsed and decoded, every tile lies at its place and every sample of its three components is
   within -T-21..T+6 of the original, where T is the error of the component's own table.
   */
  lemma ImageDecodes(e: Encoder, dec: Decoder, rects: seq<Rect>, width: nat, height: nat, code: Coder, picture: Picture,
                     stale: Colours, i: nat)
    requires ImageFits(e, rects, width, height, code) && i < |GridTiles(e, width, height, code)|
    requires HasTables(e) && PictureCoded(e, width, height, code, picture)
    requires |stale.y| == |stale.cb| == |stale.cr| == TILE
    ensures width > 0 && Steps(width) > 0
    ensures var x, y := ColOf(i, Steps(width)), RowOf(i, Steps(width));
      TileAt(Parse(Composed(e, rects, width, height, code), dec), i, x, y, stale, picture(x, y))
  {
    hide Composed, GridTiles, TileBytes, RectFits, CoderFits, Parse, TileNear, HasTables, TileCoded, Row, RowOf, ColOf, EncoderFits,
      TablesFitFields, Tables;
    ImageRoundTrip(e, dec, rects, width, height, code);
    GridTileAt(e, width, height, code, i);
    var x, y := ColOf(i, Steps(width)), RowOf(i, Steps(width));
    var r := Parse(Composed(e, rects, width, height, code), dec);
    assert TileCoded(e, code(x, y, Extent(x, width), Extent(y, height)), picture(x, y));
    TileDecodes(e, r.dec, r.msg.tiles[i], stale, picture(x, y));
  }
}

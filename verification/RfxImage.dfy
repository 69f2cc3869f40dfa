/** A whole image through composer and parser. */
module RfxImage {
  import opened Bits
  import opened Grid
  import opened RfxMessage
  import opened RfxRoundTrip
  import opened RfxCompose

  predicate PlanesFit(p: Planes) {
    |p.y| < 0x1_0000 && |p.cb| < 0x1_0000 && |p.cr| < 0x1_0000
  }

  /** The coded components of every tile of the image fit their 16-bit lengths. */
  predicate CoderFits(width: nat, height: nat, code: Coder) {
    forall x, y :: 0 <= x < Steps(width) && 0 <= y < Steps(height) ==> PlanesFit(code(x, y, Extent(x, width), Extent(y, height)))
  }

  predicate TablesFitFields(e: Encoder) {
    && |e.quants| % 10 == 0 && |e.quants| < 2560 && (forall i :: 0 <= i < |e.quants| ==> e.quants[i] < 16)
    && e.quantY < 256 && e.quantCb < 256 && e.quantCr < 256
  }

  lemma GridTileFits(e: Encoder, width: nat, height: nat, code: Coder, i: nat)
    requires TablesFitFields(e) && CoderFits(width, height, code) && width <= 0x1_0000 && height <= 0x1_0000
    requires width > 0 && i < Row(Steps(height), Steps(width))
    ensures TileFits(GridTiles(e, width, height, code)[i])
  {
    hide Row, RowOf, ColOf, Extent;
    SomeStep(width);
    RowBound(i, Steps(width), Steps(height));
    var x, y := ColOf(i, Steps(width)), RowOf(i, Steps(width));
    assert x < 1024 && y < 1024;
    assert PlanesFit(code(x, y, Extent(x, width), Extent(y, height)));
  }

  /** The first message of an image. */
  function Composed(e: Encoder, rects: seq<Rect>, width: nat, height: nat, code: Coder): seq<byte>
    requires TablesFitFields(e)
  {
    TablesFit(e);
    Header(e) + Frame(e, rects, Tables(e), GridTiles(e, width, height, code))
  }

  /** Everything fits the fields of the message. */
  predicate ImageFits(e: Encoder, rects: seq<Rect>, width: nat, height: nat, code: Coder) {
    && EncoderFits(e) && TablesFitFields(e) && CoderFits(width, height, code) && width <= 0x1_0000 && height <= 0x1_0000
    && |rects| < 0x1_0000 && (forall i :: 0 <= i < |rects| ==> RectFits(rects[i]))
    && var tiles := GridTiles(e, width, height, code);
    |tiles| < 0x1_0000 && |TileBytes(tiles)| < 0x1_0000_0000 - 2000
  }

  /**
   Every image up to 65536 pixels a side and 65535 tiles: the parser recovers from the composed message the size, the
   entropy coder, the rectangles, the tables, and the tiles of the grid, each with its own bytes.
   */
  lemma ImageRoundTrip(e: Encoder, dec: Decoder, rects: seq<Rect>, width: nat, height: nat, code: Coder)
    requires ImageFits(e, rects, width, height, code)
    ensures var tiles := GridTiles(e, width, height, code);
      var r := Parse(Composed(e, rects, width, height, code), dec);
      && r.dec.width == e.width && r.dec.height == e.height && r.dec.mode == e.mode
      && r.msg == Message(rects, tiles)
      && r.dec.numQuants == |Tables(e)| / 10 && (tiles != [] ==> r.dec.quants == Tables(e))
  {
    hide Header, Frame, GridTiles, TileBytes, TileFits, RectFits, CoderFits, Parse;
    var tiles := GridTiles(e, width, height, code);
    TablesFit(e);
    forall i | 0 <= i < |tiles|
      ensures TileFits(tiles[i])
    {
      if width == 0 {
        NoTiles(Steps(height));
      } else {
        GridTileFits(e, width, height, code, i);
      }
    }
    MessageRoundTrip(e, dec, rects, Tables(e), tiles);
  }
}

/** The RemoteFX parser: a cursor moves over the blocks and the handlers fill the context. */
module RfxParse {
  import opened Bits
  import opened Wire
  import opened RfxMessage
  import RlgrSpec

  class Context {
    var version: nat
    var codecId: nat
    var codecVersion: nat
    var width: nat
    var height: nat
    var properties: nat
    var flags: nat
    var mode: Mode
    var numQuants: nat
    var quants: seq<nat>
    var rects: seq<Rect>
    var tiles: seq<Tile>

    function View(): State
      reads this
    {
      State(Decoder(version, codecId, codecVersion, width, height, properties, flags, mode, numQuants, quants),
            Message(rects, tiles))
    }

    constructor ()
      ensures View() == State(Decoder(0, 0, 0, 0, 0, 0, 0, RlgrSpec.RLGR1, 0, []), Message([], []))
    {
      version, codecId, codecVersion, width, height, properties, flags := 0, 0, 0, 0, 0, 0, 0;
      mode, numQuants, quants, rects, tiles := RlgrSpec.RLGR1, 0, [], [], [];
    }

    method ProcessSync(d: seq<byte>)
      modifies this
      ensures View() == OnSync(old(View()), d)
    {
      hide Read;
      var p := Read([4], d);
      if p.values[0] != MAGIC {
        return;
      }
      version := Read([2], p.rest).values[0];
    }

    method ProcessCodecVersions(d: seq<byte>)
      modifies this
      ensures View() == OnCodecVersions(old(View()), d)
    {
      hide Read;
      var p := Read([1], d);
      if p.values[0] != 1 {
        return;
      }
      var q := Read([1, 1], p.rest).values;
      codecId, codecVersion := q[0], q[1];
    }

    method ProcessChannels(d: seq<byte>)
      modifies this
      ensures View() == OnChannels(old(View()), d)
    {
      hide Read;
      var p := Read([1], d);
      if p.values[0] < 1 {
        return;
      }
      var q := Read([1, 2, 2], p.rest).values;
      width, height := q[1], q[2];
    }

    method ProcessContext(d: seq<byte>)
      modifies this
      ensures View() == OnContext(old(View()), d)
    {
      hide Read;
      properties := Read([1, 2, 2], d).values[2];
      flags := properties % 8;
      var entropy := properties / 512 % 16;
      if entropy == 1 {
        mode := RlgrSpec.RLGR1;
      } else if entropy == 4 {
        mode := RlgrSpec.RLGR3;
      }
    }

    method ProcessRegion(d: seq<byte>)
      modifies this
      ensures View() == OnRegion(old(View()), d)
    {
      hide Read, ReadRects;
      var p := Read([1, 2], d);
      rects := TakeRects(p.values[1], p.rest);
    }

    method ProcessTileset(d: seq<byte>)
      modifies this
      ensures View() == OnTileset(old(View()), d)
    {
      hide Read, ReadQuants, ReadTiles;
      var p := Read([2], d);
      if p.values[0] != TILESET {
        return;
      }
      var q := Read([2, 2, 1, 1], p.rest);
      numQuants := q.values[2];
      if numQuants < 1 {
        return;
      }
      var r := Read([2], q.rest);
      if r.values[0] < 1 {
        tiles := [];
        return;
      }
      var t := Read([4], r.rest);
      quants := TakeQuants(5 * numQuants, t.rest);
      tiles := TakeTiles(r.values[0], Drop(t.rest, 5 * numQuants));
    }

    method ProcessBlock(kind: nat, d: seq<byte>)
      modifies this
      ensures View() == Handle(kind, d, old(View()))
    {
      hide OnSync, OnCodecVersions, OnChannels, OnContext, OnRegion, OnTileset, Drop;
      var body := if CONTEXT <= kind <= EXTENSION then Drop(d, 2) else d;
      if kind == SYNC {
        ProcessSync(body);
      } else if kind == CODEC_VERSIONS {
        ProcessCodecVersions(body);
      } else if kind == CHANNELS {
        ProcessChannels(body);
      } else if kind == CONTEXT {
        ProcessContext(body);
      } else if kind == REGION {
        ProcessRegion(body);
      } else if kind == EXTENSION {
        ProcessTileset(body);
      }
    }

    /** All blocks of a message, into a message that starts out empty. */
    method ProcessMessage(data: seq<byte>)
      modifies this
      ensures View() == Parse(data, old(View()).dec)
    {
      hide Handle, Read;
      rects, tiles := [], [];
      var pos := 0;
      assert data[0..] == data;
      while |data| - pos > 6
        invariant Parse(data, old(View()).dec) == ParseBlocks(Drop(data, pos), View())
        decreases |data| - pos
      {
        var left := Drop(data, pos);
        var p := Read([2, 4], left);
        if p.values[1] == 0 {
          return;
        }
        ProcessBlock(p.values[0], p.rest);
        assert Drop(left, p.values[1]) == Drop(data, pos + p.values[1]);
        pos := pos + p.values[1];
      }
    }
  }

  method TakeRects(n: nat, d: seq<byte>) returns (rects: seq<Rect>)
    ensures rects == ReadRects(n, d)
  {
    hide Read;
    rects := [];
    var left := d;
    var i := 0;
    while i < n
      invariant 0 <= i <= n && rects + ReadRects(n - i, left) == ReadRects(n, d)
    {
      var p := Read([2, 2, 2, 2], left);
      var r := Rect(p.values[0], p.values[1], p.values[2], p.values[3]);
      ConcatAssoc(rects, [r], ReadRects(n - i - 1, p.rest));
      rects := rects + [r];
      left := p.rest;
      i := i + 1;
    }
    assert rects + [] == rects;
  }

  method TakeQuants(n: nat, d: seq<byte>) returns (quants: seq<nat>)
    ensures quants == ReadQuants(n, d)
  {
    hide Read;
    quants := [];
    var left := d;
    var i := 0;
    while i < n
      invariant 0 <= i <= n && quants + ReadQuants(n - i, left) == ReadQuants(n, d)
    {
      var p := Read([1], left);
      var pair := [p.values[0] % 16, p.values[0] / 16];
      ConcatAssoc(quants, pair, ReadQuants(n - i - 1, p.rest));
      quants := quants + pair;
      left := p.rest;
      i := i + 1;
    }
    assert quants + [] == quants;
  }

  /** Stops at a block that is not a tile. */
  method TakeTiles(n: nat, d: seq<byte>) returns (tiles: seq<Tile>)
    ensures tiles == ReadTiles(n, d)
  {
    hide Read, TileOf;
    tiles := [];
    var left := d;
    var i := 0;
    while i < n
      invariant 0 <= i <= n && tiles + ReadTiles(n - i, left) == ReadTiles(n, d)
    {
      var p := Read([2, 4], left);
      if p.values[0] != TILE_BLOCK {
        assert tiles + [] == tiles;
        return;
      }
      var t := TileOf(p.rest);
      ConcatAssoc(tiles, [t], ReadTiles(n - i - 1, Drop(left, p.values[1])));
      tiles := tiles + [t];
      left := Drop(left, p.values[1]);
      i := i + 1;
    }
    assert tiles + [] == tiles;
  }
}

/**
 The three-level transform of a 64x64 tile: the whole tile, then its LL quarter (from 3072), then the LL quarter
 of that (from 3840).
 */
module DwtLevels {
  import opened Bits
  import opened Grid
  import opened DwtBlock
  import Dwt
  import Sse2

  lemma LevelSizes()
    ensures Size(32) == TILE && Size(16) == 1024 && Size(8) == 256
    ensures Row(96, 32) == 3072 && Row(48, 16) == 768 && Row(24, 8) == 192
  {
    hide Row;
    RowProduct(64, 64);
    RowProduct(32, 32);
    RowProduct(16, 16);
    RowProduct(96, 32);
    RowProduct(48, 16);
    RowProduct(24, 8);
  }

  /** Two sequences laid end to end that keep the first n values and take new ones from there on. */
  function Tail(s: seq<sint16>, n: nat, t: seq<sint16>): seq<sint16>
    requires n <= |s|
  {
    s[..n] + t
  }

  function EncodedLevel(s: seq<sint16>, off: nat, W: nat): (e: seq<sint16>)
    requires W > 0 && off + Size(W) == |s|
    ensures |e| == |s|
  {
    Tail(s, off, EncodedBlock(s[off..], W))
  }

  function DecodedLevel(s: seq<sint16>, off: nat, W: nat): (d: seq<sint16>)
    requires W > 0 && off + Size(W) == |s|
    ensures |d| == |s|
  {
    Tail(s, off, DecodedBlock(s[off..], W))
  }

  function EncodedTile(s: seq<sint16>): (e: seq<sint16>)
    requires |s| == TILE
    ensures |e| == TILE
  {
    LevelSizes();
    EncodedLevel(EncodedLevel(EncodedLevel(s, 0, 32), 3072, 16), 3840, 8)
  }

  function DecodedTile(e: seq<sint16>): (s: seq<sint16>)
    requires |e| == TILE
    ensures |s| == TILE
  {
    LevelSizes();
    DecodedLevel(DecodedLevel(DecodedLevel(e, 3840, 8), 3072, 16), 0, 32)
  }

  // ---------- Drivers ----------

  lemma LevelIs(was: seq<sint16>, off: nat, W: nat)
    requires W > 0 && off + Size(W) == |was|
    ensures was[..off] + EncodedBlock(was[off..off + Size(W)], W) + was[off + Size(W)..] == EncodedLevel(was, off, W)
    ensures was[..off] + DecodedBlock(was[off..off + Size(W)], W) + was[off + Size(W)..] == DecodedLevel(was, off, W)
  {
    hide EncodedBlock, DecodedBlock, Size;
    assert was[off..off + Size(W)] == was[off..];
    assert was[off + Size(W)..] == [];
  }

  method Encode(buffer: array<sint16>, dwt: array<sint16>)
    requires buffer.Length == TILE && dwt.Length == TILE && buffer != dwt
    modifies buffer, dwt
    ensures buffer[..] == EncodedTile(old(buffer[..]))
  {
    hide EncodedBlock, Size, EncodedLevel, DecodedLevel;
    LevelSizes();
    LevelIs(buffer[..], 0, 32);
    Dwt.EncodeBlock(buffer, 0, dwt, 32);
    LevelIs(buffer[..], 3072, 16);
    Dwt.EncodeBlock(buffer, 3072, dwt, 16);
    LevelIs(buffer[..], 3840, 8);
    Dwt.EncodeBlock(buffer, 3840, dwt, 8);
  }

  method Decode(buffer: array<sint16>, idwt: array<sint16>)
    requires buffer.Length == TILE && idwt.Length == TILE && buffer != idwt
    modifies buffer, idwt
    ensures buffer[..] == DecodedTile(old(buffer[..]))
  {
    hide DecodedBlock, Size, EncodedLevel, DecodedLevel;
    LevelSizes();
    LevelIs(buffer[..], 3840, 8);
    Dwt.DecodeBlock(buffer, 3840, idwt, 8);
    LevelIs(buffer[..], 3072, 16);
    Dwt.DecodeBlock(buffer, 3072, idwt, 16);
    LevelIs(buffer[..], 0, 32);
    Dwt.DecodeBlock(buffer, 0, idwt, 32);
  }

  /** The blocks that the SSE2 drivers meet have sums that fit. */
  ghost predicate TileEncodeSumsFit(s: seq<sint16>)
    requires |s| == TILE
  {
    LevelSizes();
    var s1 := EncodedLevel(s, 0, 32);
    var s2 := EncodedLevel(s1, 3072, 16);
    Sse2.EncodeSumsFit(s[0..], 32) && Sse2.EncodeSumsFit(s1[3072..], 16) && Sse2.EncodeSumsFit(s2[3840..], 8)
  }

  ghost predicate TileDecodeSumsFit(e: seq<sint16>)
    requires |e| == TILE
  {
    LevelSizes();
    var e1 := DecodedLevel(e, 3840, 8);
    var e2 := DecodedLevel(e1, 3072, 16);
    Sse2.DecodeSumsFit(e[3840..], 8) && Sse2.DecodeSumsFit(e1[3072..], 16) && Sse2.DecodeSumsFit(e2[0..], 32)
  }

  method EncodeSse2(buffer: array<sint16>, dwt: array<sint16>, junk: sint16)
    requires buffer.Length == TILE && dwt.Length == TILE && buffer != dwt && TileEncodeSumsFit(buffer[..])
    modifies buffer, dwt
    ensures buffer[..] == EncodedTile(old(buffer[..]))
  {
    hide EncodedBlock, Size, EncodedLevel, DecodedLevel, Sse2.EncodeSumsFit;
    LevelSizes();
    assert buffer[0..] == buffer[..][0..] == buffer[0..4096];
    LevelIs(buffer[..], 0, 32);
    Sse2.EncodeBlock(buffer, 0, dwt, 32, junk);
    assert buffer[..][3072..] == buffer[3072..4096];
    LevelIs(buffer[..], 3072, 16);
    Sse2.EncodeBlock(buffer, 3072, dwt, 16, junk);
    assert buffer[..][3840..] == buffer[3840..4096];
    LevelIs(buffer[..], 3840, 8);
    Sse2.EncodeBlock(buffer, 3840, dwt, 8, junk);
  }

  method DecodeSse2(buffer: array<sint16>, idwt: array<sint16>, junk: sint16)
    requires buffer.Length == TILE && idwt.Length == TILE && buffer != idwt && TileDecodeSumsFit(buffer[..])
    modifies buffer, idwt
    ensures buffer[..] == DecodedTile(old(buffer[..]))
  {
    hide DecodedBlock, Size, EncodedLevel, DecodedLevel, Sse2.DecodeSumsFit;
    LevelSizes();
    assert buffer[..][3840..] == buffer[3840..4096];
    LevelIs(buffer[..], 3840, 8);
    Sse2.DecodeBlock(buffer, 3840, idwt, 8, junk);
    assert buffer[..][3072..] == buffer[3072..4096];
    LevelIs(buffer[..], 3072, 16);
    Sse2.DecodeBlock(buffer, 3072, idwt, 16, junk);
    assert buffer[..][0..] == buffer[0..4096];
    LevelIs(buffer[..], 0, 32);
    Sse2.DecodeBlock(buffer, 0, idwt, 32, junk);
  }
}

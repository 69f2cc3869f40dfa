/**
 NSCodec colour recovery ([MS-RDPNSC]): chroma bytes that lost their low bits are shifted back up, which makes them
 nine bits wide. The ninth bits are packed into an area behind the plane; the colour conversion reads them from there
 and clamps the result to bytes.
 */
module Nsc {
  import opened Bits

  /** The number of bytes that hold one bit for each of n values. */
  function AreaSize(n: nat): nat {
    (n + 7) / 8
  }

  /** v & (0x80 >> k), as a truth value. */
  function TopBit(v: byte, k: nat): bool
    requires k < 8
  {
    BitsOf(v, 8)[k]
  }

  /** v | (0x80 >> k) */
  function WithTopBit(v: byte, k: nat): (r: byte)
    requires k < 8
    ensures BitsOf(r, 8) == BitsOf(v, 8)[k := true]
  {
    var b := BitsOf(v, 8)[k := true];
    NatBound(b);
    BitsOfNatOf(b);
    assert Pow2(8) == 0x100;
    NatOf(b)
  }

  /** The low eight bits of v << level. */
  function Shifted(v: byte, level: nat): (r: byte) {
    assert Pow2(8) == 0x100;
    ShlNat(v, level);
    Low(Shl(v, level), 8)
  }

  /** A chroma value: v << level, taken as a signed number of nine bits. */
  function Chroma(v: byte, level: nat): int {
    ShlNat(v, level);
    var nine := Low(Shl(v, level), 9);
    if nine < 256 then nine else nine - 512
  }

  /** The bit area behind a plane of n bytes. */
  ghost function Area(plane: array<byte>, n: nat): (r: seq<bool>)
    requires n + AreaSize(n) <= plane.Length
    reads plane
    ensures |r| == 8 * AreaSize(n) >= n
  {
    BytesBits(plane[n..n + AreaSize(n)])
  }

  // ---------- Nine bits ----------

  /** The low nine bits of v << level are the ninth bit, taken from v, and the byte that stays in the plane. */
  lemma NineBits(v: byte, level: nat)
    requires 1 <= level <= 7
    ensures Shl(v, level) >= 0
    ensures BitsOf(Shl(v, level), 9) == [TopBit(v, level - 1)] + BitsOf(Shl(v, level), 8)
  {
    ShlNat(v, level);
    var x := Shl(v, level);
    assert Pow2(0) == 1;
    BitsJoin(v, 0, 8, level);
    BitsSplit(x, level - 1, 9);
    BitsSplit(x, level, 8);
    var all := BitsOf(x, 8 + level);
    assert all[level - 1..] == BitsOf(x, 9) && all[level..] == BitsOf(x, 8);
    assert all[level - 1] == BitsOf(v, 8)[level - 1];
  }

  /** What the reader makes of a plane byte and its ninth bit is the signed nine-bit value. */
  lemma ReadBack(v: byte, level: nat)
    requires 1 <= level <= 7
    ensures NinthOff(Shifted(v, level), TopBit(v, level - 1)) == Chroma(v, level)
  {
    ShlNat(v, level);
    NineBits(v, level);
    var x := Shl(v, level);
    var sign := [TopBit(v, level - 1)];
    NatOfBitsOf(x, 8);
    NatOfBitsOf(x, 9);
    NatConcat(sign, BitsOf(x, 8));
    assert NatOf(sign) == if sign[0] then 1 else 0;
    PowShl(8);
    assert Pow2(8) == 0x100;
    assert Shl(0, 8) == 0;
  }

  /** The chroma value is the one number of nine signed bits that agrees with v * 2^level modulo 512. */
  lemma ChromaMeans(v: byte, level: nat)
    ensures Nine(Chroma(v, level)) && (Shl(v, level) - Chroma(v, level)) % 512 == 0
  {
    hide Shl, Shr, Low, Pow2;
    ShlNat(v, level);
    var x := Shl(v, level);
    ShrLow(x, 9);
    var k := Shr(x, 9);
    NinePow();
    Shl9(k);
    var nine := Low(x, 9);
    assert x == 512 * k + nine;
    assert x - Chroma(v, level) == 512 * (if nine < 256 then k else k + 1);
  }

  lemma NinePow()
    ensures Pow2(9) == 512
  {
    assert Pow2(8) == 256;
  }

  lemma Shl9(k: nat)
    ensures Shl(k, 9) == 512 * k
  {
    assert Shl(k, 9) == 4 * Shl(k, 7) == 16 * Shl(k, 5) == 64 * Shl(k, 3) == 256 * Shl(k, 1);
  }

  /** The byte, with 256 taken off when the ninth bit is set. */
  function NinthOff(low: byte, sign: bool): int {
    low - if sign then 256 else 0
  }

  // ---------- Packing ----------

  /** Sets the bit of value i in the area when the value has a ninth bit. */
  method SetNinth(plane: array<byte>, n: nat, i: nat, sign: bool)
    requires i < n && n + AreaSize(n) <= plane.Length
    modifies plane
    ensures plane[..n] == old(plane[..n]) && plane[n + AreaSize(n)..] == old(plane[n + AreaSize(n)..])
    ensures Area(plane, n) == if sign then old(Area(plane, n))[i := true] else old(Area(plane, n))
  {
    hide BitsOf, BytesBits;
    if sign {
      var p := n + i / 8;
      ghost var area := plane[n..n + AreaSize(n)];
      var v := WithTopBit(plane[p], i % 8);
      SetInArea(area, i, v);
      plane[p] := v;
      assert plane[n..n + AreaSize(n)] == area[i / 8 := v];
    }
  }

  lemma SetInArea(area: seq<byte>, i: nat, v: byte)
    requires i < 8 * |area| && BitsOf(v, 8) == BitsOf(area[i / 8], 8)[i % 8 := true]
    ensures BytesBits(area[i / 8 := v]) == BytesBits(area)[i := true]
  {
    hide BitsOf, BytesBits;
    var k := i / 8;
    BytesBitsUpdate(area, k, v);
    BytesBitsAt(area, k);
    var bits := BytesBits(area);
    assert bits == bits[..8 * k] + BitsOf(area[k], 8) + bits[8 * k + 8..];
    assert i == 8 * k + i % 8;
  }

  /** Shifts every byte of a plane up and keeps its ninth bit in the area behind the plane. */
  method ClExpand(plane: array<byte>, level: nat, n: nat)
    requires 1 <= level <= 7 && n >= 1 && n + AreaSize(n) <= plane.Length
    modifies plane
    ensures forall i :: 0 <= i < n ==> plane[i] == Shifted(old(plane[i]), level)
    ensures forall i :: 0 <= i < n ==> Area(plane, n)[i] == (old(Area(plane, n)[i]) || TopBit(old(plane[i]), level - 1))
    ensures plane[n + AreaSize(n)..] == old(plane[n + AreaSize(n)..])
  {
    hide Shifted, TopBit, Area, BytesBits;
    ghost var was := plane[..];
    ghost var bits := Area(plane, n);
    var p := 0;
    while true
      invariant 0 <= p < n
      invariant forall i :: 0 <= i < p ==> plane[i] == Shifted(was[i], level)
      invariant forall i :: p <= i < n ==> plane[i] == was[i]
      invariant forall i :: 0 <= i < p ==> Area(plane, n)[i] == (bits[i] || TopBit(was[i], level - 1))
      invariant forall i :: p <= i < n ==> Area(plane, n)[i] == bits[i]
      invariant plane[n + AreaSize(n)..] == was[n + AreaSize(n)..]
      decreases n - p
    {
      var sign := TopBit(plane[p], level - 1);
      StoreShifted(plane, n, p, level);
      ghost var mid := plane[..n];
      SetNinth(plane, n, p, sign);
      assert forall i :: 0 <= i < n ==> plane[i] == mid[i] by { assert plane[..n] == mid; }
      p := p + 1;
      if p >= n {
        break;
      }
    }
  }

  method StoreShifted(plane: array<byte>, n: nat, p: nat, level: nat)
    requires p < n && n + AreaSize(n) <= plane.Length
    modifies plane
    ensures plane[p] == Shifted(old(plane[p]), level)
    ensures forall i :: 0 <= i < plane.Length && i != p ==> plane[i] == old(plane[i])
    ensures Area(plane, n) == old(Area(plane, n))
    ensures plane[n + AreaSize(n)..] == old(plane[n + AreaSize(n)..])
  {
    hide Shifted, BytesBits;
    ghost var area := plane[n..n + AreaSize(n)];
    plane[p] := Shifted(plane[p], level);
    assert plane[n..n + AreaSize(n)] == area;
  }

  // ---------- Colour conversion ----------

  function Clamp(v: int): byte {
    if v < 0 then 0 else if v > 255 then 255 else v
  }

  /** The source's test on the high byte of a 16-bit value. */
  function HighByteTest(v: int): byte {
    var high := (v / 256) % 256;
    if high == 0xFF then 0 else if high == 1 then 0xFF else v % 256
  }

  lemma HighByteTestClamps(v: int)
    requires -256 <= v < 512
    ensures HighByteTest(v) == Clamp(v)
  {
  }

  datatype Rgb = Rgb(r: int, g: int, b: int)

  /** YCoCg to RGB before clamping; the halves round down. */
  function Convert(y: int, co: int, cg: int): Rgb {
    Rgb(y + co / 2 - cg / 2, y + cg / 2, y - co / 2 - cg / 2)
  }

  /**
   The three values before clamping determine their source: red and blue differ by twice the halved orange chroma,
   green stands out from both by twice the halved green chroma, and luma is green less the latter.
   */
  lemma ConvertMeans(y: int, co: int, cg: int)
    ensures var c := Convert(y, co, cg);
      c.r - c.b == 2 * (co / 2) && 2 * c.g - c.r - c.b == 4 * (cg / 2) && c.g - y == cg / 2
  {
  }

  /** No byte is nearer to a value than its clamped form. */
  lemma ClampNearest(v: int, b: byte)
    ensures Distance(Clamp(v), v) <= Distance(b, v) && (Distance(Clamp(v), v) == Distance(b, v) ==> Clamp(v) == b)
  {
  }

  function Distance(a: int, b: int): nat {
    if a < b then b - a else a - b
  }

  predicate Nine(v: int) {
    -256 <= v < 256
  }

  /** From a byte of luma and two nine-bit chroma values, the high-byte test always amounts to clamping. */
  lemma ConvertRange(y: byte, co: int, cg: int)
    requires Nine(co) && Nine(cg)
    ensures var c := Convert(y, co, cg);
      HighByteTest(c.r) == Clamp(c.r) && HighByteTest(c.g) == Clamp(c.g) && HighByteTest(c.b) == Clamp(c.b)
  {
    var c := Convert(y, co, cg);
    HighByteTestClamps(c.r);
    HighByteTestClamps(c.g);
    HighByteTestClamps(c.b);
  }

  /** The sign bit of value i, read from the area. */
  method GetNinth(plane: array<byte>, n: nat, i: nat) returns (sign: bool)
    requires i < n && n + AreaSize(n) <= plane.Length
    ensures sign == Area(plane, n)[i]
  {
    hide BitsOf, BytesBits;
    ghost var area := plane[n..n + AreaSize(n)];
    sign := TopBit(plane[n + i / 8], i % 8);
    BytesBitsAt(area, i / 8);
    assert i == 8 * (i / 8) + i % 8;
    assert BytesBits(area)[8 * (i / 8)..8 * (i / 8) + 8][i % 8] == BytesBits(area)[i];
  }

  /** The chroma value of place i, from its byte and its ninth bit. */
  ghost function ChromaAt(plane: array<byte>, n: nat, i: nat): int
    requires i < n && n + AreaSize(n) <= plane.Length
    reads plane
  {
    NinthOff(plane[i], Area(plane, n)[i])
  }

  /** Converts three planes of n bytes in place: red over luma, green over orange chroma, blue over green chroma. */
  method YcocgRgb(y: array<byte>, co: array<byte>, cg: array<byte>, n: nat)
    requires n >= 1 && y.Length >= n && n + AreaSize(n) <= co.Length && n + AreaSize(n) <= cg.Length
    requires y != co && y != cg && co != cg
    modifies y, co, cg
    ensures forall i :: 0 <= i < n ==>
      var c := Convert(old(y[i]), old(ChromaAt(co, n, i)), old(ChromaAt(cg, n, i)));
      y[i] == Clamp(c.r) && co[i] == Clamp(c.g) && cg[i] == Clamp(c.b)
  {
    hide Area, Clamp, HighByteTest, Convert;
    ghost var cs := seq(n, i requires 0 <= i < n => Convert(old(y[i]), old(ChromaAt(co, n, i)), old(ChromaAt(cg, n, i))));
    var size := n;
    while true
      invariant 0 < size <= n
      invariant forall i :: 0 <= i < n - size ==> y[i] == Clamp(cs[i].r) && co[i] == Clamp(cs[i].g) && cg[i] == Clamp(cs[i].b)
      invariant forall i :: n - size <= i < n ==> y[i] == old(y[i]) && co[i] == old(co[i]) && cg[i] == old(cg[i])
      invariant Area(co, n) == old(Area(co, n)) && Area(cg, n) == old(Area(cg, n))
      decreases size
    {
      var i := n - size;
      Pixel(y, co, cg, n, i);
      size := size - 1;
      if size == 0 {
        break;
      }
    }
  }

  method Pixel(y: array<byte>, co: array<byte>, cg: array<byte>, n: nat, i: nat)
    requires i < n && y.Length >= n && n + AreaSize(n) <= co.Length && n + AreaSize(n) <= cg.Length
    requires y != co && y != cg && co != cg
    modifies y, co, cg
    ensures var c := Convert(old(y[i]), old(ChromaAt(co, n, i)), old(ChromaAt(cg, n, i)));
      y[i] == Clamp(c.r) && co[i] == Clamp(c.g) && cg[i] == Clamp(c.b)
    ensures forall j :: 0 <= j < n && j != i ==> y[j] == old(y[j]) && co[j] == old(co[j]) && cg[j] == old(cg[j])
    ensures Area(co, n) == old(Area(co, n)) && Area(cg, n) == old(Area(cg, n))
  {
    hide BytesBits, Clamp, HighByteTest;
    var coSign := GetNinth(co, n, i);
    var cgSign := GetNinth(cg, n, i);
    var o, g: int := NinthOff(co[i], coSign), NinthOff(cg[i], cgSign);
    ConvertRange(y[i], o, g);
    var c := Convert(y[i], o, g);
    ghost var coArea, cgArea := co[n..n + AreaSize(n)], cg[n..n + AreaSize(n)];
    y[i] := HighByteTest(c.r);
    co[i] := HighByteTest(c.g);
    cg[i] := HighByteTest(c.b);
    assert co[n..n + AreaSize(n)] == coArea && cg[n..n + AreaSize(n)] == cgArea;
  }

  // ---------- Both together ----------

  ghost predicate Clear(bits: seq<bool>) {
    forall i :: 0 <= i < |bits| ==> !bits[i]
  }

  /**
   Colour recovery of a whole image: with clear bit areas, every pixel is the clamped conversion of its luma and of
   its two chroma bytes, each read as the signed nine-bit value of the byte shifted up by the colour-loss level.
   */
  method Recover(y: array<byte>, co: array<byte>, cg: array<byte>, n: nat, level: nat)
    requires 1 <= level <= 7 && n >= 1
    requires y.Length >= n && n + AreaSize(n) <= co.Length && n + AreaSize(n) <= cg.Length
    requires y != co && y != cg && co != cg && Clear(Area(co, n)) && Clear(Area(cg, n))
    modifies y, co, cg
    ensures forall i :: 0 <= i < n ==>
      var c := Convert(old(y[i]), Chroma(old(co[i]), level), Chroma(old(cg[i]), level));
      y[i] == Clamp(c.r) && co[i] == Clamp(c.g) && cg[i] == Clamp(c.b)
  {
    hide Area, Clamp, Convert, Chroma, Shifted, TopBit;
    ClExpand(co, level, n);
    ClExpand(cg, level, n);
    forall i | 0 <= i < n
      ensures ChromaAt(co, n, i) == Chroma(old(co[i]), level)
      ensures ChromaAt(cg, n, i) == Chroma(old(cg[i]), level)
    {
      ReadBack(old(co[i]), level);
      ReadBack(old(cg[i]), level);
    }
    YcocgRgb(y, co, cg, n);
  }
}

/**
 The adaptive run-length / Golomb-Rice code of RemoteFX (RLGR1 and RLGR3), on bit sequences.

 One symbol is what a single turn of the encoder or decoder loop handles. Both sides carry the adaptive
 parameters kp and krp; k is kp >> 3 and kr is krp >> 3.
 */
module RlgrSpec {
  import opened Bits

  datatype Mode = RLGR1 | RLGR3

  const KP_MAX := 80
  const UP_GR := 4
  const DN_GR := 6
  const UQ_GR := 3
  const DQ_GR := 3

  type Param = x: int | 0 <= x <= KP_MAX

  function Update(p: int, delta: int): Param {
    if p + delta > KP_MAX then KP_MAX else if p + delta < 0 then 0 else p + delta
  }

  /** The least number of bits that represent v. */
  function MinBits(v: nat): nat {
    if v == 0 then 0 else 1 + MinBits(v / 2)
  }

  lemma {:induction false} MinBitsAtMost(v: nat, n: nat)
    requires v < Pow2(n)
    ensures MinBits(v) <= n
  {
    if v > 0 {
      MinBitsAtMost(v / 2, n - 1);
    }
  }

  /** Twice the magnitude, minus one for a negative number. */
  function TwoMs(v: sint16): (r: nat)
    ensures r <= 0xFFFF
  {
    if v >= 0 then 2 * v else -2 * v - 1
  }

  /** The inverse of TwoMs as the decoder computes it, on unsigned 32-bit numbers. */
  function FromTwoMs(t: nat): sint16 {
    if t % 2 == 1 then Wrap16(-(Wrap16((t + 1) % 0x1_0000_0000 / 2) as int)) else Wrap16(t / 2)
  }

  function ZeroValues(n: nat): (r: seq<sint16>)
    ensures |r| == n
  {
    seq(n, _ => 0)
  }

  // ---------- Golomb-Rice codes ----------

  function GrCode(krp: Param, val: nat): seq<bool> {
    Ones(Shr(val, krp / 8)) + [false] + BitsOf(Low(val, krp / 8), krp / 8)
  }

  function GrNext(krp: Param, vk: nat): Param {
    if vk == 0 then Update(krp, -2) else if vk == 1 then krp else Update(krp, vk)
  }

  datatype Gr = Gr(mag: nat, vk: nat, rest: seq<bool>)

  /** Reads one Golomb-Rice code; past the end of the stream every bit reads as absent. */
  function ReadGr(b: seq<bool>, krp: Param): (g: Gr)
    ensures |g.rest| <= |b| && (b != [] ==> |g.rest| < |b|)
    ensures g.mag < 0x1_0000
  {
    var vk := LeadingOnes(b);
    var tail := Drop(b, vk + 1);
    Gr((NatOf(Take(tail, krp / 8)) + Shl(vk, krp / 8)) % 0x1_0000, vk, Drop(tail, krp / 8))
  }

  // ---------- Runs of zeros ----------

  /** The number of zeros collected before the value that ends a run; the last value always ends it. */
  function ZeroRun(data: seq<sint16>): (z: nat)
    requires data != []
    ensures z < |data| && data[..z] == ZeroValues(z)
    ensures data[z] != 0 || z == |data| - 1
  {
    if |data| == 1 || data[0] != 0 then 0 else
      var z := 1 + ZeroRun(data[1..]);
      assert data[..z] == [data[0]] + data[1..][..z - 1];
      z
  }

  function RunCode(kp: Param, z: nat): seq<bool>
    decreases z
  {
    if z >= Pow2(kp / 8) then [false] + RunCode(Update(kp, UP_GR), z - Pow2(kp / 8))
    else [true] + BitsOf(z, kp / 8)
  }

  function RunNext(kp: Param, z: nat): Param
    decreases z
  {
    if z >= Pow2(kp / 8) then RunNext(Update(kp, UP_GR), z - Pow2(kp / 8)) else kp
  }

  datatype Run = Run(zeros: nat, kp: Param, rest: seq<bool>)

  function ReadRun(b: seq<bool>, kp: Param): (r: Run)
    ensures |r.rest| <= |b| && (b != [] ==> |r.rest| < |b|)
    decreases |b|
  {
    if b == [] then Run(0, kp, [])
    else if b[0] then Run(NatOf(Take(b[1..], kp / 8)), kp, Drop(b[1..], kp / 8))
    else
      var r := ReadRun(b[1..], Update(kp, UP_GR));
      Run(Pow2(kp / 8) + r.zeros, r.kp, r.rest)
  }

  // ---------- Symbols ----------

  datatype Encoded = Encoded(code: seq<bool>, used: nat, kp: Param, krp: Param)

  function Abs(v: int): nat {
    if v < 0 then -v else v
  }

  /** What the run-length branch codes for the value that ends a run. */
  function RunMag(v: sint16): nat {
    if v == 0 then 0 else Abs(v) - 1
  }

  function EncodeRun(data: seq<sint16>, kp: Param, krp: Param): Encoded
    requires data != []
  {
    var z := ZeroRun(data);
    var mag := RunMag(data[z]);
    Encoded(RunCode(kp, z) + ([data[z] < 0] + GrCode(krp, mag)), z + 1,
            Update(RunNext(kp, z), -DN_GR), GrNext(krp, Shr(mag, krp / 8)))
  }

  function EncodeOne(data: seq<sint16>, kp: Param, krp: Param): Encoded
    requires data != []
  {
    var t := TwoMs(data[0]);
    Encoded(GrCode(krp, t), 1, Update(kp, if t != 0 then -DQ_GR else UQ_GR), GrNext(krp, Shr(t, krp / 8)))
  }

  /** The second value of a pair; the encoder reads zero past the end of its input. */
  function Second(data: seq<sint16>): sint16 {
    if |data| > 1 then data[1] else 0
  }

  function PairKp(kp: Param, t1: nat, t2: nat): Param {
    if t1 != 0 && t2 != 0 then Update(kp, -2 * DQ_GR)
    else if t1 == 0 && t2 == 0 then Update(kp, 2 * UQ_GR)
    else kp
  }

  function EncodePair(data: seq<sint16>, kp: Param, krp: Param): Encoded
    requires data != []
  {
    var t1, t2 := TwoMs(data[0]), TwoMs(Second(data));
    Encoded(GrCode(krp, t1 + t2) + BitsOf(t1, MinBits(t1 + t2)), Min(2, |data|),
            PairKp(kp, t1, t2), GrNext(krp, Shr(t1 + t2, krp / 8)))
  }

  function EncodeSymbol(mode: Mode, data: seq<sint16>, kp: Param, krp: Param): (e: Encoded)
    requires data != []
    ensures 1 <= e.used <= |data|
  {
    if kp / 8 > 0 then EncodeRun(data, kp, krp)
    else if mode == RLGR1 then EncodeOne(data, kp, krp)
    else EncodePair(data, kp, krp)
  }

  /** The bits the encoder emits for data, from given parameters. */
  function EncodeFrom(mode: Mode, data: seq<sint16>, kp: Param, krp: Param): seq<bool>
    decreases |data|
  {
    if data == [] then [] else
      var e := EncodeSymbol(mode, data, kp, krp);
      e.code + EncodeFrom(mode, data[e.used..], e.kp, e.krp)
  }

  datatype Decoded = Decoded(values: seq<sint16>, kp: Param, krp: Param, rest: seq<bool>)

  function DecodeRun(b: seq<bool>, kp: Param, krp: Param): Decoded {
    var run := ReadRun(b, kp);
    var sign := run.rest != [] && run.rest[0];
    var g := ReadGr(Drop(run.rest, 1), krp);
    Decoded(ZeroValues(run.zeros) + [Wrap16(if sign then -(g.mag + 1) else g.mag + 1)],
            Update(run.kp, -DN_GR), GrNext(krp, g.vk), g.rest)
  }

  function DecodeOne(b: seq<bool>, kp: Param, krp: Param): Decoded {
    var g := ReadGr(b, krp);
    Decoded([if g.mag == 0 then 0 else FromTwoMs(g.mag)],
            Update(kp, if g.mag == 0 then UQ_GR else -DQ_GR), GrNext(krp, g.vk), g.rest)
  }

  function DecodePair(b: seq<bool>, kp: Param, krp: Param): Decoded {
    var g := ReadGr(b, krp);
    var val1 := NatOf(Take(g.rest, MinBits(g.mag)));
    var val2 := (g.mag - val1) % 0x1_0000_0000;
    Decoded([FromTwoMs(val1), FromTwoMs(val2)],
            PairKp(kp, val1, val2), GrNext(krp, g.vk), Drop(g.rest, MinBits(g.mag)))
  }

  function DecodeSymbol(mode: Mode, b: seq<bool>, kp: Param, krp: Param): (d: Decoded)
    requires b != []
    ensures |d.rest| < |b|
  {
    if kp / 8 > 0 then DecodeRun(b, kp, krp)
    else if mode == RLGR1 then DecodeOne(b, kp, krp)
    else DecodePair(b, kp, krp)
  }

  /** Every value the stream holds, were the output buffer unbounded. */
  function DecodeFrom(mode: Mode, b: seq<bool>, kp: Param, krp: Param): seq<sint16>
    decreases |b|
  {
    if b == [] then [] else
      var d := DecodeSymbol(mode, b, kp, krp);
      d.values + DecodeFrom(mode, d.rest, d.kp, d.krp)
  }

  lemma DecodeFromStep(mode: Mode, b: seq<bool>, kp: Param, krp: Param)
    requires b != []
    ensures var d := DecodeSymbol(mode, b, kp, krp);
      DecodeFrom(mode, b, kp, krp) == d.values + DecodeFrom(mode, d.rest, d.kp, d.krp)
  {
    hide DecodeSymbol;
  }

  /** Both sides start with k = kr = 1. */
  function Encode(mode: Mode, data: seq<sint16>): seq<bool> {
    EncodeFrom(mode, data, 8, 8)
  }

  function Decode(mode: Mode, bytes: seq<byte>, room: nat): (r: seq<sint16>)
    ensures |r| <= room
  {
    Take(DecodeFrom(mode, BytesBits(bytes), 8, 8), room)
  }
}

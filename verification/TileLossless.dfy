/** The lossless half of a tile component: differential coding of the LL3 band, then RLGR, and back. */
module TileLossless {
  import opened Bits
  import opened Grid
  import opened RlgrSpec
  import opened RlgrRoundTrip
  import Differential

  const LL3 := 4032

  /** The coefficients as the entropy coder sees them. */
  function Prepared(t: seq<sint16>): (d: seq<sint16>)
    requires |t| == TILE
    ensures |d| == TILE
  {
    t[..LL3] + Differential.Differences(t[LL3..])
  }

  function Recovered(d: seq<sint16>): (t: seq<sint16>)
    requires |d| == TILE
    ensures |t| == TILE
  {
    d[..LL3] + Differential.Sums(d[LL3..])
  }

  /** Only the 63 last coefficients change: each gives way to its difference from the one before, modulo 2^16. */
  lemma PreparedAt(t: seq<sint16>, i: nat)
    requires |t| == TILE && i < TILE
    ensures i <= 4032 ==> Prepared(t)[i] == t[i]
    ensures i > 4032 ==> (t[i] as int - t[i - 1] as int - Prepared(t)[i] as int) % 0x1_0000 == 0
  {
    hide Differential.Differences;
    if i >= LL3 {
      Differential.DifferencesAt(t[LL3..], i - LL3);
    }
  }

  lemma RecoveredPrepared(t: seq<sint16>)
    requires |t| == TILE
    ensures Recovered(Prepared(t)) == t
  {
    var d := Prepared(t);
    assert d[..LL3] == t[..LL3] && d[LL3..] == Differential.Differences(t[LL3..]);
    Differential.SumsOfDifferences(t[LL3..]);
  }

  lemma PreparedRecovered(d: seq<sint16>)
    requires |d| == TILE
    ensures Prepared(Recovered(d)) == d
  {
    var t := Recovered(d);
    assert t[..LL3] == d[..LL3] && t[LL3..] == Differential.Sums(d[LL3..]);
    Differential.DifferencesOfSums(d[LL3..]);
  }

  /** Raising a final zero difference to one raises the last coefficient by one. */
  lemma RecoveredLastRaised(t: seq<sint16>)
    requires |t| == TILE && Prepared(t)[TILE - 1] == 0
    ensures Recovered(Prepared(t)[..TILE - 1] + [1]) == t[..TILE - 1] + [Add16(t[TILE - 1], 1)]
  {
    hide Differential.Sums, Differential.Differences;
    var d := Prepared(t);
    var e := d[..TILE - 1] + [1];
    var ll, n := t[LL3..], 63;
    var diff := Differential.Differences(ll);
    assert d[LL3..] == diff && d[..LL3] == t[..LL3];
    assert e[LL3..] == diff[..n] + [1] && e[..LL3] == t[..LL3];
    LastDifference(ll);
    assert Recovered(e) == t[..LL3] + (ll[..n] + [Add16(ll[n], 1)]);
    assert t[..TILE - 1] == t[..LL3] + ll[..n];
  }

  lemma LastDifference(ll: seq<sint16>)
    requires |ll| == 64 && Differential.Differences(ll)[63] == 0
    ensures Differential.Sums(Differential.Differences(ll)[..63] + [1]) == ll[..63] + [Add16(ll[63], 1)]
  {
    var diff := Differential.Differences(ll);
    var e := diff[..63] + [1];
    Differential.SumsOfDifferences(ll);
    Differential.SumsPrefix(diff, 63);
    assert e[..63] == diff[..63];
    Differential.WrapDifference(ll[62], ll[63]);
  }

  /** The tile the decoder makes of an encoded tile. */
  function Decoded(mode: Mode, bytes: seq<byte>, stale: seq<sint16>): seq<sint16>
    requires |stale| == TILE
  {
    var v := Decode(mode, bytes, TILE);
    Recovered(v + stale[|v|..])
  }

  /**
   Every quantised tile is restored exactly when its coded pairs fit 16 bits and its last coefficient is not a
   zero difference coded in run-length mode; in the latter case alone the last LL3 coefficient comes back one larger.
   */
  lemma LosslessTile(mode: Mode, t: seq<sint16>, bytes: seq<byte>, pad: seq<bool>, stale: seq<sint16>)
    requires |t| == TILE && |stale| == TILE
    requires BytesBits(bytes) == Encode(mode, Prepared(t)) + pad
    ensures PairsFit(mode, Prepared(t), 8, 8) ==>
      Decoded(mode, bytes, stale)
      == if EndsInRunZero(mode, Prepared(t), 8, 8) then t[..TILE - 1] + [Add16(t[TILE - 1], 1)] else t
    ensures Decoded(mode, bytes, stale) == t
        <==> PairsFit(mode, Prepared(t), 8, 8) && !EndsInRunZero(mode, Prepared(t), 8, 8)
  {
    hide PairsFit, EndsInRunZero, Differential.Sums, Differential.Differences, BytesBits, Encode, Decode;
    var d := Prepared(t);
    RoundTrip(mode, d, bytes, pad);
    var v := Decode(mode, bytes, TILE);
    if PairsFit(mode, d, 8, 8) {
      assert v + stale[|v|..] == v;
      if EndsInRunZero(mode, d, 8, 8) {
        EndsInZero(mode, d);
        RecoveredLastRaised(t);
        assert Decoded(mode, bytes, stale)[TILE - 1] != t[TILE - 1];
      } else {
        RecoveredPrepared(t);
      }
    } else {
      var p :| 0 <= p < TILE && p < |v| && v[p] != d[p];
      assert (v + stale[|v|..])[p] != d[p];
      if Decoded(mode, bytes, stale) == t {
        PreparedRecovered(v + stale[|v|..]);
      }
    }
  }

  /** Where the code holds too few values, the buffer keeps what it held. */
  lemma ShortDecode(mode: Mode, bytes: seq<byte>, stale: seq<sint16>, i: nat)
    requires |stale| == TILE && i < 4032
    ensures |Decoded(mode, bytes, stale)| == TILE
    ensures var v := Decode(mode, bytes, TILE);
      Decoded(mode, bytes, stale)[i] == if i < |v| then v[i] else stale[i]
  {
    hide Decode, Differential.Sums;
  }

  lemma EndsInZero(mode: Mode, d: seq<sint16>)
    requires EndsInRunZero(mode, d, 8, 8)
    ensures d != [] && d[|d| - 1] == 0
  {
  }
}

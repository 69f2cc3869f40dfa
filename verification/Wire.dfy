/** Little-endian fields of one, two or four bytes, written and read in sequence. */
module Wire {
  import opened Bits

  function Pow256(w: nat): (r: nat)
    ensures r >= 1
  {
    if w == 0 then 1 else 256 * Pow256(w - 1)
  }

  /** The low w bytes of v, the lowest first. */
  function Le(v: nat, w: nat): (r: seq<byte>)
    ensures |r| == w
    decreases w
  {
    if w == 0 then [] else [v % 256] + Le(v / 256, w - 1)
  }

  function UnLe(s: seq<byte>, w: nat): nat
    requires w <= |s|
    decreases w
  {
    if w == 0 then 0 else Digit(s[0], UnLe(s[1..], w - 1))
  }

  function Digit(low: nat, high: nat): nat {
    low + 256 * high
  }

  lemma LeTwo(v: nat)
    ensures Le(v, 2) == [v % 256, v / 256 % 256]
  {
    assert Le(v / 256, 1) == [v / 256 % 256] + Le(v / 256 / 256, 0);
  }

  lemma LeFour(v: nat)
    ensures Le(v, 4) == [v % 256, v / 256 % 256, v / 65536 % 256, v / 16777216 % 256]
  {
    hide Le;
    LeSplit(v);
    LeTwo(v);
    LeTwo(v / 65536);
    assert v / 65536 / 256 == v / 16777216;
  }

  lemma LeSplit(v: nat)
    ensures Le(v, 4) == Le(v, 2) + Le(v / 65536, 2)
  {
    assert v / 256 / 256 == v / 65536;
    var x := Le(v / 65536, 2);
    assert Le(v / 256, 3) == [v / 256 % 256] + x;
    assert Le(v / 256, 1) == [v / 256 % 256] + Le(v / 65536, 0);
  }

  lemma {:induction false} UnLeLe(v: nat, w: nat, rest: seq<byte>)
    requires v < Pow256(w)
    ensures UnLe(Le(v, w) + rest, w) == v
    decreases w
  {
    if w > 0 {
      var s := Le(v, w) + rest;
      assert s[1..] == Le(v / 256, w - 1) + rest;
      UnLeLe(v / 256, w - 1, rest);
    }
  }

  /** The fields of a layout, one after another. */
  function Write(layout: seq<nat>, values: seq<nat>): (r: seq<byte>)
    requires |layout| == |values|
    ensures |r| == Total(layout)
    decreases |layout|
  {
    if layout == [] then [] else Le(values[0], layout[0]) + Write(layout[1..], values[1..])
  }

  function Total(layout: seq<nat>): nat {
    if layout == [] then 0 else layout[0] + Total(layout[1..])
  }

  datatype Parsed = Parsed(values: seq<nat>, rest: seq<byte>)

  /** Reads the fields of a layout. Bytes behind the end read as zero. */
  function Read(layout: seq<nat>, d: seq<byte>): (r: Parsed)
    ensures |r.values| == |layout|
    decreases |layout|
  {
    if layout == [] then Parsed([], d)
    else
      var w := layout[0];
      var v := if w <= |d| then UnLe(d, w) else 0;
      var more := Read(layout[1..], Drop(d, w));
      Parsed([v] + more.values, more.rest)
  }

  predicate Fits(layout: seq<nat>, values: seq<nat>) {
    |layout| == |values| && forall i :: 0 <= i < |layout| ==> values[i] < Pow256(layout[i])
  }

  lemma FitsLength(layout: seq<nat>, values: seq<nat>)
    requires Fits(layout, values)
    ensures |layout| == |values|
  {
  }

  lemma FitsTail(layout: seq<nat>, values: seq<nat>)
    requires Fits(layout, values) && layout != []
    ensures |layout| == |values| && values[0] < Pow256(layout[0]) && Fits(layout[1..], values[1..])
  {
    hide Pow256;
  }

  /** Reading what was written gives the values back and stops just behind them. */
  lemma {:induction false} ReadWrite(layout: seq<nat>, values: seq<nat>, tail: seq<byte>)
    requires Fits(layout, values)
    ensures Read(layout, Write(layout, values) + tail) == Parsed(values, tail)
    decreases |layout|
  {
    hide Pow256, UnLe, Le, Fits, Take, Drop;
    FitsLength(layout, values);
    if layout == [] {
      assert Write(layout, values) + tail == tail;
    } else {
      FitsTail(layout, values);
      var w := layout[0];
      var later := Write(layout[1..], values[1..]);
      var d := Write(layout, values) + tail;
      ConcatAssoc(Le(values[0], w), later, tail);
      UnLeLe(values[0], w, later + tail);
      TakeDropConcat(Le(values[0], w), later + tail);
      ReadWrite(layout[1..], values[1..], tail);
      assert values == [values[0]] + values[1..];
    }
  }
}

/** What the decompressor delivers over whole runs of packets. */
module MppcRuns {
  import opened Bits
  import opened MppcSpec
  import opened MppcInversion
  import opened Mppc

  // ---------- Reported offsets and lengths ----------

  /**
   The reported length is the number of bytes produced exactly when the packet does not flush, or also starts
   at the front, or finds the write position at the front already; otherwise it is short by the write position.
   */
  lemma ReportedLengthExact(flags: Flags, ptr: nat, n: nat)
    requires ptr <= HISTORY && StartOf(flags, ptr) + n <= HISTORY
    ensures ReportedLength(flags, ptr, n) == n <==> !flags.flushed || flags.atFront || ptr == 0
    ensures flags.flushed && !flags.atFront ==> ReportedLength(flags, ptr, n) == if n >= ptr then n - ptr else 0x1_0000_0000 + n - ptr
  {
  }

  /** A flush that is not at the front reports too large a length: here no byte is produced and 2^32 - 1 reported. */
  lemma FlushAloneMisreports()
    ensures ReportedLength(Flags(false, true, false), 1, 0) == 0xFFFF_FFFF
  {
  }

  datatype State = State(history: seq<byte>, ptr: nat)

  datatype Packet = Packet(flags: Flags, cbuf: seq<byte>)

  /** What the caller is told about a packet, and the bytes it then finds in the history. */
  datatype Delivery = Delivery(roff: nat, rlen: nat, bytes: seq<byte>)

  predicate Sound(st: State) {
    |st.history| == HISTORY && st.ptr <= HISTORY
  }

  function Output(form: Form, st: State, p: Packet): seq<byte>
    requires Sound(st)
  {
    OutputOf(form, p.flags, st.history, st.ptr, p.cbuf)
  }

  predicate Fits(form: Form, st: State, p: Packet)
    requires Sound(st)
  {
    StartOf(p.flags, st.ptr) + |Output(form, st, p)| <= HISTORY
  }

  /** The state after a packet, as the decompressor leaves it. */
  function After(form: Form, st: State, p: Packet): (st': State)
    requires Sound(st) && Fits(form, st, p)
    ensures Sound(st')
  {
    var start, out := StartOf(p.flags, st.ptr), Output(form, st, p);
    State(Stored(BaseOf(p.flags, st.history), start, out), start + |out|)
  }

  predicate RunFits(form: Form, st: State, ps: seq<Packet>)
    requires Sound(st)
    decreases |ps|
  {
    ps == [] || (Fits(form, st, ps[0]) && RunFits(form, After(form, st, ps[0]), ps[1..]))
  }

  /** The caller copies rlen bytes from roff on after each packet. */
  function Deliver(form: Form, st: State, p: Packet): Delivery
    requires Sound(st) && Fits(form, st, p)
  {
    var start, out := StartOf(p.flags, st.ptr), Output(form, st, p);
    var rlen, history := ReportedLength(p.flags, st.ptr, |out|), After(form, st, p).history;
    Delivery(start, rlen, if start + rlen <= HISTORY then history[start..start + rlen] else [])
  }

  function Deliveries(form: Form, st: State, ps: seq<Packet>): (ds: seq<Delivery>)
    requires Sound(st) && RunFits(form, st, ps)
    ensures |ds| == |ps|
    decreases |ps|
  {
    if ps == [] then [] else [Deliver(form, st, ps[0])] + Deliveries(form, After(form, st, ps[0]), ps[1..])
  }

  function Outputs(form: Form, st: State, ps: seq<Packet>): (os: seq<seq<byte>>)
    requires Sound(st) && RunFits(form, st, ps)
    ensures |os| == |ps|
    decreases |ps|
  {
    if ps == [] then [] else [Output(form, st, ps[0])] + Outputs(form, After(form, st, ps[0]), ps[1..])
  }

  lemma StoredSlice(history: seq<byte>, ptr: nat, out: seq<byte>)
    requires ptr + |out| <= |history|
    ensures Stored(history, ptr, out)[ptr..ptr + |out|] == out
  {
  }

  /** In every run whose flushes are at the front, each delivery names exactly the bytes its packet produced. */
  lemma {:induction false} RunDelivers(form: Form, st: State, ps: seq<Packet>, i: nat)
    requires Sound(st) && RunFits(form, st, ps) && i < |ps|
    requires forall j :: 0 <= j < |ps| && ps[j].flags.flushed ==> ps[j].flags.atFront
    ensures Deliveries(form, st, ps)[i].bytes == Outputs(form, st, ps)[i]
    ensures Deliveries(form, st, ps)[i].rlen == |Outputs(form, st, ps)[i]|
    decreases i
  {
    hide Output, StartOf, ReportedLength, Stored, BaseOf;
    if i > 0 {
      RunDelivers(form, After(form, st, ps[0]), ps[1..], i - 1);
    } else {
      var p := ps[0];
      ReportedLengthExact(p.flags, st.ptr, |Output(form, st, p)|);
      StoredSlice(BaseOf(p.flags, st.history), StartOf(p.flags, st.ptr), Output(form, st, p));
    }
  }

  method ReceiveOne(form: Form, d: Decompressor, p: Packet) returns (r: Delivery)
    requires d.Valid() && Fits(form, State(d.history[..], d.historyPtr), p)
    modifies d`historyPtr, d.history
    ensures d.Valid() && State(d.history[..], d.historyPtr) == After(form, State(old(d.history[..]), old(d.historyPtr)), p)
    ensures r == Deliver(form, State(old(d.history[..]), old(d.historyPtr)), p)
  {
    hide OutputOf, StartOf, ReportedLength, Stored, BaseOf;
    var roff, rlen := d.Decompress(form, p.cbuf, p.flags);
    r := Delivery(roff, rlen, if roff + rlen <= HISTORY then d.history[roff..roff + rlen] else []);
  }

  /** A receiver that decompresses packet after packet and reads each one's bytes from the history. */
  method Receive(form: Form, d: Decompressor, ps: seq<Packet>) returns (ds: seq<Delivery>)
    requires d.Valid() && RunFits(form, State(d.history[..], d.historyPtr), ps)
    modifies d`historyPtr, d.history
    ensures d.Valid() && ds == Deliveries(form, State(old(d.history[..]), old(d.historyPtr)), ps)
  {
    hide Output, Fits, After, Deliver;
    ds := [];
    ghost var st0 := State(d.history[..], d.historyPtr);
    var i := 0;
    assert ps[0..] == ps;
    while i < |ps|
      invariant i <= |ps| && d.Valid() && RunFits(form, State(d.history[..], d.historyPtr), ps[i..])
      invariant Deliveries(form, st0, ps) == ds + Deliveries(form, State(d.history[..], d.historyPtr), ps[i..])
    {
      ghost var st := State(d.history[..], d.historyPtr);
      DeliveriesStep(form, st, ps, i, ds);
      var r := ReceiveOne(form, d, ps[i]);
      ds := ds + [r];
      i := i + 1;
    }
  }

  lemma DeliveriesStep(form: Form, st: State, ps: seq<Packet>, i: nat, ds: seq<Delivery>)
    requires i < |ps| && Sound(st) && RunFits(form, st, ps[i..])
    ensures Fits(form, st, ps[i]) && RunFits(form, After(form, st, ps[i]), ps[i + 1..])
    ensures ds + Deliveries(form, st, ps[i..])
         == ds + [Deliver(form, st, ps[i])] + Deliveries(form, After(form, st, ps[i]), ps[i + 1..])
  {
    hide Output, Fits, After, Deliver;
    assert ps[i..][0] == ps[i] && ps[i..][1..] == ps[i + 1..];
    ConcatAssoc(ds, [Deliver(form, st, ps[i])], Deliveries(form, After(form, st, ps[i]), ps[i + 1..]));
  }

  // ---------- One stream over many packets ----------

  /** Copies look at the last HISTORY bytes only. */
  lemma {:induction false} CopyBytesLocal(p: seq<byte>, q: seq<byte>, offset: nat, length: nat)
    requires |p| >= HISTORY && |q| >= HISTORY && 1 <= offset <= HISTORY
    requires p[|p| - HISTORY..] == q[|q| - HISTORY..]
    ensures CopyBytes(p, offset, length) == CopyBytes(q, offset, length)
    decreases length
  {
    if length > 0 {
      var b := p[|p| - offset];
      assert b == p[|p| - HISTORY..][HISTORY - offset] == q[|q| - offset];
      SuffixExtend(p, q, [b]);
      CopyBytesLocal(p + [b], q + [b], offset, length - 1);
    }
  }

  lemma SuffixExtend(p: seq<byte>, q: seq<byte>, out: seq<byte>)
    requires |p| >= HISTORY && |q| >= HISTORY
    requires p[|p| - HISTORY..] == q[|q| - HISTORY..]
    ensures (p + out)[|p + out| - HISTORY..] == (q + out)[|q + out| - HISTORY..]
  {
    var m := Min(|out|, HISTORY);
    assert (p + out)[|p| - HISTORY..] == p[|p| - HISTORY..] + out;
    assert (q + out)[|q| - HISTORY..] == q[|q| - HISTORY..] + out;
    assert (p + out)[|p + out| - HISTORY..] == (p + out)[|p| - HISTORY..][|out|..];
    assert (q + out)[|q + out| - HISTORY..] == (q + out)[|q| - HISTORY..][|out|..];
  }

  lemma {:induction false} ExpandLocal(p: seq<byte>, q: seq<byte>, tokens: seq<Token>)
    requires |p| >= HISTORY && |q| >= HISTORY && p[|p| - HISTORY..] == q[|q| - HISTORY..]
    requires forall i :: 0 <= i < |tokens| && tokens[i].Copy? ==> 1 <= tokens[i].offset <= HISTORY
    ensures Expand(p, tokens) == Expand(q, tokens)
    decreases |tokens|
  {
    hide CopyBytes;
    if tokens != [] {
      var t := tokens[0];
      if t.Copy? {
        CopyBytesLocal(p, q, t.offset, t.length);
      }
      var out := TokenBytes(p, t);
      SuffixExtend(p, q, out);
      ExpandLocal(p + out, q + out, tokens[1..]);
    }
  }

  lemma ReachableParts(past: seq<byte>, out: seq<byte>, a: seq<Token>, b: seq<Token>)
    requires Reachable(past, a + b)
    ensures Reachable(past, a) && Reachable(past + out, b)
  {
    assert forall i :: 0 <= i < |a| ==> a[i] == (a + b)[i];
    assert forall i :: 0 <= i < |b| ==> b[i] == (a + b)[|a| + i];
  }

  lemma ExpandCons(past: seq<byte>, t: Token, rest: seq<Token>)
    requires Reachable(past, [t] + rest)
    ensures t.Copy? ==> 1 <= t.offset <= |past|
    ensures Reachable(past + TokenBytes(past, t), rest)
    ensures Expand(past, [t] + rest) == TokenBytes(past, t) + Expand(past + TokenBytes(past, t), rest)
  {
    hide TokenBytes;
    assert ([t] + rest)[0] == t && ([t] + rest)[1..] == rest;
    ReachableParts(past, TokenBytes(past, t), [t], rest);
  }

  lemma {:induction false} ExpandConcat(past: seq<byte>, a: seq<Token>, b: seq<Token>)
    requires Reachable(past, a + b)
    ensures Reachable(past, a) && Reachable(past + Expand(past, a), b)
    ensures Expand(past, a + b) == Expand(past, a) + Expand(past + Expand(past, a), b)
    decreases |a|
  {
    hide TokenBytes, Expand, Reachable;
    ReachableParts(past, [], a, b);
    if a == [] {
      ExpandNone(past);
      assert a + b == b && past + [] == past;
    } else {
      var t, a' := a[0], a[1..];
      assert a == [t] + a' && a + b == [t] + (a' + b);
      ExpandCons(past, t, a' + b);
      ExpandCons(past, t, a');
      var out := TokenBytes(past, t);
      ExpandConcat(past + out, a', b);
      var rest := Expand(past + out, a');
      ConcatAssoc(past, out, rest);
      ConcatAssoc(out, rest, Expand(past + out + rest, b));
    }
  }

  /** After a packet the window is the end of what the window and the packet's bytes make up. */
  lemma WindowAfter(history: seq<byte>, ptr: nat, out: seq<byte>)
    requires |history| == HISTORY && ptr + |out| <= HISTORY
    ensures Window(Stored(history, ptr, out), ptr + |out|) == (Window(history, ptr) + out)[|out|..]
  {
  }

  function Concat(tss: seq<seq<Token>>): seq<Token> {
    if tss == [] then [] else tss[0] + Concat(tss[1..])
  }

  predicate AllEncodable(form: Form, tss: seq<seq<Token>>) {
    forall i, j :: 0 <= i < |tss| && 0 <= j < |tss[i]| ==> Encodable(form, tss[i][j])
  }

  /** Token sequences sent as compressed packets without further flags. */
  function Packets(form: Form, tss: seq<seq<Token>>): (ps: seq<Packet>)
    requires AllEncodable(form, tss)
    ensures |ps| == |tss|
  {
    seq(|tss|, i requires 0 <= i < |tss| => Packet(Flags(false, false, true), Pack(Code(form, tss[i]))))
  }

  function Flatten(os: seq<seq<byte>>): seq<byte> {
    if os == [] then [] else os[0] + Flatten(os[1..])
  }

  /** One packet: its bytes, and what the rest of the stream is expanded over. */
  lemma PacketStep(form: Form, st: State, ts: seq<Token>, rest: seq<Token>)
    requires Sound(st)
    requires forall i :: 0 <= i < |ts| ==> Encodable(form, ts[i])
    requires forall i :: 0 <= i < |ts + rest| && (ts + rest)[i].Copy? ==> 1 <= (ts + rest)[i].offset < HISTORY
    requires Fits(form, st, Packet(Flags(false, false, true), Pack(Code(form, ts))))
    ensures var p := Packet(Flags(false, false, true), Pack(Code(form, ts)));
      var st' := After(form, st, p);
      && Reachable(Window(st.history, st.ptr), ts + rest)
      && Reachable(Window(st'.history, st'.ptr), rest)
      && Expand(Window(st.history, st.ptr), ts + rest) == Output(form, st, p) + Expand(Window(st'.history, st'.ptr), rest)
  {
    hide Expand, Code, Pack, Unpacked, Window, Stored, Encodable;
    var p, past := Packet(Flags(false, false, true), Pack(Code(form, ts))), Window(st.history, st.ptr);
    UnpackedPack(form, ts, st.history, st.ptr);
    var out, st' := Output(form, st, p), After(form, st, p);
    assert out == Expand(past, ts);
    ExpandConcat(past, ts, rest);
    assert forall i :: 0 <= i < |rest| ==> rest[i] == (ts + rest)[|ts| + i];
    WindowAfter(st.history, st.ptr, out);
    LastPart(past, out);
    ExpandLocal(past + out, Window(st'.history, st'.ptr), rest);
  }

  /**
   How a token stream is cut into packets does not matter: together they deliver the expansion of the whole
   stream, because the history carries over.
   */
  lemma {:induction false} PacketsAreOneStream(form: Form, st: State, tss: seq<seq<Token>>)
    requires Sound(st) && AllEncodable(form, tss) && RunFits(form, st, Packets(form, tss))
    ensures Reachable(Window(st.history, st.ptr), Concat(tss))
    ensures Flatten(Outputs(form, st, Packets(form, tss))) == Expand(Window(st.history, st.ptr), Concat(tss))
    decreases |tss|
  {
    hide Expand, Code, Pack, Window, Encodable, Output, After, Fits;
    ConcatOffsets(form, tss);
    if tss == [] {
      ExpandNone(Window(st.history, st.ptr));
    } else {
      var ps := Packets(form, tss);
      assert ps[1..] == Packets(form, tss[1..]);
      assert Concat(tss) == tss[0] + Concat(tss[1..]);
      PacketStep(form, st, tss[0], Concat(tss[1..]));
      PacketsAreOneStream(form, After(form, st, ps[0]), tss[1..]);
      FlattenStep(form, st, ps);
    }
  }

  lemma FlattenStep(form: Form, st: State, ps: seq<Packet>)
    requires Sound(st) && RunFits(form, st, ps) && ps != []
    ensures Flatten(Outputs(form, st, ps)) == Output(form, st, ps[0]) + Flatten(Outputs(form, After(form, st, ps[0]), ps[1..]))
  {
    hide Output, After, Fits;
    assert Outputs(form, st, ps)[1..] == Outputs(form, After(form, st, ps[0]), ps[1..]);
  }

  lemma LastPart(past: seq<byte>, out: seq<byte>)
    requires |past| == HISTORY
    ensures var w := (past + out)[|out|..];
      |w| == HISTORY && (past + out)[|past + out| - HISTORY..] == w[|w| - HISTORY..]
  {
  }

  lemma ExpandNone(past: seq<byte>)
    ensures Expand(past, []) == []
  {
  }

  lemma {:induction false} ConcatOffsets(form: Form, tss: seq<seq<Token>>)
    requires AllEncodable(form, tss)
    ensures forall i :: 0 <= i < |Concat(tss)| && Concat(tss)[i].Copy? ==> 1 <= Concat(tss)[i].offset < HISTORY
    decreases |tss|
  {
    if tss != [] {
      ConcatOffsets(form, tss[1..]);
      forall i | 0 <= i < |Concat(tss)| && Concat(tss)[i].Copy?
        ensures 1 <= Concat(tss)[i].offset < HISTORY
      {
        if i < |tss[0]| {
          assert Encodable(form, tss[0][i]);
        } else {
          assert Concat(tss)[i] == Concat(tss[1..])[i - |tss[0]|];
        }
      }
    }
  }
}

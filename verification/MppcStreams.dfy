/**
 Runs of packets with any flags, as a stream: the decompressor delivers what the tokens expand to over the bytes sent
 before. A packet at the front goes back to the start of the buffer and keeps its 65536 bytes in buffer order; a flushed
 one starts over 65536 zero bytes.
 */
module MppcStreams {
  import opened Bits
  import opened MppcSpec
  import opened MppcInversion
  import opened Mppc
  import opened MppcRuns

  datatype Content = Tokens(ts: seq<Token>) | Raw(bytes: seq<byte>)

  datatype Send = Send(atFront: bool, flushed: bool, content: Content)

  predicate Codable(form: Form, x: Send) {
    x.content.Tokens? ==> forall i :: 0 <= i < |x.content.ts| ==> Encodable(form, x.content.ts[i])
  }

  function PacketOf(form: Form, x: Send): Packet
    requires Codable(form, x)
  {
    match x.content
    case Tokens(ts) => Packet(Flags(x.atFront, x.flushed, true), Pack(Code(form, ts)))
    case Raw(bytes) => Packet(Flags(x.atFront, x.flushed, false), bytes)
  }

  function PacketsOf(form: Form, xs: seq<Send>): (ps: seq<Packet>)
    requires forall i :: 0 <= i < |xs| ==> Codable(form, xs[i])
    ensures |ps| == |xs|
  {
    seq(|xs|, i requires 0 <= i < |xs| => PacketOf(form, xs[i]))
  }

  // ---------- The stream ----------

  /** What was sent so far, and how many bytes of it lie before the write position. */
  datatype Tape = Tape(past: seq<byte>, ptr: nat)

  predicate Long(t: Tape) {
    |t.past| >= 65536 && t.ptr <= 65536
  }

  /** The 65536 bytes sent last, from the start of the buffer to its end. */
  function InBufferOrder(t: Tape): (r: seq<byte>)
    requires Long(t)
    ensures |r| == 65536
  {
    t.past[|t.past| - t.ptr..] + t.past[|t.past| - 65536..|t.past| - t.ptr]
  }

  /** What a packet is expanded over. */
  function Before(t: Tape, x: Send): (r: Tape)
    requires Long(t)
    ensures Long(r)
  {
    if x.flushed then Tape(seq(65536, _ => 0), 0) else if x.atFront then Tape(InBufferOrder(t), 0) else t
  }

  function Bytes(form: Form, t: Tape, x: Send): seq<byte>
    requires Long(t) && Codable(form, x)
  {
    match x.content
    case Tokens(ts) => TokensReach(form, Before(t, x).past, ts); Expand(Before(t, x).past, ts)
    case Raw(bytes) => bytes
  }

  function Onward(form: Form, t: Tape, x: Send): Tape
    requires Long(t) && Codable(form, x)
  {
    Tape(Before(t, x).past + Bytes(form, t, x), Before(t, x).ptr + |Bytes(form, t, x)|)
  }

  /** The bytes of every packet, each expanded over those before it. */
  function Streamed(form: Form, t: Tape, xs: seq<Send>): seq<seq<byte>>
    requires Long(t) && forall i :: 0 <= i < |xs| ==> Codable(form, xs[i])
    decreases |xs|
  {
    if xs == [] || !Long(Onward(form, t, xs[0])) then []
    else [Bytes(form, t, xs[0])] + Streamed(form, Onward(form, t, xs[0]), xs[1..])
  }

  lemma TokensReach(form: Form, past: seq<byte>, ts: seq<Token>)
    requires |past| >= 65536 && forall i :: 0 <= i < |ts| ==> Encodable(form, ts[i])
    ensures Reachable(past, ts)
  {
    forall i | 0 <= i < |ts| && ts[i].Copy?
      ensures 1 <= ts[i].offset <= |past|
    {
      assert Encodable(form, ts[i]);
    }
  }

  // ---------- The decompressor follows it ----------

  /** The history, seen from the write position, is the end of the tape. */
  predicate Shows(st: State, t: Tape) {
    Sound(st) && Long(t) && t.ptr == st.ptr && t.past[|t.past| - 65536..] == Window(st.history, st.ptr)
  }

  lemma BufferOrder(st: State, t: Tape)
    requires Shows(st, t)
    ensures InBufferOrder(t) == st.history
  {
    var w, p := t.past[|t.past| - 65536..], st.ptr;
    assert t.past[|t.past| - p..] == w[65536 - p..] == st.history[..p];
    assert t.past[|t.past| - 65536..|t.past| - p] == w[..65536 - p] == st.history[p..];
  }

  /** What a packet starts from, before its bytes. */
  lemma StartShown(st: State, t: Tape, x: Send, flags: Flags)
    requires Shows(st, t) && flags.atFront == x.atFront && flags.flushed == x.flushed
    ensures Shows(State(BaseOf(flags, st.history), StartOf(flags, st.ptr)), Before(t, x))
  {
    hide Shows, InBufferOrder;
    ShowsSound(st, t);
    if x.flushed {
      FrontShown(seq(65536, _ => 0));
      assert BaseOf(flags, st.history) == seq(65536, _ => 0);
    } else if x.atFront {
      BufferOrder(st, t);
      FrontShown(st.history);
    }
  }

  lemma FrontShown(history: seq<byte>)
    requires |history| == 65536
    ensures Shows(State(history, 0), Tape(history, 0))
  {
    assert history[0..] + history[..0] == history;
  }

  lemma StoredShown(st: State, t: Tape, out: seq<byte>)
    requires Shows(st, t) && st.ptr + |out| <= HISTORY
    ensures Shows(State(Stored(st.history, st.ptr, out), st.ptr + |out|), Tape(t.past + out, t.ptr + |out|))
  {
    hide Stored, Window;
    WindowAfter(st.history, st.ptr, out);
    var w := Window(st.history, st.ptr);
    assert (t.past + out)[|t.past + out| - 65536..] == (t.past[|t.past| - 65536..] + out)[|out|..];
  }

  lemma PacketShown(form: Form, st: State, t: Tape, x: Send)
    requires Codable(form, x) && Shows(st, t) && Fits(form, st, PacketOf(form, x))
    ensures Output(form, st, PacketOf(form, x)) == Bytes(form, t, x)
    ensures Shows(After(form, st, PacketOf(form, x)), Onward(form, t, x))
  {
    hide Expand, Code, Pack, Unpacked, Window, Stored, Encodable, StartOf, BaseOf, Shows, Before;
    var p := PacketOf(form, x);
    ShowsSound(st, t);
    StartShown(st, t, x, p.flags);
    var st1 := State(BaseOf(p.flags, st.history), StartOf(p.flags, st.ptr));
    if x.content.Tokens? {
      TokensShown(form, st1, Before(t, x), x.content.ts);
    }
    ShowsSound(st1, Before(t, x));
    StoredShown(st1, Before(t, x), Bytes(form, t, x));
  }

  lemma ShowsSound(st: State, t: Tape)
    requires Shows(st, t)
    ensures Sound(st) && Long(t)
  {
  }

  lemma TokensShown(form: Form, st: State, t: Tape, ts: seq<Token>)
    requires Shows(st, t) && forall i :: 0 <= i < |ts| ==> Encodable(form, ts[i])
    ensures Reachable(t.past, ts) && Unpacked(form, st.history, st.ptr, Pack(Code(form, ts))) == Expand(t.past, ts)
  {
    hide Expand, Code, Pack, Unpacked, Window;
    TokensReach(form, t.past, ts);
    UnpackedPack(form, ts, st.history, st.ptr);
    var w := Window(st.history, st.ptr);
    assert w[|w| - 65536..] == w;
    forall i | 0 <= i < |ts| && ts[i].Copy?
      ensures 1 <= ts[i].offset <= HISTORY
    {
      assert Encodable(form, ts[i]);
    }
    ExpandLocal(t.past, w, ts);
  }

  /** Every run of packets with any flags, compressed or not, delivers the stream. */
  lemma {:induction false} RunIsStream(form: Form, st: State, t: Tape, xs: seq<Send>)
    requires (forall i :: 0 <= i < |xs| ==> Codable(form, xs[i])) && Shows(st, t) && RunFits(form, st, PacketsOf(form, xs))
    ensures Outputs(form, st, PacketsOf(form, xs)) == Streamed(form, t, xs)
    decreases |xs|
  {
    hide Output, After, Fits, PacketOf, Shows, Bytes, Onward, Codable;
    ShowsSound(st, t);
    if xs != [] {
      var ps := PacketsOf(form, xs);
      assert ps[1..] == PacketsOf(form, xs[1..]);
      PacketShown(form, st, t, xs[0]);
      ShowsSound(After(form, st, ps[0]), Onward(form, t, xs[0]));
      RunIsStream(form, After(form, st, ps[0]), Onward(form, t, xs[0]), xs[1..]);
    }
  }
}

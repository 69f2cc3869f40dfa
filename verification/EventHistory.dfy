/** The states of the event mailbox, read off the actions of a run alone. */
module EventHistory {
  import opened Bits
  import opened EventMailbox

  predicate ConnectedBy(run: seq<Action>)
    decreases |run|
  {
    run != [] && if Last(run).SetConnected? then Last(run).value else ConnectedBy(Front(run))
  }

  function OpenBy(run: seq<Action>): set<nat>
    decreases |run|
  {
    if run == [] then {}
    else match Last(run)
      case Open(c) => OpenBy(Front(run)) + {c}
      case Close(c) => OpenBy(Front(run)) - {c}
      case _ => OpenBy(Front(run))
  }

  predicate SignalledBy(run: seq<Action>)
    decreases |run|
  {
    run != [] && (Last(run).Signal? || Last(run).OtherSignal? || (!Last(run).ClearSignal? && SignalledBy(Front(run))))
  }

  predicate Own(a: Action, t: nat) {
    (a.StartPush? || a.TestOpen? || a.Wait? || a.Retest? || a.Store? || a.GiveBack? || a.Signal?) && a.t == t
  }

  /** The event of the thread's last push call. */
  function EventOf(run: seq<Action>, t: nat): int
    decreases |run|
  {
    if run == [] then 0
    else if Last(run).StartPush? && Last(run).t == t then Last(run).event
    else EventOf(Front(run), t)
  }

  /** Where the thread's last action has left it. */
  function PusherBy(run: seq<Action>, t: nat): Pusher
    decreases |run|
  {
    if run == [] then Idle
    else if !Own(Last(run), t) then PusherBy(Front(run), t)
    else
      var event := EventOf(run, t);
      match Last(run)
      case StartPush(_, _) => if ConnectedBy(run) then TestsOpen(event) else Idle
      case TestOpen(_, channel) => if channel in OpenBy(run) then WantsSlot(event) else Idle
      case Wait(_) => HasSlot(event)
      case Retest(_) => if ConnectedBy(run) then Approved(event) else Refused
      case Store(_) => MustSignal
      case _ => Idle
  }

  /** The events put into the slot: for each store, the one its thread was called with. */
  function Pushed(run: seq<Action>): seq<int>
    decreases |run|
  {
    if run == [] then []
    else Pushed(Front(run)) + if Last(run).Store? then [EventOf(Front(run), Last(run).t)] else []
  }

  // ---------- The states follow the actions ----------

  lemma {:induction false} RunsFront(s: State, run: seq<Action>, end: State) returns (mid: State)
    requires run != [] && Runs(s, run, end)
    ensures Runs(s, Front(run), mid) && Enabled(mid, Last(run)) && end == Step(mid, Last(run))
    decreases |run|
  {
    hide Step, Enabled;
    if |run| == 1 {
      mid := s;
      assert run[1..] == [];
    } else {
      mid := RunsFront(Step(s, run[0]), run[1..], end);
      assert Front(run)[1..] == Front(run[1..]) && Front(run)[0] == run[0];
    }
  }

  ghost predicate Reads(run: seq<Action>, s: State) {
    s.connected == ConnectedBy(run) && s.open == OpenBy(run) && s.signal == SignalledBy(run) && s.stored == Pushed(run)
  }

  ghost predicate ReadsPusher(run: seq<Action>, s: State, t: nat) {
    && Pc(s, t) == PusherBy(run, t)
    && (Pc(s, t).TestsOpen? || Pc(s, t).WantsSlot? || Pc(s, t).HasSlot? || Pc(s, t).Approved? ==> Pc(s, t).event == EventOf(run, t))
  }

  lemma ReadsStep(run: seq<Action>, s: State)
    requires run != [] && Reads(Front(run), s) && Enabled(s, Last(run)) && forall t: nat :: ReadsPusher(Front(run), s, t)
    ensures Reads(run, Step(s, Last(run)))
  {
    var a := Last(run);
    if a.Store? {
      assert ReadsPusher(Front(run), s, a.t);
    }
  }

  lemma OwnStep(run: seq<Action>, s: State, t: nat)
    requires run != [] && Reads(Front(run), s) && Enabled(s, Last(run)) && ReadsPusher(Front(run), s, t) && Own(Last(run), t)
    ensures ReadsPusher(run, Step(s, Last(run)), t)
  {
    hide Pushed, SignalledBy;
    assert ConnectedBy(run) == ConnectedBy(Front(run)) && OpenBy(run) == OpenBy(Front(run));
  }

  lemma PcKept(s: State, a: Action, t: nat)
    requires Enabled(s, a) && !Own(a, t)
    ensures Pc(Step(s, a), t) == Pc(s, t)
  {
  }

  lemma OtherStep(run: seq<Action>, s: State, t: nat)
    requires run != [] && Enabled(s, Last(run)) && ReadsPusher(Front(run), s, t) && !Own(Last(run), t)
    ensures ReadsPusher(run, Step(s, Last(run)), t)
  {
    hide ConnectedBy, OpenBy, Step, Enabled;
    PcKept(s, Last(run), t);
  }

  /** In every run, the connection, the open channels, the signal, the stored events and every pusher are as the actions say. */
  lemma {:induction false} RunReads(run: seq<Action>, s: State)
    requires Runs(START, run, s)
    ensures s.connected == ConnectedBy(run) && s.open == OpenBy(run) && s.signal == SignalledBy(run)
    ensures s.stored == Pushed(run)
    ensures forall t: nat :: ReadsPusher(run, s, t)
    decreases |run|
  {
    hide Step, Enabled, PusherBy, EventOf;
    if run == [] {
      NothingRead(s);
    } else {
      hide Runs, ReadsPusher, Pushed, ConnectedBy, OpenBy, SignalledBy;
      var mid := RunsFront(START, run, s);
      RunReads(Front(run), mid);
      ReadsStep(run, mid);
      forall t: nat
        ensures ReadsPusher(run, s, t)
      {
        if Own(Last(run), t) {
          OwnStep(run, mid, t);
        } else {
          OtherStep(run, mid, t);
        }
      }
    }
  }

  lemma NothingRead(s: State)
    requires s == START
    ensures Reads([], s) && forall t: nat :: ReadsPusher([], s, t)
  {
  }

  /** The events that pushers were called with are, in the order of their stores, popped or in the slot. */
  lemma PushedIsPopped(run: seq<Action>, s: State)
    requires Runs(START, run, s)
    ensures Pushed(run) == s.popped + if s.slot.Full? then [s.slot.event] else []
  {
    hide Runs, Pushed, Tokens;
    RunReads(run, s);
    EveryEventOnce(run, s);
  }
}

/**
 The states of the write path, read off the actions of a run alone: who is connected, which channels are open, where
 each writer stands, and what was put into the queue. The tests of a writer are judged by the actions before them.
 */
module ChannelHistory {
  import opened Bits
  import opened ChannelWrites

  /** The last connection step made a connection. */
  predicate ConnectedBy(run: seq<Action>)
    decreases |run|
  {
    run != [] && (Last(run).Connect? || (!Last(run).Disconnect? && ConnectedBy(Front(run))))
  }

  /** The channels opened and not closed since. */
  function OpenBy(run: seq<Action>): set<nat>
    decreases |run|
  {
    if run == [] then {}
    else match Last(run)
      case Open(c) => OpenBy(Front(run)) + {c}
      case Close(c) => OpenBy(Front(run)) - {c}
      case _ => OpenBy(Front(run))
  }

  /** The signal was set, and not cleared since. */
  predicate SignalledBy(run: seq<Action>)
    decreases |run|
  {
    run != [] && (Last(run).Signal? || Last(run).EventSignal? || (!Last(run).Clear? && SignalledBy(Front(run))))
  }

  predicate Own(a: Action, t: nat) {
    (a.StartWrite? || a.TestOpen? || a.Lock? || a.Retest? || a.Enqueue? || a.Unlock? || a.Signal?) && a.t == t
  }

  const NOTHING := Item(0, [])

  /** The item of the thread's last write call. */
  function ItemOf(run: seq<Action>, t: nat): Item
    decreases |run|
  {
    if run == [] then NOTHING
    else if Last(run).StartWrite? && Last(run).t == t then Last(run).item
    else ItemOf(Front(run), t)
  }

  /** The thread's last retest found the connection open. */
  predicate RetestPassed(run: seq<Action>, t: nat)
    decreases |run|
  {
    run != [] && if Last(run) == Retest(t) then ConnectedBy(Front(run)) else RetestPassed(Front(run), t)
  }

  /** Where the thread's last action has left it. */
  function WriterBy(run: seq<Action>, t: nat): Writer
    decreases |run|
  {
    if run == [] then Idle
    else if !Own(Last(run), t) then WriterBy(Front(run), t)
    else
      var item := ItemOf(run, t);
      match Last(run)
      case StartWrite(_, _) => if ConnectedBy(run) && item.data != [] then TestsOpen(item) else Idle
      case TestOpen(_) => if item.channel in OpenBy(run) then WantsLock(item) else Idle
      case Lock(_) => Locked(item)
      case Retest(_) => if ConnectedBy(run) then Approved(item) else Refused
      case Enqueue(_) => Enqueued
      case Unlock(_) => if RetestPassed(run, t) then MustSignal else Idle
      case _ => Idle
  }

  /** The items put into the queue: for each enqueue, the one its thread was called with. */
  function Written(run: seq<Action>): seq<Item>
    decreases |run|
  {
    if run == [] then []
    else Written(Front(run)) + if Last(run).Enqueue? then [ItemOf(Front(run), Last(run).t)] else []
  }

  // ---------- The states follow the actions ----------

  /** A run is a shorter run and one more step. */
  lemma {:induction false} RunsFront(s: State, run: seq<Action>, end: State, sendable: set<nat>) returns (mid: State)
    requires run != [] && Runs(s, run, end, sendable)
    ensures Runs(s, Front(run), mid, sendable) && Enabled(mid, Last(run)) && end == Step(mid, Last(run), sendable)
    decreases |run|
  {
    hide Step, Enabled;
    if |run| == 1 {
      mid := s;
      assert run[1..] == [];
    } else {
      mid := RunsFront(Step(s, run[0], sendable), run[1..], end, sendable);
      assert Front(run)[1..] == Front(run[1..]) && Front(run)[0] == run[0];
    }
  }

  ghost predicate Reads(run: seq<Action>, s: State) {
    && s.connected == ConnectedBy(run) && s.open == OpenBy(run) && s.signal == SignalledBy(run)
    && s.enqueued == Written(run)
  }

  ghost predicate ReadsWriter(run: seq<Action>, s: State, t: nat) {
    && Pc(s, t) == WriterBy(run, t)
    && (Pc(s, t).TestsOpen? || Pc(s, t).WantsLock? || Pc(s, t).Locked? || Pc(s, t).Approved? ==> Pc(s, t).item == ItemOf(run, t))
    && (Pc(s, t).Approved? || Pc(s, t).Enqueued? ==> RetestPassed(run, t))
    && (Pc(s, t).Refused? ==> !RetestPassed(run, t))
  }

  lemma ReadsStep(run: seq<Action>, s: State, sendable: set<nat>)
    requires run != [] && Reads(Front(run), s) && Enabled(s, Last(run))
    requires forall t: nat :: ReadsWriter(Front(run), s, t)
    ensures Reads(run, Step(s, Last(run), sendable))
  {
    var a := Last(run);
    if a.Enqueue? {
      assert ReadsWriter(Front(run), s, a.t);
    }
  }

  lemma OwnStep(run: seq<Action>, s: State, sendable: set<nat>, t: nat)
    requires run != [] && Reads(Front(run), s) && Enabled(s, Last(run)) && ReadsWriter(Front(run), s, t) && Own(Last(run), t)
    ensures ReadsWriter(run, Step(s, Last(run), sendable), t)
  {
    hide Written, SignalledBy, ConnectedBy, OpenBy;
    OwnChangesNothingElse(run, t);
  }

  lemma PcKept(s: State, a: Action, sendable: set<nat>, t: nat)
    requires Enabled(s, a) && !Own(a, t)
    ensures Pc(Step(s, a, sendable), t) == Pc(s, t)
  {
  }

  lemma OtherStep(run: seq<Action>, s: State, sendable: set<nat>, t: nat)
    requires run != [] && Enabled(s, Last(run)) && ReadsWriter(Front(run), s, t) && !Own(Last(run), t)
    ensures ReadsWriter(run, Step(s, Last(run), sendable), t)
  {
    hide ConnectedBy, OpenBy, Step, Enabled;
    PcKept(s, Last(run), sendable, t);
  }

  lemma OwnChangesNothingElse(run: seq<Action>, t: nat)
    requires run != [] && Own(Last(run), t)
    ensures ConnectedBy(run) == ConnectedBy(Front(run)) && OpenBy(run) == OpenBy(Front(run))
  {
  }

  /** In every run, the connection, the open channels, the signal, the queue log and every writer are as the actions say. */
  lemma {:induction false} RunReads(run: seq<Action>, s: State, sendable: set<nat>)
    requires Runs(START, run, s, sendable)
    ensures s.connected == ConnectedBy(run) && s.open == OpenBy(run) && s.signal == SignalledBy(run)
    ensures s.enqueued == Written(run)
    ensures forall t: nat :: ReadsWriter(run, s, t)
    decreases |run|
  {
    hide Step, Enabled, WriterBy, ItemOf, RetestPassed;
    if run == [] {
      NothingRead(s);
    } else {
      hide Runs, ReadsWriter, Written, ConnectedBy, OpenBy, SignalledBy;
      var mid := RunsFront(START, run, s, sendable);
      RunReads(Front(run), mid, sendable);
      ReadsStep(run, mid, sendable);
      forall t: nat
        ensures ReadsWriter(run, s, t)
      {
        if Own(Last(run), t) {
          OwnStep(run, mid, sendable, t);
        } else {
          OtherStep(run, mid, sendable, t);
        }
      }
    }
  }

  lemma NothingRead(s: State)
    requires s == START
    ensures Reads([], s) && forall t: nat :: ReadsWriter([], s, t)
  {
  }

  /** What the writers were called with is, in the order of their enqueues, completed, taken or still in the queue. */
  lemma WrittenIsSent(run: seq<Action>, s: State, sendable: set<nat>)
    requires Runs(START, run, s, sendable)
    ensures Written(run) == s.completed + Taken(s) + s.queue && s.sent == Sendable(Reported(s), sendable)
  {
    hide Runs, Sendable, Written;
    RunReads(run, s, sendable);
    NoLostWrite(run, s, sendable);
  }
}

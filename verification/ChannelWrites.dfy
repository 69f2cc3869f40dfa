/**
 The channel manager's write path as a state machine: any number of plug-in threads write, the main thread drains
 the queue. Every test, lock, list operation and signal operation is one step, so any interleaving is a run.
 */
module ChannelWrites {
  import opened Bits

  datatype Item = Item(channel: nat, data: seq<byte>)

  /** Where a writer is inside the write call. */
  datatype Writer =
    | Idle
    | TestsOpen(item: Item)    // the connection test has passed
    | WantsLock(item: Item)    // the channel was open
    | Locked(item: Item)       // holds the mutex
    | Approved(item: Item)     // holds the mutex, the second connection test has passed
    | Refused                  // holds the mutex, the second test has failed
    | Enqueued                 // holds the mutex, the item is in the queue
    | MustSignal               // has released the mutex

  /** Where the main thread is inside the check for work. */
  datatype Main =
    | Waiting
    | SawSignal
    | LoopTest
    | MainWantsLock
    | MainLocked
    | Dequeued(item: Item)     // holds the mutex
    | Sending(item: Item)
    | Completing(item: Item)

  datatype Holder = Nobody | MainThread | Thread(t: nat)

  datatype State = State(
    connected: bool,
    open: set<nat>,
    mutex: Holder,
    signal: bool,
    queue: seq<Item>,
    writers: map<nat, Writer>,
    main: Main,
    enqueued: seq<Item>,       // every item put into the queue, ever
    sent: seq<Item>,           // every item handed to the connection
    completed: seq<Item>)      // every item whose writer was told

  /** The steps. Those of a writer carry its thread; pushing an event sets the same signal. */
  datatype Action =
    | Connect | Disconnect | Open(channel: nat) | Close(channel: nat)
    | StartWrite(t: nat, item: Item) | TestOpen(t: nat) | Lock(t: nat) | Retest(t: nat) | Enqueue(t: nat)
    | Unlock(t: nat) | Signal(t: nat) | EventSignal
    | Poll | Clear | TestHead | MainLock | Dequeue | MainUnlock | Send | Complete

  function Pc(s: State, t: nat): Writer {
    if t in s.writers then s.writers[t] else Idle
  }

  predicate Enabled(s: State, a: Action) {
    match a
    case Connect => s.main.Waiting?
    case Disconnect => s.main.Waiting?
    case Open(c) => s.connected && c !in s.open
    case Close(c) => c in s.open
    case StartWrite(t, item) => Pc(s, t).Idle?
    case TestOpen(t) => Pc(s, t).TestsOpen?
    case Lock(t) => Pc(s, t).WantsLock? && s.mutex.Nobody?
    case Retest(t) => Pc(s, t).Locked?
    case Enqueue(t) => Pc(s, t).Approved?
    case Unlock(t) => Pc(s, t).Enqueued? || Pc(s, t).Refused?
    case Signal(t) => Pc(s, t).MustSignal?
    case EventSignal => true
    case Poll => s.main.Waiting?
    case Clear => s.main.SawSignal?
    case TestHead => s.main.LoopTest?
    case MainLock => s.main.MainWantsLock? && s.mutex.Nobody?
    case Dequeue => s.main.MainLocked? && s.queue != []
    case MainUnlock => s.main.Dequeued?
    case Send => s.main.Sending?
    case Complete => s.main.Completing?
  }

  function Move(s: State, t: nat, w: Writer): State {
    s.(writers := s.writers[t := w])
  }

  /** The state after a step. Only channels in the settings can be sent on. */
  function Step(s: State, a: Action, sendable: set<nat>): State
    requires Enabled(s, a)
  {
    match a
    case Connect => s.(connected := true)
    case Disconnect => s.(connected := false)
    case Open(c) => s.(open := s.open + {c})
    case Close(c) => s.(open := s.open - {c})
    case StartWrite(t, item) => if s.connected && item.data != [] then Move(s, t, TestsOpen(item)) else s
    case TestOpen(t) =>
      if s.writers[t].item.channel in s.open then Move(s, t, WantsLock(s.writers[t].item)) else Move(s, t, Idle)
    case Lock(t) => Move(s, t, Locked(s.writers[t].item)).(mutex := Thread(t))
    case Retest(t) => Move(s, t, if s.connected then Approved(s.writers[t].item) else Refused)
    case Enqueue(t) =>
      var item := s.writers[t].item;
      Move(s, t, Enqueued).(queue := s.queue + [item], enqueued := s.enqueued + [item])
    case Unlock(t) => Move(s, t, if s.writers[t].Enqueued? then MustSignal else Idle).(mutex := Nobody)
    case Signal(t) => Move(s, t, Idle).(signal := true)
    case EventSignal => s.(signal := true)
    case Poll => if s.signal then s.(main := SawSignal) else s
    case Clear => s.(signal := false, main := LoopTest)
    case TestHead => s.(main := if s.queue == [] then Waiting else MainWantsLock)
    case MainLock => s.(main := MainLocked, mutex := MainThread)
    case Dequeue => s.(main := Dequeued(s.queue[0]), queue := s.queue[1..])
    case MainUnlock => s.(main := Sending(s.main.item), mutex := Nobody)
    case Send =>
      s.(main := Completing(s.main.item), sent := if s.main.item.channel in sendable then s.sent + [s.main.item] else s.sent)
    case Complete => s.(main := LoopTest, completed := s.completed + [s.main.item])
  }

  const START := State(false, {}, Nobody, false, [], map[], Waiting, [], [], [])

  ghost predicate Runs(s: State, run: seq<Action>, end: State, sendable: set<nat>)
    decreases |run|
  {
    if run == [] then s == end
    else Enabled(s, run[0]) && Runs(Step(s, run[0], sendable), run[1..], end, sendable)
  }

  // ---------- What every run keeps ----------

  /** The item the main thread has taken and not yet sent, and the one it has sent and not yet reported. */
  function Taken(s: State): seq<Item> {
    match s.main
    case Dequeued(item) => [item]
    case Sending(item) => [item]
    case Completing(item) => [item]
    case _ => []
  }

  function Reported(s: State): seq<Item> {
    if s.main.Completing? then s.completed + [s.main.item] else s.completed
  }

  function Sendable(items: seq<Item>, sendable: set<nat>): seq<Item> {
    if items == [] then []
    else
      var n := |items| - 1;
      Sendable(items[..n], sendable) + if items[n].channel in sendable then [items[n]] else []
  }

  predicate HoldsMutex(w: Writer) {
    w.Locked? || w.Approved? || w.Refused? || w.Enqueued?
  }

  predicate MainHoldsMutex(m: Main) {
    m.MainLocked? || m.Dequeued?
  }

  /** A writer has put an item into the queue and will set the signal. */
  predicate WillSignal(w: Writer) {
    w.Enqueued? || w.MustSignal?
  }

  predicate Draining(m: Main) {
    !m.Waiting? && !m.SawSignal?
  }

  /** The mutex has one holder, and the holder is inside its critical section. */
  ghost predicate MutexRight(s: State) {
    && (s.mutex.MainThread? <==> MainHoldsMutex(s.main))
    && (forall t: nat :: s.mutex == Thread(t) <==> HoldsMutex(Pc(s, t)))
  }

  /** Nothing is lost, repeated or reordered between the queue and the connection. */
  ghost predicate Conserved(s: State, sendable: set<nat>) {
    s.enqueued == s.completed + Taken(s) + s.queue && s.sent == Sendable(Reported(s), sendable)
  }

  /** Work in the queue is always noticed. */
  ghost predicate Noticed(s: State) {
    s.queue != [] ==> s.signal || Draining(s.main) || exists t: nat :: WillSignal(Pc(s, t))
  }

  ghost predicate Inv(s: State, sendable: set<nat>) {
    && MutexRight(s) && Conserved(s, sendable) && Noticed(s)
    && (s.main.MainWantsLock? || s.main.MainLocked? ==> s.queue != [])
    && (s.main.SawSignal? ==> s.signal)
  }

  lemma MutexKept(s: State, a: Action, sendable: set<nat>)
    requires Inv(s, sendable) && Enabled(s, a)
    ensures MutexRight(Step(s, a, sendable))
  {
    hide Conserved, Noticed;
    var s' := Step(s, a, sendable);
    forall t: nat
      ensures s'.mutex == Thread(t) <==> HoldsMutex(Pc(s', t))
    {
      assert s.mutex == Thread(t) <==> HoldsMutex(Pc(s, t));
    }
  }

  lemma NoticedKept(s: State, a: Action, sendable: set<nat>)
    requires Inv(s, sendable) && Enabled(s, a)
    ensures Noticed(Step(s, a, sendable))
  {
    hide Conserved, MutexRight;
    var s' := Step(s, a, sendable);
    if s'.queue != [] && !s'.signal && !Draining(s'.main) {
      if a.Enqueue? {
        assert WillSignal(Pc(s', a.t));
      } else {
        assert s.queue != [] && !s.signal && !Draining(s.main);
        var t: nat :| WillSignal(Pc(s, t));
        assert WillSignal(Pc(s', t));
      }
    }
  }

  lemma SendableOneMore(items: seq<Item>, item: Item, sendable: set<nat>)
    ensures Sendable(items + [item], sendable) == Sendable(items, sendable) + if item.channel in sendable then [item] else []
  {
    assert (items + [item])[..|items|] == items;
  }

  /** The steps that move an item along: into the queue, out of it, to the connection, back to its writer. */
  predicate Moves(a: Action) {
    a.Enqueue? || a.Dequeue? || a.Send? || a.Complete?
  }

  lemma EnqueueConserves(s: State, t: nat, sendable: set<nat>)
    requires Conserved(s, sendable) && Enabled(s, Enqueue(t))
    ensures Conserved(Step(s, Enqueue(t), sendable), sendable)
  {
    hide Sendable;
    ConcatAssoc(s.completed + Taken(s), s.queue, [s.writers[t].item]);
  }

  lemma DequeueConserves(s: State, sendable: set<nat>)
    requires Conserved(s, sendable) && Enabled(s, Dequeue)
    ensures Conserved(Step(s, Dequeue, sendable), sendable)
  {
    hide Sendable;
    assert s.queue == [s.queue[0]] + s.queue[1..];
    assert s.completed + [] == s.completed;
    ConcatAssoc(s.completed, [s.queue[0]], s.queue[1..]);
  }

  lemma SendConserves(s: State, sendable: set<nat>)
    requires Conserved(s, sendable) && Enabled(s, Send)
    ensures Conserved(Step(s, Send, sendable), sendable)
  {
    hide Sendable;
    SendableOneMore(s.completed, s.main.item, sendable);
  }

  lemma CompleteConserves(s: State, sendable: set<nat>)
    requires Conserved(s, sendable) && Enabled(s, Complete)
    ensures Conserved(Step(s, Complete, sendable), sendable)
  {
    hide Sendable;
    assert s.completed + [s.main.item] + [] == s.completed + [s.main.item];
  }

  /** Every other step leaves the items where they are. */
  lemma NothingMoves(s: State, a: Action, sendable: set<nat>)
    requires Conserved(s, sendable) && Enabled(s, a) && !Moves(a)
    ensures Conserved(Step(s, a, sendable), sendable)
  {
    hide Sendable;
    var s' := Step(s, a, sendable);
    assert s'.completed == s.completed && s'.queue == s.queue && s'.enqueued == s.enqueued && s'.sent == s.sent;
    assert Taken(s') == Taken(s) && Reported(s') == Reported(s);
  }

  lemma ConservedKept(s: State, a: Action, sendable: set<nat>)
    requires Inv(s, sendable) && Enabled(s, a)
    ensures Conserved(Step(s, a, sendable), sendable)
  {
    hide Conserved, Step, MutexRight, Noticed;
    match a
    case Enqueue(t) => EnqueueConserves(s, t, sendable);
    case Dequeue => DequeueConserves(s, sendable);
    case Send => SendConserves(s, sendable);
    case Complete => CompleteConserves(s, sendable);
    case _ => NothingMoves(s, a, sendable);
  }

  /** Every step keeps the invariant. */
  lemma StepKeepsInv(s: State, a: Action, sendable: set<nat>)
    requires Inv(s, sendable) && Enabled(s, a)
    ensures Inv(Step(s, a, sendable), sendable)
  {
    MutexKept(s, a, sendable);
    NoticedKept(s, a, sendable);
    ConservedKept(s, a, sendable);
    hide Noticed, MutexRight, Conserved;
    QueueKept(s, a, sendable);
  }

  /** While the main thread waits for the mutex nobody empties the queue under it. */
  lemma QueueKept(s: State, a: Action, sendable: set<nat>)
    requires Inv(s, sendable) && Enabled(s, a)
    ensures var s' := Step(s, a, sendable);
      && (s'.main.MainWantsLock? || s'.main.MainLocked? ==> s'.queue != [])
      && (s'.main.SawSignal? ==> s'.signal)
  {
    hide Noticed, MutexRight, Conserved;
  }

  lemma {:induction false} RunKeepsInv(s: State, run: seq<Action>, end: State, sendable: set<nat>)
    requires Inv(s, sendable) && Runs(s, run, end, sendable)
    ensures Inv(end, sendable)
    decreases |run|
  {
    hide Inv;
    if run != [] {
      StepKeepsInv(s, run[0], sendable);
      RunKeepsInv(Step(s, run[0], sendable), run[1..], end, sendable);
    }
  }

  lemma StartInv(sendable: set<nat>)
    ensures Inv(START, sendable)
  {
  }

  /**
   In every run of any number of writers: what was sent is, in order and once each, what was taken from the front of
   all that was ever queued, less the channels missing from the settings; and a non-empty queue is noticed.
   */
  lemma NoLostWrite(run: seq<Action>, s: State, sendable: set<nat>)
    requires Runs(START, run, s, sendable)
    ensures s.enqueued == s.completed + Taken(s) + s.queue
    ensures s.sent == Sendable(Reported(s), sendable)
    ensures s.queue != [] ==> s.signal || Draining(s.main) || exists t: nat :: WillSignal(Pc(s, t))
    ensures s.main.MainLocked? ==> s.queue != []
    ensures forall t: nat, u: nat :: HoldsMutex(Pc(s, t)) && HoldsMutex(Pc(s, u)) ==> t == u
    ensures MainHoldsMutex(s.main) ==> forall t: nat :: !HoldsMutex(Pc(s, t))
  {
    StartInv(sendable);
    RunKeepsInv(START, run, s, sendable);
    forall t: nat, u: nat | HoldsMutex(Pc(s, t)) && HoldsMutex(Pc(s, u))
      ensures t == u
    {
      assert s.mutex == Thread(t) && s.mutex == Thread(u);
    }
    forall t: nat | MainHoldsMutex(s.main)
      ensures !HoldsMutex(Pc(s, t))
    {
      assert s.mutex == Thread(t) <==> HoldsMutex(Pc(s, t));
    }
  }

  // ---------- Draining ----------

  ghost predicate Quiet(s: State) {
    forall t: nat :: Pc(s, t).Idle?
  }

  /** The main thread's next step. */
  function MainAction(s: State): Action {
    match s.main
    case Waiting => Poll
    case SawSignal => Clear
    case LoopTest => TestHead
    case MainWantsLock => MainLock
    case MainLocked => Dequeue
    case Dequeued(_) => MainUnlock
    case Sending(_) => Send
    case Completing(_) => Complete
  }

  function Work(s: State): int {
    8 * |s.queue| + match s.main
                    case Waiting => if s.queue == [] then 0 else 4
                    case SawSignal => 3
                    case LoopTest => 2
                    case MainWantsLock => 1
                    case MainLocked => 0
                    case Dequeued(_) => 7
                    case Sending(_) => 6
                    case Completing(_) => 5
  }

  /** With no writer inside a call, the main thread is never stuck and each of its steps brings it nearer to the end. */
  lemma MainAdvances(s: State, sendable: set<nat>)
    requires Inv(s, sendable) && Quiet(s) && !(s.main.Waiting? && s.queue == [])
    ensures Enabled(s, MainAction(s))
    ensures var s' := Step(s, MainAction(s), sendable);
      0 <= Work(s') < Work(s) && s'.writers == s.writers && s'.enqueued == s.enqueued
  {
    hide Conserved;
  }

  /** From every reachable state with no writer inside a call, the main thread alone empties the queue. */
  lemma {:induction false} Drains(s: State, sendable: set<nat>) returns (run: seq<Action>, end: State)
    requires Inv(s, sendable) && Quiet(s)
    ensures Runs(s, run, end, sendable) && end.queue == [] && end.main.Waiting?
    ensures end.completed == s.enqueued && end.sent == Sendable(s.enqueued, sendable)
    decreases Work(s)
  {
    hide MutexRight, Noticed, Work, Sendable;
    if s.main.Waiting? && s.queue == [] {
      assert s.completed + [] + [] == s.completed;
      run, end := [], s;
    } else {
      MainAdvances(s, sendable);
      var a := MainAction(s);
      StepKeepsInv(s, a, sendable);
      var s1 := Step(s, a, sendable);
      assert Quiet(s1) by { assert forall t: nat :: Pc(s1, t) == Pc(s, t); }
      var rest;
      rest, end := Drains(s1, sendable);
      run := [a] + rest;
      assert run[1..] == rest;
    }
  }

  // ---------- After the connection is closed ----------

  /** A run in which nobody connects again. */
  predicate NoConnect(run: seq<Action>) {
    forall i :: 0 <= i < |run| ==> !run[i].Connect?
  }

  lemma {:induction false} RunsJoin(s: State, run: seq<Action>, mid: State, more: seq<Action>, end: State, sendable: set<nat>)
    requires Runs(s, run, mid, sendable) && Runs(mid, more, end, sendable)
    ensures Runs(s, run + more, end, sendable)
    decreases |run|
  {
    if run == [] {
      assert run + more == more;
    } else {
      assert (run + more)[1..] == run[1..] + more;
      RunsJoin(Step(s, run[0], sendable), run[1..], mid, more, end, sendable);
    }
  }

  lemma RunsTwo(s: State, a: Action, b: Action, sendable: set<nat>)
    requires Enabled(s, a) && Enabled(Step(s, a, sendable), b)
    ensures Runs(s, [a, b], Step(Step(s, a, sendable), b, sendable), sendable)
  {
    var run := [a, b];
    assert run[1..] == [b] && run[1..][1..] == [];
  }

  lemma {:induction false} NoLateEnqueue(s: State, run: seq<Action>, end: State, sendable: set<nat>)
    requires !s.connected && (forall t: nat :: !Pc(s, t).Approved?) && NoConnect(run) && Runs(s, run, end, sendable)
    ensures end.enqueued == s.enqueued
    decreases |run|
  {
    if run != [] {
      var s1 := Step(s, run[0], sendable);
      assert !run[0].Connect?;
      forall t: nat
        ensures !Pc(s1, t).Approved?
      {
        assert !Pc(s, t).Approved?;
      }
      assert !(run[0].Enqueue?);
      NoLateEnqueue(s1, run[1..], end, sendable);
    }
  }

  /** Some run without a new connection puts another item into the queue. */
  ghost predicate CanEnqueueLate(s: State, sendable: set<nat>) {
    exists run: seq<Action>, end: State :: NoConnect(run) && Runs(s, run, end, sendable) && end.enqueued != s.enqueued
  }

  /**
   The second connection test and the enqueue are not one step: after the connection is closed the queue can still
   grow exactly when some writer had passed that test.
   */
  lemma LateEnqueueIff(s: State, sendable: set<nat>)
    requires !s.connected
    ensures CanEnqueueLate(s, sendable) <==> exists t: nat :: Pc(s, t).Approved?
  {
    if exists t: nat :: Pc(s, t).Approved? {
      var t: nat :| Pc(s, t).Approved?;
      var end := Step(s, Enqueue(t), sendable);
      var run := [Enqueue(t)];
      assert run[1..] == [];
      assert NoConnect(run) && Runs(s, run, end, sendable);
    } else if CanEnqueueLate(s, sendable) {
      var run: seq<Action>, end: State :|
        NoConnect(run) && Runs(s, run, end, sendable) && end.enqueued != s.enqueued;
      NoLateEnqueue(s, run, end, sendable);
    }
  }

  const LATE := Item(0, [7])

  function Mid(connected: bool, mutex: Holder, w: Writer): State {
    State(connected, {0}, mutex, false, [], map[1 := w], Waiting, [], [], [])
  }

  lemma EarlyWrite()
    ensures Runs(START, [Connect, Open(0)] + [StartWrite(1, LATE), TestOpen(1)], Mid(true, Nobody, WantsLock(LATE)), {0})
  {
    var ready := START.(connected := true, open := {0});
    RunsTwo(START, Connect, Open(0), {0});
    RunsTwo(ready, StartWrite(1, LATE), TestOpen(1), {0});
    RunsJoin(START, [Connect, Open(0)], ready, [StartWrite(1, LATE), TestOpen(1)], Mid(true, Nobody, WantsLock(LATE)), {0});
  }

  lemma CloseMeanwhile()
    ensures Runs(Mid(true, Nobody, WantsLock(LATE)), [Lock(1), Retest(1)] + [Disconnect, Poll], Mid(false, Thread(1), Approved(LATE)), {0})
  {
    var m, n := Mid(true, Nobody, WantsLock(LATE)), Mid(true, Thread(1), Approved(LATE));
    RunsTwo(m, Lock(1), Retest(1), {0});
    RunsTwo(n, Disconnect, Poll, {0});
    RunsJoin(m, [Lock(1), Retest(1)], n, [Disconnect, Poll], Mid(false, Thread(1), Approved(LATE)), {0});
  }

  /** Such a run from the start: the write succeeds, and the final check on closing has already found nothing. */
  lemma LeftBehind() returns (run: seq<Action>, s: State)
    ensures Runs(START, run, s, {0}) && !s.connected && Quiet(s) && s.main.Waiting?
    ensures s.queue == [LATE] && s.sent == []
  {
    hide Runs;
    EarlyWrite();
    CloseMeanwhile();
    s := LateWrite();
    var a, b, c := [Connect, Open(0)] + [StartWrite(1, LATE), TestOpen(1)], [Lock(1), Retest(1)] + [Disconnect, Poll],
      [Enqueue(1), Unlock(1)] + [Signal(1)];
    RunsJoin(START, a, Mid(true, Nobody, WantsLock(LATE)), b, Mid(false, Thread(1), Approved(LATE)), {0});
    RunsJoin(START, a + b, Mid(false, Thread(1), Approved(LATE)), c, s, {0});
    run := a + b + c;
  }

  lemma LateWrite() returns (s: State)
    ensures Runs(Mid(false, Thread(1), Approved(LATE)), [Enqueue(1), Unlock(1)] + [Signal(1)], s, {0})
    ensures s == State(false, {0}, Nobody, true, [LATE], map[1 := Idle], Waiting, [LATE], [], [])
  {
    var m := Mid(false, Thread(1), Approved(LATE));
    RunsTwo(m, Enqueue(1), Unlock(1), {0});
    var n := Step(Step(m, Enqueue(1), {0}), Unlock(1), {0});
    s := Step(n, Signal(1), {0});
    assert ([Signal(1)])[1..] == [];
    RunsJoin(m, [Enqueue(1), Unlock(1)], n, [Signal(1)], s, {0});
  }
}

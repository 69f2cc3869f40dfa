/**
 The channel manager's event mailbox as a state machine: any number of plug-in threads push events into one slot that
 a semaphore guards and set the manager's signal, which the writers of channel data set too. In each turn of its loop the
 main thread tests and clears the signal, then pops. Every test, signal and semaphore operation is one step.
 */
module EventMailbox {

  datatype Slot = Empty | Full(event: int)

  /** Where a pusher is inside the push call. */
  datatype Pusher =
    | Idle
    | TestsOpen(event: int)
    | WantsSlot(event: int)    // about to wait for the semaphore
    | HasSlot(event: int)      // has passed it
    | Approved(event: int)     // the second connection test has passed
    | Refused                  // the second test has failed
    | MustSignal               // the event is stored

  /** Where the main thread is inside the check for work and the pop call. */
  datatype Popper = Away | SawSignal | MustPop | Read(event: int) | Cleared(event: int)

  datatype State = State(
    connected: bool,
    open: set<nat>,
    semaphore: nat,
    slot: Slot,
    pushers: map<nat, Pusher>,
    popper: Popper,
    signal: bool,
    stored: seq<int>,          // every event put into the slot, ever
    popped: seq<int>)          // every event taken out of it

  datatype Action =
    | SetConnected(value: bool) | Open(channel: nat) | Close(channel: nat)
    | StartPush(t: nat, event: int) | TestOpen(t: nat, channel: nat) | Wait(t: nat) | Retest(t: nat) | Store(t: nat)
    | GiveBack(t: nat) | Signal(t: nat) | OtherSignal
    | CheckSignal | ClearSignal | ReadSlot | ClearSlot | Release

  function Pc(s: State, t: nat): Pusher {
    if t in s.pushers then s.pushers[t] else Idle
  }

  predicate Enabled(s: State, a: Action) {
    match a
    case SetConnected(_) => true
    case Open(c) => s.connected && c !in s.open
    case Close(c) => c in s.open
    case StartPush(t, _) => Pc(s, t).Idle?
    case TestOpen(t, _) => Pc(s, t).TestsOpen?
    case Wait(t) => Pc(s, t).WantsSlot? && s.semaphore > 0
    case Retest(t) => Pc(s, t).HasSlot?
    case Store(t) => Pc(s, t).Approved?
    case GiveBack(t) => Pc(s, t).Refused?
    case Signal(t) => Pc(s, t).MustSignal?
    case OtherSignal => true
    case CheckSignal => s.popper.Away?
    case ClearSignal => s.popper.SawSignal?
    case ReadSlot => s.popper.Away? || s.popper.MustPop?
    case ClearSlot => s.popper.Read?
    case Release => s.popper.Cleared?
  }

  function Move(s: State, t: nat, p: Pusher): State {
    s.(pushers := s.pushers[t := p])
  }

  function Step(s: State, a: Action): State
    requires Enabled(s, a)
  {
    match a
    case SetConnected(v) => s.(connected := v)
    case Open(c) => s.(open := s.open + {c})
    case Close(c) => s.(open := s.open - {c})
    case StartPush(t, e) => if s.connected then Move(s, t, TestsOpen(e)) else s
    case TestOpen(t, c) => Move(s, t, if c in s.open then WantsSlot(s.pushers[t].event) else Idle)
    case Wait(t) => Move(s, t, HasSlot(s.pushers[t].event)).(semaphore := s.semaphore - 1)
    case Retest(t) => Move(s, t, if s.connected then Approved(s.pushers[t].event) else Refused)
    case Store(t) =>
      var e := s.pushers[t].event;
      Move(s, t, MustSignal).(slot := Full(e), stored := s.stored + [e])
    case GiveBack(t) => Move(s, t, Idle).(semaphore := s.semaphore + 1)
    case Signal(t) => Move(s, t, Idle).(signal := true)
    case OtherSignal => s.(signal := true)
    case CheckSignal => s.(popper := if s.signal then SawSignal else MustPop)
    case ClearSignal => s.(signal := false, popper := MustPop)
    case ReadSlot => s.(popper := if s.slot.Full? then Read(s.slot.event) else Away)
    case ClearSlot => s.(slot := Empty, popper := Cleared(s.popper.event), popped := s.popped + [s.popper.event])
    case Release => s.(popper := Away, semaphore := s.semaphore + 1)
  }

  const START := State(false, {}, 1, Empty, map[], Away, false, [], [])

  ghost predicate Runs(s: State, run: seq<Action>, end: State)
    decreases |run|
  {
    if run == [] then s == end else Enabled(s, run[0]) && Runs(Step(s, run[0]), run[1..], end)
  }

  // ---------- What every run keeps ----------

  /** A pusher has taken the semaphore and has not stored its event or given the semaphore back. */
  predicate Between(p: Pusher) {
    p.HasSlot? || p.Approved? || p.Refused?
  }

  function Pushing(s: State): set<nat> {
    set t | t in s.pushers && Between(s.pushers[t])
  }

  /** The semaphore, the slot, the pushers inside and the popper inside share one token. */
  function Tokens(s: State): nat {
    s.semaphore + (if s.slot.Full? then 1 else 0) + |Pushing(s)| + (if s.popper.Cleared? then 1 else 0)
  }

  /** An event in the slot is always noticed. */
  ghost predicate Noticed(s: State) {
    s.slot.Full? ==> s.signal || s.popper.MustPop? || s.popper.Read? || exists t: nat :: Pc(s, t).MustSignal?
  }

  ghost predicate Inv(s: State) {
    && Tokens(s) == 1 && Noticed(s) && (s.popper.SawSignal? ==> s.signal)
    && (s.popper.Read? ==> s.slot == Full(s.popper.event))
    && s.stored == s.popped + if s.slot.Full? then [s.slot.event] else []
  }

  /** How a pusher's step changes the set of those inside. */
  lemma PushingMoved(s: State, t: nat, p: Pusher)
    ensures Between(p) ==> Pushing(Move(s, t, p)) == Pushing(s) + {t}
    ensures !Between(p) ==> Pushing(Move(s, t, p)) == Pushing(s) - {t}
    ensures t in Pushing(s) <==> Between(Pc(s, t))
  {
  }

  /** A pusher's step outside the critical part. */
  lemma OutsideKeepsTokens(s: State, a: Action)
    requires Inv(s) && Enabled(s, a) && (a.StartPush? || a.TestOpen? || a.Signal?)
    ensures Tokens(Step(s, a)) == 1
  {
    hide Pushing;
    PushingSame(s, Step(s, a), a.t);
  }

  lemma WaitKeepsTokens(s: State, t: nat)
    requires Inv(s) && Enabled(s, Wait(t))
    ensures Tokens(Step(s, Wait(t))) == 1
  {
    hide Pushing;
    PushingMoved(s, t, HasSlot(s.pushers[t].event));
    PushingOf(Move(s, t, HasSlot(s.pushers[t].event)), Step(s, Wait(t)));
  }

  lemma RetestKeepsTokens(s: State, t: nat)
    requires Inv(s) && Enabled(s, Retest(t))
    ensures Tokens(Step(s, Retest(t))) == 1
  {
    hide Pushing;
    PushingMoved(s, t, Step(s, Retest(t)).pushers[t]);
    assert Pushing(s) + {t} == Pushing(s);
  }

  /** A pusher leaves the critical part: its token goes to the slot or back to the semaphore. */
  lemma LeaveKeepsTokens(s: State, a: Action)
    requires Inv(s) && Enabled(s, a) && (a.Store? || a.GiveBack?)
    ensures Tokens(Step(s, a)) == 1
  {
    hide Pushing;
    TokensOne(s, a.t);
    var p := Step(s, a).pushers[a.t];
    PushingMoved(s, a.t, p);
    PushingOf(Move(s, a.t, p), Step(s, a));
    assert {a.t} - {a.t} == {};
  }

  lemma StepKeepsTokens(s: State, a: Action)
    requires Inv(s) && Enabled(s, a)
    ensures Tokens(Step(s, a)) == 1
  {
    match a
    case StartPush(_, _) => OutsideKeepsTokens(s, a);
    case TestOpen(_, _) => OutsideKeepsTokens(s, a);
    case Signal(_) => OutsideKeepsTokens(s, a);
    case Wait(t) => WaitKeepsTokens(s, t);
    case Retest(t) => RetestKeepsTokens(s, t);
    case Store(_) => LeaveKeepsTokens(s, a);
    case GiveBack(_) => LeaveKeepsTokens(s, a);
    case _ => OtherKeepsTokens(s, a);
  }

  /** The steps of the main thread, and those that touch neither the slot nor the semaphore. */
  predicate MovesNoPusher(a: Action) {
    || a.SetConnected? || a.Open? || a.Close? || a.OtherSignal?
    || a.CheckSignal? || a.ClearSignal? || a.ReadSlot? || a.ClearSlot? || a.Release?
  }

  lemma OtherKeepsTokens(s: State, a: Action)
    requires Inv(s) && Enabled(s, a) && MovesNoPusher(a)
    ensures Tokens(Step(s, a)) == 1
  {
    hide Pushing;
    PushingOf(s, Step(s, a));
  }

  lemma PushingOf(s: State, s': State)
    requires s.pushers == s'.pushers
    ensures Pushing(s) == Pushing(s')
  {
  }

  /** A step of a pusher outside, which stays outside. */
  lemma PushingSame(s: State, s': State, t: nat)
    requires !Between(Pc(s, t)) && (s'.pushers == s.pushers || (t in s'.pushers && !Between(s'.pushers[t]) && s'.pushers == s.pushers[t := s'.pushers[t]]))
    ensures Pushing(s') == Pushing(s)
  {
  }

  /** A pusher inside has the only token. */
  lemma TokensOne(s: State, t: nat)
    requires Inv(s) && Between(Pc(s, t))
    ensures Pushing(s) == {t} && s.slot.Empty? && s.semaphore == 0 && !s.popper.Cleared?
  {
    assert t in Pushing(s);
    assert Pushing(s) == {t} + (Pushing(s) - {t});
    assert |Pushing(s)| == 1 + |Pushing(s) - {t}|;
    assert Pushing(s) - {t} == {};
  }

  lemma NoticedKept(s: State, a: Action)
    requires Inv(s) && Enabled(s, a)
    ensures Noticed(Step(s, a))
  {
    var s' := Step(s, a);
    if a.Store? {
      assert Pc(s', a.t).MustSignal?;
    } else if s'.slot.Full? && !s'.signal && !s'.popper.MustPop? && !s'.popper.Read? {
      assert s.slot.Full? && !s.signal && !s.popper.MustPop? && !s.popper.Read?;
      var t: nat :| Pc(s, t).MustSignal?;
      assert Pc(s', t).MustSignal?;
    }
  }

  lemma StepKeepsInv(s: State, a: Action)
    requires Inv(s) && Enabled(s, a)
    ensures Inv(Step(s, a))
  {
    StepKeepsTokens(s, a);
    NoticedKept(s, a);
    if a.Store? {
      TokensOne(s, a.t);
    }
    hide Tokens, Noticed;
    match a
    case ClearSlot => assert s.popped + [s.popper.event] + [] == s.popped + [s.popper.event];
    case _ =>
  }

  lemma {:induction false} RunKeepsInv(s: State, run: seq<Action>, end: State)
    requires Inv(s) && Runs(s, run, end)
    ensures Inv(end)
    decreases |run|
  {
    hide Inv;
    if run != [] {
      StepKeepsInv(s, run[0]);
      RunKeepsInv(Step(s, run[0]), run[1..], end);
    }
  }

  /**
   In every run of any number of pushers there is exactly one token; an event is only stored into an empty slot, so
   none is overwritten; the events popped are, in order and once each, the events stored, up to the one in the slot;
   and an event in the slot is signalled, about to be signalled, or about to be popped.
   */
  lemma EveryEventOnce(run: seq<Action>, s: State)
    requires Runs(START, run, s)
    ensures Tokens(s) == 1
    ensures forall t: nat :: Enabled(s, Store(t)) ==> s.slot.Empty?
    ensures s.stored == s.popped + if s.slot.Full? then [s.slot.event] else []
    ensures s.popper.Read? ==> s.slot == Full(s.popper.event)
    ensures s.slot.Full? ==> s.signal || s.popper.MustPop? || s.popper.Read? || exists t: nat :: Pc(s, t).MustSignal?
  {
    assert Pushing(START) == {};
    RunKeepsInv(START, run, s);
    forall t: nat | Enabled(s, Store(t))
      ensures s.slot.Empty?
    {
      TokensOne(s, t);
    }
  }

  // ---------- Popping ----------

  /** The main thread's next step. */
  function MainAction(s: State): Action {
    match s.popper
    case Away => CheckSignal
    case SawSignal => ClearSignal
    case MustPop => ReadSlot
    case Read(_) => ClearSlot
    case Cleared(_) => Release
  }

  function StepsToPop(p: Popper): nat {
    match p
    case Away => 4
    case SawSignal => 3
    case MustPop => 2
    case Read(_) => 1
    case Cleared(_) => 0
  }

  /**
   From every reachable state with an event in the slot and no pusher about to signal, the main thread is awake or the
   signal is set to wake it, and it alone pops the event, within four steps.
   */
  lemma {:induction false} Pops(s: State) returns (run: seq<Action>, end: State)
    requires Inv(s) && s.slot.Full? && forall t: nat :: !Pc(s, t).MustSignal?
    ensures s.signal || s.popper.MustPop? || s.popper.Read?
    ensures Runs(s, run, end) && |run| <= StepsToPop(s.popper) && end.popped == s.stored && end.slot.Empty?
    decreases StepsToPop(s.popper)
  {
    hide Tokens;
    var a := MainAction(s);
    assert !s.popper.Cleared? by { TokenInSlot(s); }
    var s1 := Step(s, a);
    if s.popper.Read? {
      run, end := [a], s1;
      assert run[1..] == [];
    } else {
      StepKeepsInv(s, a);
      assert forall t: nat :: Pc(s1, t) == Pc(s, t);
      var rest;
      rest, end := Pops(s1);
      run := [a] + rest;
      assert run[1..] == rest;
    }
  }

  lemma TokenInSlot(s: State)
    requires Tokens(s) == 1 && s.slot.Full?
    ensures !s.popper.Cleared?
  {
  }
}

/** What every run of the connection sequence does, from the connect request to the client info. */
module JoinHandshake {
  import opened JoinSpec

  /** The stages of the sequence. A target is the user channel, the global channel or a static channel, in that order. */
  datatype Stage =
    | Connecting | Responding | Erecting | Attaching | Confirming
    | Requesting(target: nat) | Granting(target: nat)
    | Informing | Done

  predicate Valid(n: nat, st: Stage) {
    (st.Requesting? || st.Granting?) ==> st.target < n + 2
  }

  function Next(n: nat, st: Stage): Stage {
    match st
    case Connecting => Responding
    case Responding => Erecting
    case Erecting => Attaching
    case Attaching => Confirming
    case Confirming => Requesting(0)
    case Requesting(j) => Granting(j)
    case Granting(j) => if j + 1 < n + 2 then Requesting(j + 1) else Informing
    case Informing => Done
    case Done => Done
  }

  /** The number of a target. */
  function Id(target: nat): nat {
    if target == 0 then USER else if target == 1 then GLOBAL else GLOBAL + target - 1
  }

  /** The static channels when k targets have been joined. */
  function Channels(n: nat, k: nat): (r: seq<Channel>)
    ensures |r| == n
  {
    seq(n, i requires 0 <= i < n => Channel(GLOBAL + 1 + i, i + 2 < k))
  }

  /** A side that has joined the first k targets. */
  function Joining(phase: Phase, n: nat, k: nat): Party {
    Party(phase, USER, k > 0, k > 1, Channels(n, k))
  }

  function ServerPhase(n: nat, k: nat): Phase {
    if k == n + 2 then McsChannelJoin else McsAttachUser
  }

  /** The whole state at a stage. */
  function At(n: nat, st: Stage): World {
    var begin := Start(n);
    var named := begin.client.(channels := Channels(n, 0));
    var listening := begin.server.(channels := Channels(n, 0));
    match st
    case Connecting => begin
    case Responding => World(begin.client, listening.(phase := McsConnect), [], [ConnectResponse(AssignedIds(n))])
    case Erecting => World(named.(phase := McsAttachUser), listening.(phase := McsConnect), [ErectDomainRequest, AttachUserRequest], [])
    case Attaching => World(named.(phase := McsAttachUser), listening.(phase := McsErectDomain), [AttachUserRequest], [])
    case Confirming => World(named.(phase := McsAttachUser), Joining(McsAttachUser, n, 0), [], [AttachUserConfirm(USER)])
    case Requesting(j) => World(Joining(McsChannelJoin, n, j), Joining(McsAttachUser, n, j), [JoinRequest(USER, Id(j))], [])
    case Granting(j) => World(Joining(McsChannelJoin, n, j), Joining(ServerPhase(n, j + 1), n, j + 1), [], [JoinConfirm(USER, Id(j))])
    case Informing => World(Joining(License, n, n + 2), Joining(McsChannelJoin, n, n + 2), [ClientInfo], [])
    case Done => World(Joining(License, n, n + 2), Joining(License, n, n + 2), [], [])
  }

  /** Whose turn it is. */
  function Turn(st: Stage): Side {
    if st.Responding? || st.Confirming? || st.Granting? then ClientActs else ServerActs
  }

  // ---------- Single steps ----------

  lemma EarlyStep(n: nat, st: Stage)
    requires n <= MAX_CHANNELS && (st.Connecting? || st.Responding? || st.Erecting? || st.Attaching? || st.Confirming?)
    ensures Enabled(At(n, st), Turn(st)) && Step(At(n, st), Turn(st)) == At(n, Next(n, st))
  {
    match st
    case Connecting =>
      assert Step(At(n, st), ServerActs).server.channels == Channels(n, 0);
    case Responding =>
      assert Step(At(n, st), ClientActs).client.channels == Channels(n, 0);
    case _ =>
  }

  /** The server joins target j and nothing else. */
  lemma ServerJoins(n: nat, j: nat)
    requires j < n + 2
    ensures ServerJoin(Joining(McsAttachUser, n, j), Id(j)) == Joining(ServerPhase(n, j + 1), n, j + 1)
  {
    var marked := Marked(Channels(n, j), Id(j));
    forall i | 0 <= i < n
      ensures marked[i] == Channels(n, j + 1)[i]
    {
    }
    assert marked == Channels(n, j + 1);
    if j + 1 < n + 2 && j + 1 > 1 {
      assert !Channels(n, j + 1)[j - 1].joined;
    }
  }

  /** The client takes the confirm of target j and asks for the next one. */
  lemma ClientJoins(n: nat, j: nat)
    requires j < n + 2
    ensures ClientConfirm(Joining(McsChannelJoin, n, j), Id(j))
         == if j + 1 < n + 2 then Reply(Joining(McsChannelJoin, n, j + 1), [JoinRequest(USER, Id(j + 1))])
            else Reply(Joining(License, n, n + 2), [ClientInfo])
  {
    var channels := Channels(n, j);
    if j < 2 {
      assert Channels(n, j) == Channels(n, j + 1);
    } else {
      assert !channels[j - 2].joined;
      var i := FirstUnjoined(channels);
      assert i == j - 2;
      assert channels[i := Channel(Id(j), true)] == Channels(n, j + 1);
    }
  }

  /** From every stage exactly one side can act, and its step leads to the next stage. */
  lemma OneStep(n: nat, st: Stage)
    requires n <= MAX_CHANNELS && Valid(n, st) && !st.Done?
    ensures forall side :: Enabled(At(n, st), side) <==> side == Turn(st)
    ensures Step(At(n, st), Turn(st)) == At(n, Next(n, st)) && Valid(n, Next(n, st))
  {
    hide ServerJoin, ClientConfirm, Joining;
    match st
    case Requesting(j) => ServerJoins(n, j); JoiningParts(McsAttachUser, n, j);
    case Granting(j) => ClientJoins(n, j); JoiningParts(McsChannelJoin, n, j);
    case Informing => JoiningParts(McsChannelJoin, n, n + 2); JoiningParts(License, n, n + 2);
    case Done =>
    case _ => EarlyStep(n, st);
  }

  lemma JoiningParts(phase: Phase, n: nat, k: nat)
    ensures Joining(phase, n, k).phase == phase && Joining(phase, n, k).user == USER
    ensures Joining(phase, n, k).(phase := License) == Joining(License, n, k)
  {
  }

  // ---------- Runs ----------

  function StageAfter(n: nat, st: Stage, k: nat): Stage
    decreases k
  {
    if k == 0 then st else StageAfter(n, Next(n, st), k - 1)
  }

  /** Every run goes through the stages one by one, whoever is scheduled. */
  lemma {:induction false} RunsThroughStages(n: nat, st: Stage, run: seq<Side>, end: World)
    requires n <= MAX_CHANNELS && Valid(n, st) && Runs(At(n, st), run, end)
    ensures Valid(n, StageAfter(n, st, |run|)) && end == At(n, StageAfter(n, st, |run|))
    decreases |run|
  {
    hide At;
    if run != [] {
      if st.Done? {
        NothingLeft(n);
      } else {
        OneStep(n, st);
        assert run[0] == Turn(st);
        RunsThroughStages(n, Next(n, st), run[1..], end);
      }
    }
  }

  lemma NothingLeft(n: nat)
    ensures forall side :: !Enabled(At(n, Done), side)
  {
  }

  function Steps(n: nat, st: Stage): nat
    requires Valid(n, st)
  {
    match st
    case Connecting => 2 * n + 10
    case Responding => 2 * n + 9
    case Erecting => 2 * n + 8
    case Attaching => 2 * n + 7
    case Confirming => 2 * n + 6
    case Requesting(j) => 2 * (n + 2 - j) + 1
    case Granting(j) => 2 * (n + 2 - j)
    case Informing => 1
    case Done => 0
  }

  lemma {:induction false} RunLength(n: nat, st: Stage, run: seq<Side>, end: World)
    requires n <= MAX_CHANNELS && Valid(n, st) && Runs(At(n, st), run, end)
    ensures |run| <= Steps(n, st)
    ensures |run| == Steps(n, st) ==> end == At(n, Done)
    ensures |run| < Steps(n, st) ==> exists side :: Enabled(end, side)
    decreases |run|
  {
    hide At;
    if run == [] {
      if !st.Done? {
        OneStep(n, st);
        assert Enabled(end, Turn(st));
      }
    } else {
      if st.Done? {
        NothingLeft(n);
      } else {
        OneStep(n, st);
        assert run[0] == Turn(st);
        RunLength(n, Next(n, st), run[1..], end);
      }
    }
  }

  // ---------- The properties ----------

  function Joins(ms: seq<Message>): nat {
    if ms == [] then 0 else (if ms[0].JoinRequest? || ms[0].JoinConfirm? then 1 else 0) + Joins(ms[1..])
  }

  /** The joined flags of a side form a prefix of user, global, first channel, second channel and so on. */
  predicate JoinedPrefix(p: Party) {
    && (p.globalJoined ==> p.userJoined)
    && (forall i :: 0 <= i < |p.channels| && p.channels[i].joined ==> p.globalJoined)
    && (forall i, j :: 0 <= i < j < |p.channels| && p.channels[j].joined ==> p.channels[i].joined)
  }

  predicate JoinedSubset(c: Party, s: Party) {
    && (c.userJoined ==> s.userJoined) && (c.globalJoined ==> s.globalJoined)
    && (forall i :: 0 <= i < |c.channels| && c.channels[i].joined ==> i < |s.channels| && s.channels[i].joined && s.channels[i].id == c.channels[i].id)
  }

  predicate EverythingJoined(p: Party, n: nat) {
    p.userJoined && p.globalJoined && |p.channels| == n && AllJoined(p.channels)
  }

  predicate Safe(w: World, n: nat) {
    && w.World?
    && Joins(w.toServer) + Joins(w.toClient) <= 1
    && JoinedPrefix(w.client) && JoinedPrefix(w.server) && JoinedSubset(w.client, w.server)
    && (w.client.phase.License? ==> EverythingJoined(w.client, n) && EverythingJoined(w.server, n))
  }

  lemma StageSafe(n: nat, st: Stage)
    requires Valid(n, st)
    ensures Safe(At(n, st), n)
  {
    assert forall m: Message :: Joins([m]) <= 1;
    assert Joins([ErectDomainRequest, AttachUserRequest]) == 0;
  }

  /**
   From a fresh start with at most sixteen channels, every state of every run is safe: no handler fails, at most one
   join is outstanding, joined flags form a prefix, the client never believes more than the server, and the client
   reaches the licence phase only when all channels are joined on both sides. No run is longer than 2n + 10 steps, a
   shorter one can always go on, and one of that length ends with both sides in the licence phase.
   */
  lemma Handshake(n: nat, run: seq<Side>, end: World)
    requires n <= 16 && Runs(Start(n), run, end)
    ensures Safe(end, n)
    ensures |run| <= 2 * n + 10
    ensures |run| < 2 * n + 10 ==> exists side :: Enabled(end, side)
    ensures |run| == 2 * n + 10 ==> end.client.phase.License? && end.server.phase.License? && EverythingJoined(end.server, n)
  {
    hide Safe, Runs;
    RunsThroughStages(n, Connecting, run, end);
    RunLength(n, Connecting, run, end);
    StageSafe(n, StageAfter(n, Connecting, |run|));
  }

  /** With more channels than the server takes, its first step breaks the connection. */
  lemma TooManyChannels(n: nat, run: seq<Side>, end: World)
    requires n > 16 && Runs(Start(n), run, end) && run != []
    ensures end == Broken
  {
    assert run[0] == ServerActs;
    assert Step(Start(n), ServerActs) == Broken;
    assert Runs(Broken, run[1..], end);
  }

  // ---------- The transcript ----------

  /** The messages handled in a run, in order. */
  function Heard(w: World, run: seq<Side>): seq<Message>
    decreases |run|
  {
    if run == [] || !Enabled(w, run[0]) then []
    else [if run[0].ClientActs? then w.toClient[0] else w.toServer[0]] + Heard(Step(w, run[0]), run[1..])
  }

  /** Message number i of the sequence: the user is 1002, the global channel 1003, and the static channels follow. */
  function Line(n: nat, i: nat): Message {
    if i == 0 then ConnectInitial(n)
    else if i == 1 then ConnectResponse(seq(n, k => 1004 + k))
    else if i == 2 then ErectDomainRequest
    else if i == 3 then AttachUserRequest
    else if i == 4 then AttachUserConfirm(1002)
    else if i >= 2 * n + 9 then ClientInfo
    else if i % 2 == 1 then JoinRequest(1002, 1002 + (i - 5) / 2)
    else JoinConfirm(1002, 1002 + (i - 6) / 2)
  }

  lemma HeadLine(n: nat, st: Stage)
    requires n <= 16 && Valid(n, st) && !st.Done?
    ensures var w := At(n, st);
      Enabled(w, Turn(st)) && Line(n, 2 * n + 10 - Steps(n, st)) == if Turn(st).ClientActs? then w.toClient[0] else w.toServer[0]
  {
    hide Joining, Channels;
    if st.Responding? {
      assert AssignedIds(n) == seq(n, k => 1004 + k);
    }
  }

  lemma StepsDown(n: nat, st: Stage)
    requires Valid(n, st) && !st.Done?
    ensures Valid(n, Next(n, st)) && Steps(n, Next(n, st)) == Steps(n, st) - 1 && Steps(n, st) <= 2 * n + 10
  {
  }

  lemma {:induction false} HeardFrom(n: nat, st: Stage, run: seq<Side>, end: World, k: nat)
    requires n <= 16 && Valid(n, st) && Runs(At(n, st), run, end) && k < |run|
    ensures |Heard(At(n, st), run)| == |run| && 2 * n + 10 - Steps(n, st) + k >= 0
    ensures Heard(At(n, st), run)[k] == Line(n, 2 * n + 10 - Steps(n, st) + k)
    decreases |run|
  {
    hide At, Line, Step, Steps, Next, Turn, Enabled;
    if st.Done? {
      NothingLeft(n);
    } else {
      OneStep(n, st);
      HeadLine(n, st);
      StepsDown(n, st);
      assert run[0] == Turn(st);
      if |run| > 1 {
        HeardFrom(n, Next(n, st), run[1..], end, if k > 0 then k - 1 else 0);
      }
    }
  }

  /** In every run, message after message is the one of the sequence. */
  lemma Transcript(n: nat, run: seq<Side>, end: World, k: nat)
    requires n <= 16 && Runs(Start(n), run, end) && k < |run|
    ensures |Heard(Start(n), run)| == |run| && Heard(Start(n), run)[k] == Line(n, k)
  {
    hide Line, Heard, Runs;
    HeardFrom(n, Connecting, run, end, k);
  }

  // ---------- Messages out of turn ----------

  /** The client takes no confirm but the one of the channel it has asked for. */
  lemma WrongConfirm(n: nat, j: nat, channel: nat)
    requires j < n + 2 && channel != 1002 + j
    ensures ClientConfirm(Joining(McsChannelJoin, n, j), channel) == Fail
  {
    var channels := Channels(n, j);
    if j >= 2 {
      assert !channels[j - 2].joined;
      assert FirstUnjoined(channels) == j - 2;
    }
  }

  /** The server takes no join of another user, and confirms an unknown channel without joining anything. */
  lemma StrangeJoin(n: nat, j: nat, user: nat, channel: nat)
    requires j < n + 2
    ensures user != 1002 ==> ServerHandle(Joining(McsAttachUser, n, j), JoinRequest(user, channel)) == Fail
    ensures (channel < 1002 || channel > 1003 + n) ==>
      ServerHandle(Joining(McsAttachUser, n, j), JoinRequest(1002, channel)) == Reply(Joining(McsAttachUser, n, j), [JoinConfirm(1002, channel)])
  {
    if channel < 1002 || channel > 1003 + n {
      assert Marked(Channels(n, j), channel) == Channels(n, j);
      assert j >= 2 ==> !Channels(n, j)[j - 2].joined;
    }
  }

  /** In each phase each side takes one kind of message only. */
  lemma OutOfTurn(p: Party, m: Message)
    ensures p.phase.Nego? && !m.ConnectResponse? ==> ClientHandle(p, m) == Fail
    ensures p.phase.McsAttachUser? && !m.AttachUserConfirm? ==> ClientHandle(p, m) == Fail
    ensures p.phase.McsChannelJoin? && !m.JoinConfirm? ==> ClientHandle(p, m) == Fail
    ensures p.phase.McsConnect? || p.phase.McsErectDomain? || p.phase.License? ==> ClientHandle(p, m) == Fail
    ensures p.phase.Nego? && !m.ConnectInitial? ==> ServerHandle(p, m) == Fail
    ensures p.phase.McsConnect? && !m.ErectDomainRequest? ==> ServerHandle(p, m) == Fail
    ensures p.phase.McsErectDomain? && !m.AttachUserRequest? ==> ServerHandle(p, m) == Fail
    ensures p.phase.McsAttachUser? && !m.JoinRequest? ==> ServerHandle(p, m) == Fail
    ensures p.phase.McsChannelJoin? && !m.ClientInfo? ==> ServerHandle(p, m) == Fail
    ensures p.phase.License? ==> ServerHandle(p, m) == Fail
  {
  }
}

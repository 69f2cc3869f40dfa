/**
 The MCS connection sequence (section 1.3.1.1 of [MS-RDPBCGR]) between a client and a server over two FIFO links:
 channel numbers are assigned, a user is attached, and the user channel, the global channel and the n static channels
 are joined one after another. Each handler is one step.
 */
module JoinSpec {

  const GLOBAL: nat := 1003
  const USER: nat := 1002
  const MAX_CHANNELS: nat := 16

  datatype Message =
    | ConnectInitial(count: nat)
    | ConnectResponse(ids: seq<nat>)
    | ErectDomainRequest
    | AttachUserRequest
    | AttachUserConfirm(user: nat)
    | JoinRequest(user: nat, channel: nat)
    | JoinConfirm(user: nat, channel: nat)
    | ClientInfo

  datatype Phase = Nego | McsConnect | McsErectDomain | McsAttachUser | McsChannelJoin | License

  datatype Channel = Channel(id: nat, joined: bool)

  /** One side: its connection phase, its user number, and what it believes to be joined. */
  datatype Party = Party(phase: Phase, user: nat, userJoined: bool, globalJoined: bool, channels: seq<Channel>)

  /** What a handler returns: the new state and the messages sent, or failure. */
  datatype Reply = Reply(party: Party, sent: seq<Message>) | Fail

  // ---------- The client ----------

  function FirstUnjoined(channels: seq<Channel>): (i: nat)
    ensures i <= |channels| && (i < |channels| ==> !channels[i].joined)
    ensures forall j :: 0 <= j < i ==> channels[j].joined
  {
    if channels == [] || !channels[0].joined then 0 else 1 + FirstUnjoined(channels[1..])
  }

  /** Once nothing is left to join, the client sends its info and moves on. */
  function Proceed(c: Party, sent: seq<Message>, allJoined: bool): Reply {
    if c.userJoined && c.globalJoined && allJoined then Reply(c.(phase := License), sent + [ClientInfo]) else Reply(c, sent)
  }

  function ClientConfirm(c: Party, channel: nat): Reply {
    if !c.userJoined then
      if channel != c.user then Fail
      else Proceed(c.(userJoined := true), [JoinRequest(c.user, GLOBAL)], true)
    else if !c.globalJoined then
      if channel != GLOBAL then Fail
      else
        Proceed(c.(globalJoined := true), if |c.channels| > 0 then [JoinRequest(c.user, c.channels[0].id)] else [], |c.channels| == 0)
    else
      var i := FirstUnjoined(c.channels);
      if i < |c.channels| && c.channels[i].id != channel then Fail
      else
        var channels := if i < |c.channels| then c.channels[i := Channel(channel, true)] else c.channels;
        Proceed(c.(channels := channels), if i + 1 < |channels| then [JoinRequest(c.user, channels[i + 1].id)] else [],
                i + 1 >= |channels|)
  }

  function WithIds(channels: seq<Channel>, ids: seq<nat>): (r: seq<Channel>)
    ensures |r| == |channels|
  {
    seq(|channels|, i requires 0 <= i < |channels| => if i < |ids| then channels[i].(id := ids[i]) else channels[i])
  }

  function ClientHandle(c: Party, m: Message): Reply {
    match c.phase
    case Nego =>
      if m.ConnectResponse? then
        Reply(c.(phase := McsAttachUser, channels := WithIds(c.channels, m.ids)), [ErectDomainRequest, AttachUserRequest])
      else Fail
    case McsAttachUser =>
      if m.AttachUserConfirm? then Reply(c.(phase := McsChannelJoin, user := m.user), [JoinRequest(m.user, m.user)]) else Fail
    case McsChannelJoin => if m.JoinConfirm? then ClientConfirm(c, m.channel) else Fail
    case _ => Fail
  }

  // ---------- The server ----------

  /** The ids a server gives to n channels. */
  function AssignedIds(n: nat): (ids: seq<nat>)
    ensures |ids| == n
  {
    seq(n, i => GLOBAL + 1 + i)
  }

  function Marked(channels: seq<Channel>, channel: nat): (r: seq<Channel>)
    ensures |r| == |channels|
  {
    seq(|channels|, i requires 0 <= i < |channels| => if channels[i].id == channel then channels[i].(joined := true) else channels[i])
  }

  predicate AllJoined(channels: seq<Channel>) {
    forall i :: 0 <= i < |channels| ==> channels[i].joined
  }

  function ServerJoin(s: Party, channel: nat): Party {
    var t := Party(s.phase, s.user, s.userJoined || channel == s.user,
                   s.globalJoined || (channel != s.user && channel == GLOBAL), Marked(s.channels, channel));
    if t.userJoined && t.globalJoined && AllJoined(t.channels) then t.(phase := McsChannelJoin) else t
  }

  function ServerHandle(s: Party, m: Message): Reply {
    match s.phase
    case Nego =>
      if m.ConnectInitial? && m.count <= MAX_CHANNELS then
        var ids := AssignedIds(m.count);
        Reply(s.(phase := McsConnect, channels := seq(m.count, i requires 0 <= i < m.count => Channel(ids[i], false))), [ConnectResponse(ids)])
      else Fail
    case McsConnect => if m.ErectDomainRequest? then Reply(s.(phase := McsErectDomain), []) else Fail
    case McsErectDomain =>
      if m.AttachUserRequest? then Reply(s.(phase := McsAttachUser, user := USER), [AttachUserConfirm(USER)]) else Fail
    case McsAttachUser =>
      if m.JoinRequest? && m.user == s.user then Reply(ServerJoin(s, m.channel), [JoinConfirm(s.user, m.channel)]) else Fail
    case McsChannelJoin => if m.ClientInfo? then Reply(s.(phase := License), []) else Fail
    case License => Fail
  }

  // ---------- Both, and the links between them ----------

  datatype World = World(client: Party, server: Party, toServer: seq<Message>, toClient: seq<Message>) | Broken

  datatype Side = ClientActs | ServerActs

  predicate Enabled(w: World, side: Side) {
    w.World? && if side.ClientActs? then w.toClient != [] else w.toServer != []
  }

  function Step(w: World, side: Side): World
    requires Enabled(w, side)
  {
    match side
    case ClientActs =>
      (match ClientHandle(w.client, w.toClient[0])
       case Fail => Broken
       case Reply(c, sent) => World(c, w.server, w.toServer + sent, w.toClient[1..]))
    case ServerActs =>
      (match ServerHandle(w.server, w.toServer[0])
       case Fail => Broken
       case Reply(s, sent) => World(w.client, s, w.toServer[1..], w.toClient + sent))
  }

  /** A client with n channels has just sent its connect request. */
  function Start(n: nat): World {
    World(Party(Nego, 0, false, false, seq(n, _ => Channel(0, false))), Party(Nego, 0, false, false, []), [ConnectInitial(n)], [])
  }

  ghost predicate Runs(w: World, run: seq<Side>, end: World)
    decreases |run|
  {
    if run == [] then w == end else Enabled(w, run[0]) && Runs(Step(w, run[0]), run[1..], end)
  }
}

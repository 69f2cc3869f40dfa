/** The two handlers of the join sequence that walk the channel list, as methods on one side of the connection. */
module JoinHandlers {
  import opened JoinSpec

  class Rdp {
    var phase: Phase
    var userId: nat
    var userChannelJoined: bool
    var globalChannelJoined: bool
    var channels: seq<Channel>

    function View(): Party
      reads this
    {
      Party(phase, userId, userChannelJoined, globalChannelJoined, channels)
    }

    constructor (names: nat)
      ensures View() == Party(Nego, 0, false, false, seq(names, _ => Channel(0, false)))
    {
      phase, userId, userChannelJoined, globalChannelJoined := Nego, 0, false, false;
      channels := seq(names, _ => Channel(0, false));
    }

    /** The client takes a join confirm: only for the channel it asked for, and then asks for the next. */
    method ClientJoinConfirm(channelId: nat) returns (ok: bool, sent: seq<Message>)
      modifies this
      ensures ok ==> ClientConfirm(old(View()), channelId) == Reply(View(), sent)
      ensures !ok ==> ClientConfirm(old(View()), channelId) == Fail && View() == old(View()) && sent == []
    {
      var allJoined := true;
      sent := [];
      if !userChannelJoined {
        if channelId != userId {
          return false, [];
        }
        userChannelJoined := true;
        sent := [JoinRequest(userId, GLOBAL)];
      } else if !globalChannelJoined {
        if channelId != GLOBAL {
          return false, [];
        }
        globalChannelJoined := true;
        if |channels| > 0 {
          sent := [JoinRequest(userId, channels[0].id)];
          allJoined := false;
        }
      } else {
        var i := 0;
        while i < |channels| && channels[i].joined
          invariant i <= |channels| && forall j :: 0 <= j < i ==> channels[j].joined
          modifies {}
        {
          i := i + 1;
        }
        if i < |channels| {
          if channels[i].id != channelId {
            return false, [];
          }
          channels := channels[i := Channel(channelId, true)];
        }
        if i + 1 < |channels| {
          sent := [JoinRequest(userId, channels[i + 1].id)];
          allJoined := false;
        }
      }
      if userChannelJoined && globalChannelJoined && allJoined {
        sent := sent + [ClientInfo];
        phase := License;
      }
      ok := true;
    }

    /** The server confirms every request of its user, marks the channel, and notices when all are joined. */
    method ServerJoinRequest(user: nat, channelId: nat) returns (ok: bool, sent: seq<Message>)
      modifies this
      ensures ok == (user == old(userId))
      ensures ok ==> View() == ServerJoin(old(View()), channelId) && sent == [JoinConfirm(old(userId), channelId)]
      ensures !ok ==> View() == old(View()) && sent == []
    {
      if user != userId {
        return false, [];
      }
      ok, sent := true, [JoinConfirm(userId, channelId)];
      if channelId == userId {
        userChannelJoined := true;
      } else if channelId == GLOBAL {
        globalChannelJoined := true;
      }
      ghost var was := channels;
      var allJoined := true;
      var i := 0;
      while i < |channels|
        invariant i <= |channels| == |was| && phase == old(phase) && userId == old(userId)
        invariant userChannelJoined == (old(userChannelJoined) || channelId == userId)
        invariant globalChannelJoined == (old(globalChannelJoined) || (channelId != userId && channelId == GLOBAL))
        invariant forall k :: 0 <= k < i ==> channels[k] == Marked(was, channelId)[k]
        invariant forall k :: i <= k < |was| ==> channels[k] == was[k]
        invariant allJoined <==> forall k :: 0 <= k < i ==> channels[k].joined
      {
        if channels[i].id == channelId {
          channels := channels[i := channels[i].(joined := true)];
        }
        if !channels[i].joined {
          allJoined := false;
        }
        i := i + 1;
      }
      assert channels == Marked(was, channelId);
      if userChannelJoined && globalChannelJoined && allJoined {
        phase := McsChannelJoin;
      }
    }
  }
}

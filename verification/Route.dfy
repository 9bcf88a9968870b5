/**
  The route itself: its list of online users, scanned and updated in place.
*/
module RouteClass {
  import opened RouteModel

  class Route {
    var onlineUser: seq<Addr>
    var sent: seq<Datagram>      // what sendto was called with
    var enqueued: seq<Message>   // the ForwardHelper tasks handed to the pool

    constructor ()
      ensures onlineUser == [] && sent == [] && enqueued == []
    {
      onlineUser, sent, enqueued := [], [], [];
    }

    method CheckOnlineUser(who: Addr)
      modifies this`onlineUser
      ensures onlineUser == RouteModel.CheckOnlineUser(old(onlineUser), who)
    {
      for i := 0 to |onlineUser|
        invariant who !in onlineUser[..i]
      {
        if onlineUser[i] == who {
          return;
        }
      }
      onlineUser := onlineUser + [who];
    }

    method Offline(who: Addr)
      modifies this`onlineUser
      ensures onlineUser == RouteModel.Offline(old(onlineUser), who)
    {
      for i := 0 to |onlineUser|
        invariant onlineUser == old(onlineUser)
        invariant RouteModel.Offline(onlineUser, who) == onlineUser[..i] + RouteModel.Offline(onlineUser[i..], who)
      {
        if onlineUser[i] == who {
          onlineUser := onlineUser[..i] + onlineUser[i + 1..];
          return;
        }
        assert onlineUser[i..] == [onlineUser[i]] + onlineUser[i + 1..];
      }
    }

    // One datagram to each user online, in list order, and to nobody else.
    method ForwardHelper(m: Message)
      modifies this`sent
      ensures sent == old(sent) + Datagrams(m, onlineUser)
      ensures |sent| == |old(sent)| + |onlineUser|
      ensures forall i | 0 <= i < |onlineUser| ::
                sent[|old(sent)| + i] ==
                Datagram(onlineUser[i], "[" + m.from.ip + ":" + Decimal(m.from.port) + "]# " + m.text)
    {
      var sendMessage := "[" + AddrStr(m.from) + "]# " + m.text;
      for i := 0 to |onlineUser|
        invariant sent == old(sent) + Datagrams(m, onlineUser[..i])
      {
        sent := sent + [Datagram(onlineUser[i], sendMessage)];
        DatagramsSnoc(m, onlineUser[..i], onlineUser[i]);
        assert onlineUser[..i + 1] == onlineUser[..i] + [onlineUser[i]];
      }
      assert onlineUser[..|onlineUser|] == onlineUser;
      PayloadSays(m);
    }

    method Forward(m: Message)
      modifies this
      ensures onlineUser == AfterMessage(old(onlineUser), m)
      ensures enqueued == old(enqueued) + [m] && sent == old(sent)
      ensures NoDuplicates(old(onlineUser)) ==>
                NoDuplicates(onlineUser) && (m.from in onlineUser <==> m.text != "QUIT" && m.text != "Q")
      ensures NoDuplicates(old(onlineUser)) ==>
                forall u | u != m.from :: u in onlineUser <==> u in old(onlineUser)
    {
      ghost var before := onlineUser;
      CheckOnlineUser(m.from);
      if m.text == "QUIT" || m.text == "Q" {
        Offline(m.from);
      }
      enqueued := enqueued + [m];
      if NoDuplicates(before) {
        FarewellLeaves(before, m);
      }
    }
  }
}

/**
  The chat server's message routing: who is online after which messages, and what the tasks
  forwarding them send while the receiving thread goes on.
*/
module RouteModel {
  import opened Tally

  // Two addresses are equal when ip and port are.
  datatype Addr = Addr(ip: string, port: nat)

  datatype Message = Message(text: string, from: Addr)

  datatype Datagram = Datagram(to: Addr, payload: string)

  predicate Quits(text: string) { text == "QUIT" || text == "Q" }

  function Decimal(n: nat): string
  {
    (if n < 10 then "" else Decimal(n / 10)) + ["0123456789"[n % 10]]
  }

  function AddrStr(a: Addr): string
  {
    a.ip + ":" + Decimal(a.port)
  }

  function Payload(m: Message): string
  {
    "[" + AddrStr(m.from) + "]# " + m.text
  }

  // What ForwardHelper sends: one datagram to each user, in list order.
  function Datagrams(m: Message, to: seq<Addr>): seq<Datagram>
  {
    seq(|to|, i requires 0 <= i < |to| => Datagram(to[i], Payload(m)))
  }

  lemma DatagramsSnoc(m: Message, to: seq<Addr>, u: Addr)
    ensures Datagrams(m, to + [u]) == Datagrams(m, to) + [Datagram(u, Payload(m))]
  {
  }

  // ---- the online list -----------------------------------------------------------------------

  function CheckOnlineUser(online: seq<Addr>, who: Addr): seq<Addr>
  {
    if who in online then online else online + [who]
  }

  // The first entry equal to who is erased.
  function Offline(online: seq<Addr>, who: Addr): seq<Addr>
  {
    if online == [] then []
    else if online[0] == who then online[1..]
    else [online[0]] + Offline(online[1..], who)
  }

  // Forward's effect on the list, and that of a whole history of messages.
  function AfterMessage(online: seq<Addr>, m: Message): seq<Addr>
  {
    var joined := CheckOnlineUser(online, m.from);
    if Quits(m.text) then Offline(joined, m.from) else joined
  }

  function Online(h: seq<Message>): seq<Addr>
  {
    if h == [] then [] else AfterMessage(Online(h[..|h| - 1]), h[|h| - 1])
  }

  ghost predicate NoDuplicates(s: seq<Addr>)
  {
    forall i, j | 0 <= i < j < |s| :: s[i] != s[j]
  }

  // ---- the list, read off the history ----------------------------------------------------------

  // u's latest message is neither "QUIT" nor "Q".
  ghost predicate LatestStays(h: seq<Message>, u: Addr)
  {
    exists i | 0 <= i < |h| ::
      h[i].from == u && h[i].text != "QUIT" && h[i].text != "Q" && forall j | i < j < |h| :: h[j].from != u
  }

  // u sent message i and has not said farewell since.
  ghost predicate StaysSince(h: seq<Message>, u: Addr, i: nat)
  {
    i < |h| && h[i].from == u && forall j | i <= j < |h| && h[j].from == u :: !Quits(h[j].text)
  }

  // Message i is the one with which u joined for the last time.
  ghost predicate JoinedWith(h: seq<Message>, u: Addr, i: nat)
  {
    StaysSince(h, u, i) && forall j: nat | j < i :: !StaysSince(h, u, j)
  }

  lemma {:induction false} OfflineErases(online: seq<Addr>, who: Addr)
    requires NoDuplicates(online)
    ensures NoDuplicates(Offline(online, who))
    ensures forall u :: u in Offline(online, who) <==> u in online && u != who
  {
    if online != [] && online[0] != who {
      OfflineErases(online[1..], who);
      assert online[0] !in online[1..];
      assert online[0] !in Offline(online[1..], who);
    }
  }

  lemma {:induction false} OfflineAt(online: seq<Addr>, who: Addr) returns (k: nat)
    requires who in online
    ensures k < |online| && online[k] == who && Offline(online, who) == online[..k] + online[k + 1..]
  {
    if online[0] == who {
      k := 0;
    } else {
      var l := OfflineAt(online[1..], who);
      k := l + 1;
      assert online == [online[0]] + online[1..];
    }
  }

  // A message of someone else changes nothing for u.
  lemma OthersDoNotMatter(h: seq<Message>, m: Message, u: Addr, i: nat)
    requires m.from != u
    ensures StaysSince(h + [m], u, i) <==> StaysSince(h, u, i)
  {
    var g := h + [m];
    if StaysSince(h, u, i) {
      assert forall j | i <= j < |g| && g[j].from == u :: g[j] == h[j];
    }
    if StaysSince(g, u, i) {
      forall j | i <= j < |h| && h[j].from == u
        ensures !Quits(h[j].text)
      {
        assert g[j] == h[j];
      }
    }
  }

  // A further message can end a stay but not begin one earlier.
  lemma NoNewStay(h: seq<Message>, m: Message, u: Addr, i: nat)
    ensures i < |h| && StaysSince(h + [m], u, i) ==> StaysSince(h, u, i)
  {
    var g := h + [m];
    if i < |h| && StaysSince(g, u, i) {
      forall j | i <= j < |h| && h[j].from == u
        ensures !Quits(h[j].text)
      {
        assert g[j] == h[j];
      }
      assert g[i] == h[i];
    }
  }

  lemma StillJoined(h: seq<Message>, m: Message, u: Addr, i: nat)
    requires JoinedWith(h, u, i) && (m.from == u ==> !Quits(m.text))
    ensures JoinedWith(h + [m], u, i)
  {
    var g := h + [m];
    assert forall j | 0 <= j < |h| :: g[j] == h[j];
    forall j: nat | j < i
      ensures !StaysSince(g, u, j)
    {
      NoNewStay(h, m, u, j);
    }
  }

  lemma JustJoined(h: seq<Message>, m: Message)
    requires !Quits(m.text) && forall i: nat :: !StaysSince(h, m.from, i)
    ensures JoinedWith(h + [m], m.from, |h|)
  {
    var g := h + [m];
    forall j: nat | j < |h|
      ensures !StaysSince(g, m.from, j)
    {
      NoNewStay(h, m, m.from, j);
    }
  }

  // u's last message stays exactly when u sent some message and no farewell since.
  lemma LatestMeansSince(h: seq<Message>, u: Addr)
    ensures LatestStays(h, u) <==> exists i: nat :: StaysSince(h, u, i)
  {
    if LatestStays(h, u) {
      var i :| 0 <= i < |h|
        && h[i].from == u && h[i].text != "QUIT" && h[i].text != "Q" && forall j | i < j < |h| :: h[j].from != u;
      assert StaysSince(h, u, i);
    }
    if i: nat :| StaysSince(h, u, i) {
      var l := Last(h, u, i);
      assert !Quits(h[l].text);
    }
  }

  lemma {:induction false} Last(h: seq<Message>, u: Addr, i: nat) returns (l: nat)
    requires i < |h| && h[i].from == u
    ensures i <= l < |h| && h[l].from == u && forall j | l < j < |h| :: h[j].from != u
    decreases |h| - i
  {
    if j :| i < j < |h| && h[j].from == u {
      l := Last(h, u, j);
    } else {
      l := i;
    }
  }

  ghost predicate Increasing(s: seq<nat>)
  {
    forall i, j | 0 <= i < j < |s| :: s[i] < s[j]
  }

  ghost predicate JoinsAre(h: seq<Message>, online: seq<Addr>, joins: seq<nat>)
  {
    |joins| == |online| && Increasing(joins) && forall k | 0 <= k < |online| :: JoinedWith(h, online[k], joins[k])
  }

  ghost predicate MembersAre(h: seq<Message>, online: seq<Addr>)
  {
    forall u :: u in online <==> exists i: nat :: StaysSince(h, u, i)
  }

  lemma MembersAfter(h: seq<Message>, online: seq<Addr>, m: Message)
    requires NoDuplicates(online) && MembersAre(h, online)
    ensures NoDuplicates(AfterMessage(online, m)) && MembersAre(h + [m], AfterMessage(online, m))
  {
    var joined, g := CheckOnlineUser(online, m.from), h + [m];
    OfflineErases(joined, m.from);
    forall u
      ensures u in AfterMessage(online, m) <==> exists i: nat :: StaysSince(g, u, i)
    {
      if u != m.from {
        forall i: nat
          ensures StaysSince(g, u, i) <==> StaysSince(h, u, i)
        {
          OthersDoNotMatter(h, m, u, i);
        }
      } else if Quits(m.text) {
        assert g[|h|] == m;
      } else {
        assert StaysSince(g, u, |h|);
      }
    }
  }

  lemma JoinsAfterCheck(h: seq<Message>, online: seq<Addr>, m: Message, joins: seq<nat>) returns (joins': seq<nat>)
    requires MembersAre(h, online) && JoinsAre(h, online, joins)
    ensures var joined := CheckOnlineUser(online, m.from);
            && |joins'| == |joined| && Increasing(joins')
            && forall k | 0 <= k < |joined| ::
                 !Quits(m.text) || joined[k] != m.from ==> JoinedWith(h + [m], joined[k], joins'[k])
  {
    forall k | 0 <= k < |online| && (!Quits(m.text) || online[k] != m.from)
      ensures JoinedWith(h + [m], online[k], joins[k])
    {
      StillJoined(h, m, online[k], joins[k]);
    }
    if m.from in online {
      joins' := joins;
    } else {
      joins' := joins + [|h|];
      assert forall k | 0 <= k < |joins| :: StaysSince(h, online[k], joins[k]);
      if !Quits(m.text) {
        JustJoined(h, m);
      }
    }
  }

  lemma JoinsAfterLeaving(g: seq<Message>, joined: seq<Addr>, who: Addr, joins: seq<nat>) returns (joins': seq<nat>)
    requires NoDuplicates(joined) && who in joined && |joins| == |joined| && Increasing(joins)
    requires forall k | 0 <= k < |joined| && joined[k] != who :: JoinedWith(g, joined[k], joins[k])
    ensures JoinsAre(g, Offline(joined, who), joins')
  {
    var k := OfflineAt(joined, who);
    joins' := joins[..k] + joins[k + 1..];
    var left := Offline(joined, who);
    forall i | 0 <= i < |left|
      ensures JoinedWith(g, left[i], joins'[i])
    {
      var i' := if i < k then i else i + 1;
      assert left[i] == joined[i'] && joins'[i] == joins[i'];
    }
  }

  lemma JoinsAfterMessage(h: seq<Message>, online: seq<Addr>, m: Message, joins: seq<nat>) returns (joins': seq<nat>)
    requires NoDuplicates(online) && MembersAre(h, online) && JoinsAre(h, online, joins)
    ensures JoinsAre(h + [m], AfterMessage(online, m), joins')
  {
    joins' := JoinsAfterCheck(h, online, m, joins);
    if Quits(m.text) {
      joins' := JoinsAfterLeaving(h + [m], CheckOnlineUser(online, m.from), m.from, joins');
    }
  }

  // The online list after any history: no address twice, exactly the users whose latest message
  // is no farewell, in the order in which they joined for the last time.
  lemma {:induction false} OnlineInJoinOrder(h: seq<Message>) returns (joins: seq<nat>)
    ensures NoDuplicates(Online(h)) && MembersAre(h, Online(h)) && JoinsAre(h, Online(h), joins)
    ensures forall u :: u in Online(h) <==> LatestStays(h, u)
  {
    if h == [] {
      joins := [];
    } else {
      var pre, m := h[..|h| - 1], h[|h| - 1];
      assert h == pre + [m];
      joins := OnlineInJoinOrder(pre);
      MembersAfter(pre, Online(pre), m);
      joins := JoinsAfterMessage(pre, Online(pre), m, joins);
    }
    forall u
      ensures u in Online(h) <==> LatestStays(h, u)
    {
      LatestMeansSince(h, u);
    }
  }

  // Forward's effect on a list: a farewell, "QUIT" or "Q", takes its sender off it, any other text
  // leaves him on it, and nobody else comes or goes.
  lemma FarewellLeaves(online: seq<Addr>, m: Message)
    requires NoDuplicates(online)
    ensures m.from in AfterMessage(online, m) <==> m.text != "QUIT" && m.text != "Q"
    ensures forall u | u != m.from :: u in AfterMessage(online, m) <==> u in online
    ensures NoDuplicates(AfterMessage(online, m))
  {
    OfflineErases(CheckOnlineUser(online, m.from), m.from);
  }

  // ---- what is sent ------------------------------------------------------------------------------

  // What one datagram says, in full.
  lemma PayloadSays(m: Message)
    ensures Payload(m) == "[" + m.from.ip + ":" + Decimal(m.from.port) + "]# " + m.text
  {
  }

  // A reader of decimal numbers.
  function ValueOf(s: string): int
  {
    if s == [] then 0 else 10 * ValueOf(s[..|s| - 1]) + (s[|s| - 1] as int - '0' as int)
  }

  predicate IsDigit(c: char) { '0' <= c <= '9' }

  lemma DigitIs(d: nat)
    requires d < 10
    ensures IsDigit("0123456789"[d]) && "0123456789"[d] as int - '0' as int == d
  {
  }

  // It reads back what Decimal writes, which is digits only and has no needless leading zero.
  lemma {:induction false} DecimalReads(n: nat)
    ensures ValueOf(Decimal(n)) == n
    ensures forall i | 0 <= i < |Decimal(n)| :: IsDigit(Decimal(n)[i])
    ensures |Decimal(n)| > 0 && (n > 0 ==> Decimal(n)[0] != '0') && (n == 0 ==> Decimal(n) == "0")
  {
    var d := "0123456789"[n % 10];
    DigitIs(n % 10);
    if n < 10 {
      assert Decimal(n) == [d];
      assert ValueOf([d]) == 10 * ValueOf([]) + n;
    } else {
      DecimalReads(n / 10);
      assert Decimal(n)[..|Decimal(n)| - 1] == Decimal(n / 10);
    }
  }

  // The first position of c in s, or |s|.
  function Find(s: string, c: char): (n: nat)
    ensures n <= |s| && (n < |s| ==> s[n] == c) && forall i | 0 <= i < n :: s[i] != c
  {
    if s == [] || s[0] == c then 0 else 1 + Find(s[1..], c)
  }

  lemma FindIs(s: string, c: char, n: nat)
    requires n < |s| && s[n] == c && forall i | 0 <= i < n :: s[i] != c
    ensures Find(s, c) == n
  {
  }

  // A reader of datagrams: the ip is what follows the bracket up to the first colon, the port what
  // follows that up to the next bracket, the text what comes after "]# ".
  function ReadMessage(s: string): Option<Message>
  {
    var colon := Find(s, ':');
    if colon == 0 || colon == |s| then None else
      match ReadPortAndText(s[colon + 1..])
      case None => None
      case Some((port, text)) => Some(Message(text, Addr(s[1..colon], port)))
  }

  function ReadPortAndText(s: string): Option<(nat, string)>
  {
    var bracket := Find(s, ']');
    if bracket + 3 > |s| || ValueOf(s[..bracket]) < 0 then None else Some((ValueOf(s[..bracket]), s[bracket + 3..]))
  }

  lemma PortAndTextRead(port: nat, text: string)
    ensures ReadPortAndText(Decimal(port) + ("]# " + text)) == Some((port, text))
  {
    var s, digits := Decimal(port) + ("]# " + text), Decimal(port);
    DecimalReads(port);
    FindIs(s, ']', |digits|);
    assert s[..|digits|] == digits && s[|digits| + 3..] == text;
  }

  // Sender and text can be read off a datagram, whatever the text. (An ip has no colon.)
  lemma PayloadReads(m: Message)
    requires ':' !in m.from.ip
    ensures ReadMessage(Payload(m)) == Some(m)
  {
    var ip, rest := m.from.ip, Decimal(m.from.port) + ("]# " + m.text);
    var s := ['['] + ip + [':'] + rest;
    assert Payload(m) == s by {
      PayloadSays(m);
    }
    FindIs(s, ':', 1 + |ip|);
    assert s[1..|ip| + 1] == ip && s[|ip| + 2..] == rest;
    PortAndTextRead(m.from.port, m.text);
  }

  // A list without duplicates is sent to once each: every user on it gets the payload exactly
  // once, every other user nothing, and the text arrives in full behind its sender's address.
  lemma {:induction false} SentExactlyOnce(m: Message, to: seq<Addr>, u: Addr)
    requires NoDuplicates(to)
    ensures multiset(Datagrams(m, to))[Datagram(u, Payload(m))] == if u in to then 1 else 0
    ensures forall d | d in Datagrams(m, to) ::
              d.to in to && d.payload == "[" + m.from.ip + ":" + Decimal(m.from.port) + "]# " + m.text
  {
    if to != [] {
      var n := |to| - 1;
      SentExactlyOnce(m, to[..n], u);
      assert to == to[..n] + [to[n]];
      DatagramsSnoc(m, to[..n], to[n]);
      assert to[n] !in to[..n];
    }
    PayloadSays(m);
  }
}

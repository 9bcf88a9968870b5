/**
  Forward and the tasks it hands to the pool, interleaved: the receiving thread goes through the
  critical sections of CheckOnlineUser and Offline and then enqueues, while workers run queued
  tasks, each ForwardHelper being one critical section. (The pool is running, so Equeue accepts.)
*/
module RouteMachine {
  import opened Tally
  import opened RouteModel

  // The section the receiving thread is about to enter, with the message it handles.
  datatype Receiver = Waiting | Check(m: Message) | Leave(m: Message) | Enqueue(m: Message)

  // A task that has run: its message and whom it was sent to.
  datatype Delivery = Delivery(m: Message, to: seq<Addr>)

  // `history` lists the messages whose effect on the list is complete, `accepted` those enqueued.
  datatype State = State(
    online: seq<Addr>, receiver: Receiver, tasks: seq<Message>,
    history: seq<Message>, accepted: seq<Message>, delivered: seq<Delivery>)

  datatype Move = Receive(m: Message) | ReceiverStep | RunTask(i: nat)

  predicate Enabled(s: State, mv: Move)
  {
    match mv
    case Receive(_) => s.receiver.Waiting?
    case ReceiverStep => !s.receiver.Waiting?
    case RunTask(i) => i < |s.tasks|
  }

  function Apply(s: State, mv: Move): State
    requires Enabled(s, mv)
  {
    match mv
    case Receive(m) => s.(receiver := Check(m))
    case RunTask(i) =>
      s.(tasks := s.tasks[..i] + s.tasks[i + 1..], delivered := s.delivered + [Delivery(s.tasks[i], s.online)])
    case ReceiverStep =>
      match s.receiver
      case Check(m) =>
        if Quits(m.text) then s.(online := CheckOnlineUser(s.online, m.from), receiver := Leave(m))
        else s.(online := CheckOnlineUser(s.online, m.from), receiver := Enqueue(m), history := s.history + [m])
      case Leave(m) => s.(online := Offline(s.online, m.from), receiver := Enqueue(m), history := s.history + [m])
      case Enqueue(m) => s.(tasks := s.tasks + [m], accepted := s.accepted + [m], receiver := Waiting)
  }

  const INIT: State := State([], Waiting, [], [], [], [])

  function Run(ms: seq<Move>): Option<State>
  {
    if ms == [] then Some(INIT) else
      var before := Run(ms[..|ms| - 1]);
      var m := ms[|ms| - 1];
      if before.Some? && Enabled(before.value, m) then Some(Apply(before.value, m)) else None
  }

  function Forwarded(ds: seq<Delivery>): multiset<Message>
  {
    if ds == [] then multiset{} else Forwarded(ds[..|ds| - 1]) + multiset{ds[|ds| - 1].m}
  }

  // Whom a task that runs now is sent to: the users online by the history, and during the farewell
  // of a user who was not online also that user.
  ghost predicate ListIsCurrent(s: State)
  {
    s.online == if s.receiver.Leave? then CheckOnlineUser(Online(s.history), s.receiver.m.from) else Online(s.history)
  }

  ghost predicate AllAccounted(s: State)
  {
    && s.history == s.accepted + (if s.receiver.Enqueue? then [s.receiver.m] else [])
    && multiset(s.accepted) == multiset(s.tasks) + Forwarded(s.delivered)
  }

  ghost predicate NoneTwice(s: State)
  {
    forall d | d in s.delivered :: NoDuplicates(d.to)
  }

  ghost predicate Inv(s: State)
  {
    ListIsCurrent(s) && (s.receiver.Leave? ==> Quits(s.receiver.m.text)) && AllAccounted(s) && NoneTwice(s)
  }

  lemma ListKept(s: State, mv: Move)
    requires ListIsCurrent(s) && Enabled(s, mv) && (s.receiver.Leave? ==> Quits(s.receiver.m.text))
    ensures ListIsCurrent(Apply(s, mv))
  {
    if mv.ReceiverStep? && (s.receiver.Check? || s.receiver.Leave?) {
      var h := s.history + [s.receiver.m];
      assert h[..|h| - 1] == s.history;
    }
  }

  lemma CurrentHasNoDuplicates(s: State)
    requires ListIsCurrent(s)
    ensures NoDuplicates(s.online)
  {
    var joins := OnlineInJoinOrder(s.history);
  }

  lemma TaskMoved(accepted: multiset<Message>, tasks: multiset<Message>, tasks': multiset<Message>,
                  forwarded: multiset<Message>, m: Message)
    requires accepted == tasks + forwarded && tasks == tasks' + multiset{m}
    ensures accepted == tasks' + (forwarded + multiset{m})
  {
  }

  lemma TaskRun(s: State, i: nat)
    requires AllAccounted(s) && i < |s.tasks|
    ensures AllAccounted(Apply(s, RunTask(i)))
  {
    var s' := Apply(s, RunTask(i));
    RemoveOne(s.tasks, i);
    assert s'.delivered[..|s.delivered|] == s.delivered;
    TaskMoved(multiset(s.accepted), multiset(s.tasks), multiset(s'.tasks), Forwarded(s.delivered), s.tasks[i]);
  }

  lemma TaskEnqueued(s: State)
    requires AllAccounted(s) && s.receiver.Enqueue?
    ensures AllAccounted(Apply(s, ReceiverStep))
  {
    var m := s.receiver.m;
    assert multiset(s.accepted + [m]) == multiset(s.accepted) + multiset{m};
    assert multiset(s.tasks + [m]) == multiset(s.tasks) + multiset{m};
  }

  lemma TasksKept(s: State, mv: Move)
    requires AllAccounted(s) && Enabled(s, mv) && (s.receiver.Leave? ==> Quits(s.receiver.m.text))
    ensures AllAccounted(Apply(s, mv))
  {
    if mv.RunTask? {
      TaskRun(s, mv.i);
    } else if mv.ReceiverStep? && s.receiver.Enqueue? {
      TaskEnqueued(s);
    }
  }

  lemma RemoveOne(s: seq<Message>, i: nat)
    requires i < |s|
    ensures multiset(s) == multiset(s[..i] + s[i + 1..]) + multiset{s[i]}
  {
    assert s == s[..i] + [s[i]] + s[i + 1..];
  }

  lemma NoneTwiceKept(s: State, mv: Move)
    requires ListIsCurrent(s) && NoneTwice(s) && Enabled(s, mv)
    ensures NoneTwice(Apply(s, mv))
  {
    CurrentHasNoDuplicates(s);
  }

  lemma StepKeepsInv(s: State, mv: Move)
    requires Inv(s) && Enabled(s, mv)
    ensures Inv(Apply(s, mv))
  {
    ListKept(s, mv);
    NoneTwiceKept(s, mv);
    TasksKept(s, mv);
  }

  // Whatever the interleaving of the receiving thread with the workers: the online list is the
  // one the history determines, each message received is enqueued in order, each enqueued message
  // is still queued or was forwarded exactly once, and no user got it twice.
  lemma {:induction false} EveryRun(ms: seq<Move>)
    requires Run(ms).Some?
    ensures Inv(Run(ms).value)
  {
    if ms != [] {
      EveryRun(ms[..|ms| - 1]);
      StepKeepsInv(Run(ms[..|ms| - 1]).value, ms[|ms| - 1]);
    }
  }

  // Between two messages, with no task left: each message was forwarded exactly once, and the list
  // holds the users whose latest message is no farewell.
  lemma WhenQuiet(ms: seq<Move>)
    requires Run(ms).Some? && Run(ms).value.receiver.Waiting? && Run(ms).value.tasks == []
    ensures var s := Run(ms).value;
            Forwarded(s.delivered) == multiset(s.history) && forall u :: u in s.online <==> LatestStays(s.history, u)
  {
    EveryRun(ms);
    var joins := OnlineInJoinOrder(Run(ms).value.history);
  }

  // ---- whom the tasks are sent to -----------------------------------------------------------------

  // The messages the receiving thread has taken up.
  function Received(ms: seq<Move>): seq<Message>
  {
    if ms == [] then [] else
      var m := ms[|ms| - 1];
      Received(ms[..|ms| - 1]) + if m.Receive? then [m.m] else []
  }

  lemma {:induction false} ReceivedIs(ms: seq<Move>)
    requires Run(ms).Some?
    ensures var s := Run(ms).value;
            Received(ms) == s.history + if s.receiver.Check? || s.receiver.Leave? then [s.receiver.m] else []
  {
    if ms != [] {
      ReceivedIs(ms[..|ms| - 1]);
    }
  }

  // Message k is the farewell of a user who is not online: CheckOnlineUser adds him, Offline
  // removes him again.
  predicate StrangerQuits(h: seq<Message>, k: nat)
  {
    k < |h| && Quits(h[k].text) && h[k].from !in Online(h[..k])
  }

  // Delivery d was made when the first k messages of h had taken effect: its own message is among
  // them, and it went to the users online after them, or also to a stranger saying farewell next.
  predicate SentAfter(h: seq<Message>, d: Delivery, k: nat)
  {
    && k <= |h| && d.m in h[..k]
    && (d.to == Online(h[..k]) || (StrangerQuits(h, k) && d.to == Online(h[..k]) + [h[k].from]))
  }

  lemma StillSentAfter(h: seq<Message>, h': seq<Message>, d: Delivery, k: nat)
    requires h <= h' && SentAfter(h, d, k)
    ensures SentAfter(h', d, k)
  {
    assert h'[..k] == h[..k];
  }

  lemma QueuedIsInHistory(s: State, i: nat)
    requires AllAccounted(s) && i < |s.tasks|
    ensures s.tasks[i] in s.history
  {
    assert s.tasks[i] in multiset(s.tasks);
    assert s.tasks[i] in multiset(s.accepted);
  }

  lemma SentNow(ms: seq<Move>, i: nat)
    requires Run(ms).Some? && i < |Run(ms).value.tasks|
    ensures var s := Run(ms).value; SentAfter(Received(ms), Delivery(s.tasks[i], s.online), |s.history|)
  {
    var s := Run(ms).value;
    EveryRun(ms);
    ReceivedIs(ms);
    QueuedIsInHistory(s, i);
    assert Received(ms)[..|s.history|] == s.history;
  }

  // Deliveries ds were made at the moments ks, in this order and none later than moment n.
  ghost predicate MadeAt(h: seq<Message>, n: nat, ds: seq<Delivery>, ks: seq<nat>)
  {
    && |ks| == |ds|
    && (forall i | 0 <= i < |ks| :: SentAfter(h, ds[i], ks[i]) && ks[i] <= n)
    && (forall i, j | 0 <= i < j < |ks| :: ks[i] <= ks[j])
  }

  lemma StillMadeAt(h: seq<Message>, h': seq<Message>, n: nat, n': nat, ds: seq<Delivery>, ks: seq<nat>)
    requires h <= h' && n <= n' && MadeAt(h, n, ds, ks)
    ensures MadeAt(h', n', ds, ks)
  {
    forall i | 0 <= i < |ks|
      ensures SentAfter(h', ds[i], ks[i])
    {
      StillSentAfter(h, h', ds[i], ks[i]);
    }
  }

  lemma MadeNow(h: seq<Message>, n: nat, ds: seq<Delivery>, ks: seq<nat>, d: Delivery)
    requires MadeAt(h, n, ds, ks) && SentAfter(h, d, n)
    ensures MadeAt(h, n, ds + [d], ks + [n])
  {
  }

  lemma DeliveriesAfter(s: State, mv: Move)
    requires Enabled(s, mv)
    ensures s.history <= Apply(s, mv).history
    ensures Apply(s, mv).delivered == s.delivered + if mv.RunTask? then [Delivery(s.tasks[mv.i], s.online)] else []
  {
  }

  // Every delivery of every run, in the order in which they were made: each has a moment, never
  // earlier than the one before, such that it went to exactly the users online then, and to the
  // stranger if one was just saying farewell.
  lemma {:induction false} EveryDelivery(ms: seq<Move>) returns (ks: seq<nat>)
    requires Run(ms).Some?
    ensures var s := Run(ms).value; MadeAt(Received(ms), |s.history|, s.delivered, ks)
  {
    if ms == [] {
      ks := [];
    } else {
      var pre, m := ms[..|ms| - 1], ms[|ms| - 1];
      var before := Run(pre).value;
      ks := EveryDelivery(pre);
      DeliveriesAfter(before, m);
      if m.RunTask? {
        SentNow(pre, m.i);
        MadeNow(Received(pre), |before.history|, before.delivered, ks, Delivery(before.tasks[m.i], before.online));
        ks := ks + [|before.history|];
      }
      var after := Run(ms).value;
      StillMadeAt(Received(pre), Received(ms), |before.history|, |after.history|, after.delivered, ks);
    }
  }

  // What each user gets of a delivery: its payload exactly once if his latest message by then was
  // no farewell or he is that stranger, and nothing otherwise.
  lemma WhoGetsIt(ms: seq<Move>, i: nat) returns (k: nat, stranger: bool)
    requires Run(ms).Some? && i < |Run(ms).value.delivered|
    ensures var d, h := Run(ms).value.delivered[i], Received(ms);
            && k <= |h| && d.m in h[..k] && (stranger ==> StrangerQuits(h, k))
            && (forall u :: multiset(Datagrams(d.m, d.to))[Datagram(u, Payload(d.m))]
                  == if LatestStays(h[..k], u) || (stranger && u == h[k].from) then 1 else 0)
            && (forall g | g in Datagrams(d.m, d.to) ::
                  g.payload == "[" + d.m.from.ip + ":" + Decimal(d.m.from.port) + "]# " + d.m.text)
  {
    var d, h := Run(ms).value.delivered[i], Received(ms);
    var ks := EveryDelivery(ms);
    k := ks[i];
    stranger := d.to != Online(h[..k]);
    EveryRun(ms);
    assert NoDuplicates(d.to);
    var joins := OnlineInJoinOrder(h[..k]);
    forall u
      ensures multiset(Datagrams(d.m, d.to))[Datagram(u, Payload(d.m))]
                == if LatestStays(h[..k], u) || (stranger && u == h[k].from) then 1 else 0
      ensures forall g | g in Datagrams(d.m, d.to) ::
                g.payload == "[" + d.m.from.ip + ":" + Decimal(d.m.from.port) + "]# " + d.m.text
    {
      SentExactlyOnce(d.m, d.to, u);
    }
  }

  // ---- the stranger -------------------------------------------------------------------------------

  // A task that runs next is sent to someone else than the users online by the messages that have
  // taken effect.
  predicate Deviates(s: State)
  {
    s.tasks != [] && s.online != Online(s.history)
  }

  // In every run that is so exactly while a user who was not online is saying farewell.
  lemma DeviatesExactlyWhen(ms: seq<Move>)
    requires Run(ms).Some?
    ensures var s := Run(ms).value;
            Deviates(s) <==> s.tasks != [] && s.receiver.Leave? && s.receiver.m.from !in Online(s.history)
  {
    EveryRun(ms);
  }

  lemma Extend(ms: seq<Move>, s: State, mv: Move) returns (ms': seq<Move>, s': State)
    requires Run(ms) == Some(s) && Enabled(s, mv)
    ensures ms' == ms + [mv] && s' == Apply(s, mv) && Run(ms') == Some(s')
    ensures Received(ms') == Received(ms) + if mv.Receive? then [mv.m] else []
  {
    ms', s' := ms + [mv], Apply(s, mv);
    assert ms'[..|ms'| - 1] == ms;
  }

  // The messages can all be received before any task runs.
  lemma {:induction false} Receiving(h: seq<Message>) returns (ms: seq<Move>, s: State)
    ensures Run(ms) == Some(s) && Received(ms) == h && s.receiver.Waiting? && |s.tasks| == |h|
  {
    if h == [] {
      ms, s := [], INIT;
    } else {
      var n := |h| - 1;
      ms, s := Receiving(h[..n]);
      ms, s := Extend(ms, s, Receive(h[n]));
      ms, s := Extend(ms, s, ReceiverStep);
      ms, s := Extend(ms, s, ReceiverStep);
      if s.receiver.Enqueue? {
        ms, s := Extend(ms, s, ReceiverStep);
      }
    }
  }

  // With the messages h, a task can be sent to someone who is not online if and only if a message
  // after the first is the farewell of a user not online by the ones before it.
  lemma StrangerGetsAMessageExactlyWhen(h: seq<Message>)
    ensures (exists ms :: Run(ms).Some? && Received(ms) <= h && Deviates(Run(ms).value))
       <==> (exists k :: k >= 1 && StrangerQuits(h, k))
  {
    if k: nat :| k >= 1 && StrangerQuits(h, k) {
      var ms := StrangerRun(h, k);
    }
    if ms :| Run(ms).Some? && Received(ms) <= h && Deviates(Run(ms).value) {
      StrangerFound(h, ms);
    }
  }

  lemma StrangerRun(h: seq<Message>, k: nat) returns (ms: seq<Move>)
    requires k >= 1 && StrangerQuits(h, k)
    ensures Run(ms).Some? && Received(ms) == h[..k + 1] && Deviates(Run(ms).value)
  {
    var s;
    ms, s := Receiving(h[..k]);
    ReceivedIs(ms);
    EveryRun(ms);
    assert s.history == h[..k] && s.online == Online(h[..k]);
    ms, s := Extend(ms, s, Receive(h[k]));
    ms, s := Extend(ms, s, ReceiverStep);
    assert h[..k + 1] == h[..k] + [h[k]];
    assert s.online == Online(h[..k]) + [h[k].from];
  }

  lemma StrangerFound(h: seq<Message>, ms: seq<Move>)
    requires Run(ms).Some? && Received(ms) <= h && Deviates(Run(ms).value)
    ensures var k := |Run(ms).value.history|; k >= 1 && StrangerQuits(h, k)
  {
    var s := Run(ms).value;
    EveryRun(ms);
    ReceivedIs(ms);
    QueuedIsInHistory(s, 0);
    assert h[..|s.history|] == s.history;
  }

  // Such a delivery: a user says hello, a stranger says farewell, and the task forwarding the
  // hello runs in between.
  lemma StrangerIsSentTo(a: Addr, b: Addr) returns (ms: seq<Move>)
    requires a != b
    ensures Run(ms).Some? && Received(ms) == [Message("hello", a), Message("Q", b)]
    ensures Run(ms).value.delivered == [Delivery(Message("hello", a), [a, b])]
    ensures forall k | 0 <= k <= 2 :: b !in Online(Received(ms)[..k])
  {
    var s;
    var hello, bye := Message("hello", a), Message("Q", b);
    ms, s := Extend([], INIT, Receive(hello));
    ms, s := Extend(ms, s, ReceiverStep);
    ms, s := Extend(ms, s, ReceiverStep);
    assert s.online == [a] && s.tasks == [hello];
    ms, s := Extend(ms, s, Receive(bye));
    ms, s := Extend(ms, s, ReceiverStep);
    assert s.online == [a, b];
    ms, s := Extend(ms, s, RunTask(0));
    forall k | 0 <= k <= 2
      ensures b !in Online(Received(ms)[..k])
    {
      var joins := OnlineInJoinOrder(Received(ms)[..k]);
    }
  }
}

/**
  The select server's functions on values: the descriptor column as a sequence, -1 for a free
  slot, and the calls made so far.
*/
module SelectModel {
  import opened EventKernel

  const FREE: int := -1

  // The first free slot at or after pos, or |fds|.
  function FirstFree(fds: seq<int>, pos: nat): (p: nat)
    requires pos <= |fds|
    ensures pos <= p <= |fds|
    ensures p < |fds| ==> fds[p] == FREE
    ensures forall i | pos <= i < p :: fds[i] != FREE
    decreases |fds| - pos
  {
    if pos == |fds| || fds[pos] == FREE then pos else FirstFree(fds, pos + 1)
  }

  // Accepter: a new connection goes into the first free slot after the listener's; if there is
  // none it is closed again.
  function Accepter(w: World, fds: seq<int>, calls: seq<Call>): (seq<int>, seq<Call>)
    requires |fds| > 0
  {
    var fd := w.accept(calls);
    var calls1 := calls + [Accept(fd)];
    if fd <= 0 then (fds, calls1) else
      var pos := FirstFree(fds, 1);
      if pos < |fds| then (fds[pos := fd], calls1) else (fds, calls1 + [Close(fd)])
  }

  // HandlerIO: read, then answer, or close and free the slot.
  function HandlerIO(w: World, fds: seq<int>, i: nat, calls: seq<Call>): (seq<int>, seq<Call>)
    requires i < |fds|
  {
    var n := w.recv(calls, fds[i]);
    var calls1 := calls + [Recv(fds[i], n)];
    if n > 0 then (fds, calls1 + [Send(fds[i])]) else (fds[i := FREE], calls1 + [Close(fds[i])])
  }

  // HandlerEvent's loop body for slot i, and the loop from slot i on.
  function Dispatch(w: World, fds: seq<int>, rfds: set<int>, i: nat, calls: seq<Call>): (seq<int>, seq<Call>)
    requires i < |fds|
  {
    if fds[i] == FREE || fds[i] !in rfds then (fds, calls)
    else if fds[i] == w.listener then Accepter(w, fds, calls)
    else HandlerIO(w, fds, i, calls)
  }

  function HandlerEvent(w: World, fds: seq<int>, rfds: set<int>, i: nat, calls: seq<Call>): (r: (seq<int>, seq<Call>))
    requires i <= |fds|
    ensures |r.0| == |fds|
    decreases |fds| - i
  {
    if i == |fds| then (fds, calls) else
      var (fds1, calls1) := Dispatch(w, fds, rfds, i, calls);
      HandlerEvent(w, fds1, rfds, i + 1, calls1)
  }

  function Watched(fds: seq<int>): set<int>
  {
    set i | 0 <= i < |fds| && fds[i] != FREE :: fds[i]
  }

  // One iteration of Loop.
  function Round(w: World, fds: seq<int>, calls: seq<Call>): (r: (seq<int>, seq<Call>))
    ensures |r.0| == |fds|
  {
    var watched := Watched(fds);
    var (n, ready) := SelectOutcome(w, calls, watched);
    var calls1 := calls + [Wait(watched)];
    if n == 0 || n == -1 then (fds, calls1) else HandlerEvent(w, fds, ready, 0, calls1)
  }

  // InitServer's table, and k iterations of Loop from it.
  function InitTable(w: World, gnum: nat): seq<int>
    requires gnum > 0
  {
    seq(gnum, i => if i == 0 then w.listener else FREE)
  }

  function Loop(w: World, gnum: nat, k: nat): (r: (seq<int>, seq<Call>))
    requires gnum > 0
    ensures |r.0| == gnum
  {
    if k == 0 then (InitTable(w, gnum), []) else
      var (fds, calls) := Loop(w, gnum, k - 1);
      Round(w, fds, calls)
  }

  // ---- the descriptor table over all runs ------------------------------------------------------

  // Slot 0 is the listener, no descriptor is in two slots, and the table holds exactly the
  // descriptors that are open.
  ghost predicate TableOk(w: World, fds: seq<int>, calls: seq<Call>)
  {
    && |fds| > 0 && fds[0] == w.listener && w.listener >= 0
    && (forall i, j | 0 <= i < j < |fds| && fds[i] != FREE :: fds[i] != fds[j])
    && (forall i | 0 <= i < |fds| && fds[i] != FREE :: fds[i] in Open(w.listener, calls))
    && (forall fd | fd in Open(w.listener, calls) :: fd >= 0 && fd in fds)
    && Clean(w.listener, calls)
  }

  lemma Snoc(listener: int, calls: seq<Call>, c: Call)
    ensures (calls + [c])[..|calls|] == calls
    ensures Open(listener, calls + [c]) == OpenAfter(Open(listener, calls), c)
    ensures Recvs(calls + [c]) == Recvs(calls) + if c.Recv? then [c.fd] else []
    ensures Accepts(calls + [c]) == Accepts(calls) + if c.Accept? then 1 else 0
  {
    assert (calls + [c])[..|calls|] == calls;
  }

  lemma AccepterKeepsTable(w: World, fds: seq<int>, calls: seq<Call>)
    requires Honest(w) && TableOk(w, fds, calls)
    ensures var (fds1, calls1) := Accepter(w, fds, calls);
            TableOk(w, fds1, calls1) && Recvs(calls1) == Recvs(calls) && Accepts(calls1) == Accepts(calls) + 1
  {
    var fd := w.accept(calls);
    Snoc(w.listener, calls, Accept(fd));
    var pos := FirstFree(fds, 1);
    if fd > 0 {
      if pos < |fds| {
        var fds1 := fds[pos := fd];
        forall x | x in Open(w.listener, calls) + {fd}
          ensures x >= 0 && x in fds1
        {
          if x == fd {
            assert fds1[pos] == x;
          } else {
            var j :| 0 <= j < |fds| && fds[j] == x;
            assert fds1[j] == x;
          }
        }
      } else {
        Snoc(w.listener, calls + [Accept(fd)], Close(fd));
        assert Open(w.listener, calls) + {fd} - {fd} == Open(w.listener, calls);
      }
    }
  }

  lemma HandlerIOKeepsTable(w: World, fds: seq<int>, i: nat, calls: seq<Call>)
    requires Honest(w) && TableOk(w, fds, calls) && 0 < i < |fds| && fds[i] != FREE
    ensures var (fds1, calls1) := HandlerIO(w, fds, i, calls);
            TableOk(w, fds1, calls1) && Recvs(calls1) == Recvs(calls) + [fds[i]] && Accepts(calls1) == Accepts(calls)
  {
    var n := w.recv(calls, fds[i]);
    var calls1 := calls + [Recv(fds[i], n)];
    Snoc(w.listener, calls, Recv(fds[i], n));
    if n > 0 {
      Snoc(w.listener, calls1, Send(fds[i]));
    } else {
      Snoc(w.listener, calls1, Close(fds[i]));
      var fds1 := fds[i := FREE];
      forall x | x in Open(w.listener, calls) - {fds[i]}
        ensures x >= 0 && x in fds1
      {
        var j :| 0 <= j < |fds| && fds[j] == x;
        assert fds1[j] == x;
      }
    }
  }

  // ---- one dispatch pass -----------------------------------------------------------------------

  // The ready descriptors of the slots from i on, in slot order.
  function ReadyFrom(fds: seq<int>, rfds: set<int>, i: nat): seq<int>
    requires i <= |fds|
    decreases |fds| - i
  {
    if i == |fds| then [] else
      (if fds[i] != FREE && fds[i] in rfds then [fds[i]] else []) + ReadyFrom(fds, rfds, i + 1)
  }

  predicate Idle(fd: int, rfds: set<int>) { fd == FREE || fd !in rfds }

  lemma {:induction false} ReadyFromAgrees(fds: seq<int>, fds1: seq<int>, rfds: set<int>, i: nat)
    requires i <= |fds| == |fds1|
    requires forall j | i <= j < |fds| :: fds[j] == fds1[j] || (Idle(fds[j], rfds) && Idle(fds1[j], rfds))
    ensures ReadyFrom(fds, rfds, i) == ReadyFrom(fds1, rfds, i)
    decreases |fds| - i
  {
    if i < |fds| {
      ReadyFromAgrees(fds, fds1, rfds, i + 1);
    }
  }

  // From slot 1 on the pass reads each ready slot once, in slot order, and accepts nothing.
  lemma {:induction false} PassFromSlot(w: World, fds: seq<int>, rfds: set<int>, i: nat, calls: seq<Call>)
    requires Honest(w) && TableOk(w, fds, calls) && 1 <= i <= |fds|
    ensures var (fds1, calls1) := HandlerEvent(w, fds, rfds, i, calls);
            && TableOk(w, fds1, calls1)
            && Recvs(calls1) == Recvs(calls) + ReadyFrom(fds, rfds, i)
            && Accepts(calls1) == Accepts(calls)
    decreases |fds| - i
  {
    if i < |fds| {
      var (fds1, calls1) := Dispatch(w, fds, rfds, i, calls);
      if fds[i] != FREE && fds[i] in rfds {
        HandlerIOKeepsTable(w, fds, i, calls);
      }
      PassFromSlot(w, fds1, rfds, i + 1, calls1);
      ReadyFromAgrees(fds, fds1, rfds, i + 1);
    }
  }

  // One pass over the table select was given: the listener is accepted from once if it is ready,
  // and recv is called exactly on the other ready descriptors, in slot order. A connection
  // accepted in the pass is not read in it.
  lemma Pass(w: World, fds: seq<int>, rfds: set<int>, calls: seq<Call>)
    requires Honest(w) && TableOk(w, fds, calls) && rfds <= Watched(fds)
    ensures var (fds1, calls1) := HandlerEvent(w, fds, rfds, 0, calls);
            && TableOk(w, fds1, calls1)
            && Recvs(calls1) == Recvs(calls) + ReadyFrom(fds, rfds, 1)
            && Accepts(calls1) == Accepts(calls) + if w.listener in rfds then 1 else 0
  {
    var (fds1, calls1) := Dispatch(w, fds, rfds, 0, calls);
    if w.listener in rfds {
      AccepterKeepsTable(w, fds, calls);
      AcceptedIsNotReady(w, fds, rfds, calls);
    }
    PassFromSlot(w, fds1, rfds, 1, calls1);
  }

  lemma AcceptedIsNotReady(w: World, fds: seq<int>, rfds: set<int>, calls: seq<Call>)
    requires Honest(w) && TableOk(w, fds, calls) && rfds <= Watched(fds)
    ensures ReadyFrom(Accepter(w, fds, calls).0, rfds, 1) == ReadyFrom(fds, rfds, 1)
  {
    var fd := w.accept(calls);
    assert fd > 0 ==> fd !in rfds;
    ReadyFromAgrees(fds, Accepter(w, fds, calls).0, rfds, 1);
  }

  // Those descriptors are each ready client once.
  lemma {:induction false} ReadyFromIs(fds: seq<int>, rfds: set<int>, i: nat)
    requires i <= |fds|
    requires forall j, k | i <= j < k < |fds| && fds[j] != FREE :: fds[j] != fds[k]
    ensures var r := ReadyFrom(fds, rfds, i);
            && (forall fd :: fd in r <==> fd in rfds && fd != FREE && fd in fds[i..])
            && (forall j, k | 0 <= j < k < |r| :: r[j] != r[k])
    decreases |fds| - i
  {
    if i < |fds| {
      ReadyFromIs(fds, rfds, i + 1);
      assert fds[i..] == [fds[i]] + fds[i + 1..];
    }
  }

  lemma ReadyClients(w: World, fds: seq<int>, calls: seq<Call>, ready: set<int>)
    requires TableOk(w, fds, calls) && ready <= Watched(fds)
    ensures forall fd :: fd in ReadyFrom(fds, ready, 1) <==> fd in ready && fd != w.listener
    ensures var r := ReadyFrom(fds, ready, 1); forall j, k | 0 <= j < k < |r| :: r[j] != r[k]
  {
    ReadyFromIs(fds, ready, 1);
    forall fd
      ensures fd in ReadyFrom(fds, ready, 1) <==> fd in ready && fd != w.listener
    {
      if fd in ready && fd != w.listener {
        var j :| 0 <= j < |fds| && fds[j] == fd;
        assert fds[1..][j - 1] == fd;
      }
      if fd in fds[1..] && fd != FREE {
        var j :| 0 <= j < |fds| - 1 && fds[1..][j] == fd;
        assert fds[j + 1] == fd && fds[0] != fds[j + 1];
      }
    }
  }

  // Every iteration of Loop keeps the table, accepts once if the listener is ready, and reads
  // each ready client exactly once and nothing else.
  lemma RoundReads(w: World, fds: seq<int>, calls: seq<Call>)
    requires Honest(w) && TableOk(w, fds, calls)
    ensures var (fds1, calls1) := Round(w, fds, calls);
            var (n, ready) := SelectOutcome(w, calls, Watched(fds));
            && TableOk(w, fds1, calls1)
            && Recvs(calls1) == Recvs(calls) + ReadyFrom(fds, ready, 1)
            && Accepts(calls1) == Accepts(calls) + (if w.listener in ready then 1 else 0)
  {
    var ready := SelectOutcome(w, calls, Watched(fds)).1;
    WaitKeepsTable(w, fds, calls);
    if ready == {} {
      NoneReady(fds, ready, 1);
    }
    Pass(w, fds, ready, calls + [Wait(Watched(fds))]);
  }

  lemma WaitKeepsTable(w: World, fds: seq<int>, calls: seq<Call>)
    requires TableOk(w, fds, calls)
    ensures var calls1 := calls + [Wait(Watched(fds))];
            TableOk(w, fds, calls1) && Recvs(calls1) == Recvs(calls) && Accepts(calls1) == Accepts(calls)
  {
    Snoc(w.listener, calls, Wait(Watched(fds)));
  }

  lemma {:induction false} NoneReady(fds: seq<int>, rfds: set<int>, i: nat)
    requires i <= |fds| && rfds == {}
    ensures ReadyFrom(fds, rfds, i) == []
    decreases |fds| - i
  {
    if i < |fds| {
      NoneReady(fds, rfds, i + 1);
    }
  }

  // After any number of iterations the table is exactly the open descriptors: none leaked, none
  // closed twice, none read after it was closed.
  lemma {:induction false} LoopKeepsTable(w: World, gnum: nat, k: nat)
    requires Honest(w) && gnum > 0
    ensures var (fds, calls) := Loop(w, gnum, k); TableOk(w, fds, calls)
  {
    if k == 0 {
      assert InitTable(w, gnum)[0] == w.listener;
    } else {
      LoopKeepsTable(w, gnum, k - 1);
      var (fds, calls) := Loop(w, gnum, k - 1);
      RoundReads(w, fds, calls);
    }
  }

  // ---- the table is never full -----------------------------------------------------------------

  lemma {:induction false} DistinctCount(fds: seq<int>)
    requires forall i, j | 0 <= i < j < |fds| :: fds[i] != fds[j]
    ensures |set x | x in fds| == |fds|
  {
    if fds != [] {
      var n := |fds| - 1;
      DistinctCount(fds[..n]);
      assert (set x | x in fds) == (set x | x in fds[..n]) + {fds[n]};
      assert fds[n] !in fds[..n];
    }
  }

  // The numbers from 1 to n - 1.
  function Below(n: nat): (r: set<int>)
    ensures forall x :: x in r <==> 0 < x < n
    ensures n > 0 ==> |r| == n - 1
  {
    if n <= 1 then {} else Below(n - 1) + {n - 1}
  }

  lemma {:induction false} SubsetCount<A>(a: set<A>, b: set<A>)
    requires a <= b
    ensures |a| <= |b|
  {
    if x :| x in a {
      SubsetCount(a - {x}, b - {x});
      assert a == (a - {x}) + {x};
    } else {
      assert a == {};
    }
  }

  // If descriptors are numbered below the table's size there is always a free slot.
  lemma Pigeonhole(w: World, fds: seq<int>, calls: seq<Call>)
    requires TableOk(w, fds, calls) && Open(w.listener, calls) <= Below(|fds|)
    ensures FirstFree(fds, 1) < |fds|
  {
    if FirstFree(fds, 1) == |fds| {
      DistinctCount(fds);
      SubsetCount((set x | x in fds), Below(|fds|));
    }
  }

  ghost predicate NumbersBelow(w: World, gnum: nat)
  {
    0 < w.listener < gnum && forall calls :: w.accept(calls) < gnum
  }

  lemma CallStaysBelow(listener: int, gnum: nat, calls: seq<Call>, c: Call)
    requires Open(listener, calls) <= Below(gnum) && (c.Accept? ==> c.result < gnum)
    ensures Open(listener, calls + [c]) <= Below(gnum)
  {
    Snoc(listener, calls, c);
  }

  lemma DispatchStaysBelow(w: World, gnum: nat, fds: seq<int>, rfds: set<int>, i: nat, calls: seq<Call>)
    requires NumbersBelow(w, gnum) && i < |fds| && Open(w.listener, calls) <= Below(gnum)
    ensures Open(w.listener, Dispatch(w, fds, rfds, i, calls).1) <= Below(gnum)
  {
    if fds[i] == w.listener {
      var fd := w.accept(calls);
      CallStaysBelow(w.listener, gnum, calls, Accept(fd));
      CallStaysBelow(w.listener, gnum, calls + [Accept(fd)], Close(fd));
    } else {
      var r := Recv(fds[i], w.recv(calls, fds[i]));
      CallStaysBelow(w.listener, gnum, calls, r);
      CallStaysBelow(w.listener, gnum, calls + [r], Send(fds[i]));
      CallStaysBelow(w.listener, gnum, calls + [r], Close(fds[i]));
    }
  }

  lemma {:induction false} PassStaysBelow(w: World, gnum: nat, fds: seq<int>, rfds: set<int>, i: nat, calls: seq<Call>)
    requires NumbersBelow(w, gnum) && i <= |fds| && Open(w.listener, calls) <= Below(gnum)
    ensures Open(w.listener, HandlerEvent(w, fds, rfds, i, calls).1) <= Below(gnum)
    decreases |fds| - i
  {
    if i < |fds| {
      DispatchStaysBelow(w, gnum, fds, rfds, i, calls);
      var (fds1, calls1) := Dispatch(w, fds, rfds, i, calls);
      PassStaysBelow(w, gnum, fds1, rfds, i + 1, calls1);
    }
  }

  lemma {:induction false} LoopStaysBelow(w: World, gnum: nat, k: nat)
    requires NumbersBelow(w, gnum)
    ensures Open(w.listener, Loop(w, gnum, k).1) <= Below(gnum)
  {
    if k > 0 {
      LoopStaysBelow(w, gnum, k - 1);
      var (fds, calls) := Loop(w, gnum, k - 1);
      CallStaysBelow(w.listener, gnum, calls, Wait(Watched(fds)));
      PassStaysBelow(w, gnum, fds, SelectOutcome(w, calls, Watched(fds)).1, 0, calls + [Wait(Watched(fds))]);
    }
  }

  // Call i, if it closes a descriptor, comes straight after a recv on it that found no data.
  ghost predicate CloseIsHandlers(calls: seq<Call>, i: nat)
    requires i < |calls|
  {
    calls[i].Close? ==>
      i > 0 && calls[i - 1].Recv? && calls[i - 1].fd == calls[i].fd && calls[i - 1].result <= 0
  }

  ghost predicate ClosesFollowRecv(calls: seq<Call>)
  {
    forall i | 0 <= i < |calls| :: CloseIsHandlers(calls, i)
  }

  lemma CloseSnoc(calls: seq<Call>, c: Call)
    requires ClosesFollowRecv(calls)
    requires c.Close? ==>
      calls != [] && calls[|calls| - 1].Recv? && calls[|calls| - 1].fd == c.fd && calls[|calls| - 1].result <= 0
    ensures ClosesFollowRecv(calls + [c])
  {
    forall i | 0 <= i < |calls + [c]|
      ensures CloseIsHandlers(calls + [c], i)
    {
      assert i < |calls| ==> CloseIsHandlers(calls, i);
    }
  }

  lemma HandlerIOCloses(w: World, fds: seq<int>, i: nat, calls: seq<Call>)
    requires i < |fds| && ClosesFollowRecv(calls)
    ensures ClosesFollowRecv(HandlerIO(w, fds, i, calls).1)
  {
    var r := Recv(fds[i], w.recv(calls, fds[i]));
    CloseSnoc(calls, r);
    CloseSnoc(calls + [r], if r.result > 0 then Send(fds[i]) else Close(fds[i]));
  }

  lemma {:induction false} PassCloses(w: World, fds: seq<int>, rfds: set<int>, i: nat, calls: seq<Call>)
    requires Honest(w) && TableOk(w, fds, calls) && 1 <= i <= |fds| && ClosesFollowRecv(calls)
    ensures ClosesFollowRecv(HandlerEvent(w, fds, rfds, i, calls).1)
    decreases |fds| - i
  {
    if i < |fds| {
      var (fds1, calls1) := Dispatch(w, fds, rfds, i, calls);
      if fds[i] != FREE && fds[i] in rfds {
        HandlerIOKeepsTable(w, fds, i, calls);
        HandlerIOCloses(w, fds, i, calls);
      }
      PassCloses(w, fds1, rfds, i + 1, calls1);
    }
  }

  lemma RoundCloses(w: World, fds: seq<int>, calls: seq<Call>)
    requires Honest(w) && TableOk(w, fds, calls) && FirstFree(fds, 1) < |fds| && ClosesFollowRecv(calls)
    ensures ClosesFollowRecv(Round(w, fds, calls).1)
  {
    var calls1, ready := calls + [Wait(Watched(fds))], SelectOutcome(w, calls, Watched(fds)).1;
    WaitKeepsTable(w, fds, calls);
    CloseSnoc(calls, Wait(Watched(fds)));
    CloseSnoc(calls1, Accept(w.accept(calls1)));
    AccepterKeepsTable(w, fds, calls1);
    var (fds2, calls2) := Dispatch(w, fds, ready, 0, calls1);
    PassCloses(w, fds2, ready, 1, calls2);
  }

  // When every descriptor is below gnum, no run ever finds the table full: there is always a free
  // slot, and every close in the run is HandlerIO's, so no connection is closed as it is accepted.
  lemma {:induction false} ServerIsNeverFull(w: World, gnum: nat, k: nat)
    requires Honest(w) && NumbersBelow(w, gnum)
    ensures var (fds, calls) := Loop(w, gnum, k);
            && FirstFree(fds, 1) < gnum
            && ClosesFollowRecv(calls)
            && forall i | 0 < i < |calls| && calls[i].Close? :: !calls[i - 1].Accept?
  {
    LoopKeepsTable(w, gnum, k);
    LoopStaysBelow(w, gnum, k);
    var (fds, calls) := Loop(w, gnum, k);
    Pigeonhole(w, fds, calls);
    if k > 0 {
      ServerIsNeverFull(w, gnum, k - 1);
      var (fds0, calls0) := Loop(w, gnum, k - 1);
      LoopKeepsTable(w, gnum, k - 1);
      RoundCloses(w, fds0, calls0);
    }
    forall i | 0 < i < |calls| && calls[i].Close?
      ensures !calls[i - 1].Accept?
    {
      assert CloseIsHandlers(calls, i);
    }
  }

  // ---- every request is answered ------------------------------------------------------------------

  // A recv is followed at once by a send to the same client if it brought data, and by closing the
  // connection otherwise; a send comes only as such an answer.
  ghost predicate Answered(calls: seq<Call>, i: nat)
    requires i < |calls|
  {
    match calls[i]
    case Recv(fd, n) => i + 1 < |calls| && calls[i + 1] == if n > 0 then Send(fd) else Close(fd)
    case Send(fd) => i > 0 && calls[i - 1].Recv? && calls[i - 1].fd == fd && calls[i - 1].result > 0
    case _ => true
  }

  ghost predicate AllAnswered(calls: seq<Call>)
  {
    forall i | 0 <= i < |calls| :: Answered(calls, i)
  }

  lemma AnswerSnoc(calls: seq<Call>, c: Call)
    requires AllAnswered(calls) && !c.Recv? && !c.Send?
    ensures AllAnswered(calls + [c])
  {
    forall i | 0 <= i < |calls + [c]|
      ensures Answered(calls + [c], i)
    {
      assert i < |calls| ==> Answered(calls, i);
    }
  }

  lemma HandlerIOAnswers(w: World, fds: seq<int>, i: nat, calls: seq<Call>)
    requires i < |fds| && AllAnswered(calls)
    ensures AllAnswered(HandlerIO(w, fds, i, calls).1)
  {
    var calls1 := HandlerIO(w, fds, i, calls).1;
    assert |calls1| == |calls| + 2 && calls1[..|calls|] == calls;
    forall j | 0 <= j < |calls1|
      ensures Answered(calls1, j)
    {
      assert j < |calls| ==> Answered(calls, j);
    }
  }

  lemma {:induction false} PassAnswers(w: World, fds: seq<int>, rfds: set<int>, i: nat, calls: seq<Call>)
    requires i <= |fds| && AllAnswered(calls)
    ensures AllAnswered(HandlerEvent(w, fds, rfds, i, calls).1)
    decreases |fds| - i
  {
    if i < |fds| {
      var (fds1, calls1) := Dispatch(w, fds, rfds, i, calls);
      var fd := w.accept(calls);
      AnswerSnoc(calls, Accept(fd));
      AnswerSnoc(calls + [Accept(fd)], Close(fd));
      HandlerIOAnswers(w, fds, i, calls);
      PassAnswers(w, fds1, rfds, i + 1, calls1);
    }
  }

  // In every run each request is answered before anything else happens, a client that has sent
  // nothing is sent nothing, and a connection at its end is closed.
  lemma {:induction false} EveryRequestAnswered(w: World, gnum: nat, k: nat)
    requires gnum > 0
    ensures AllAnswered(Loop(w, gnum, k).1)
  {
    if k > 0 {
      EveryRequestAnswered(w, gnum, k - 1);
      var (fds, calls) := Loop(w, gnum, k - 1);
      AnswerSnoc(calls, Wait(Watched(fds)));
      PassAnswers(w, fds, SelectOutcome(w, calls, Watched(fds)).1, 0, calls + [Wait(Watched(fds))]);
    }
  }

  // ---- every open descriptor is watched ----------------------------------------------------------

  ghost predicate WatchesOpen(listener: int, calls: seq<Call>, i: nat)
    requires i < |calls|
  {
    calls[i].Wait? ==> calls[i].watched == Open(listener, calls[..i])
  }

  ghost predicate AllWatchOpen(listener: int, calls: seq<Call>)
  {
    forall i | 0 <= i < |calls| :: WatchesOpen(listener, calls, i)
  }

  lemma WatchSnoc(listener: int, calls: seq<Call>, c: Call)
    requires AllWatchOpen(listener, calls) && (c.Wait? ==> c.watched == Open(listener, calls))
    ensures AllWatchOpen(listener, calls + [c])
  {
    var all := calls + [c];
    forall i | 0 <= i < |all|
      ensures WatchesOpen(listener, all, i)
    {
      assert i < |calls| ==> WatchesOpen(listener, calls, i);
      assert all[..i] == calls[..i];
    }
  }

  lemma {:induction false} PassWatches(w: World, fds: seq<int>, rfds: set<int>, i: nat, calls: seq<Call>)
    requires i <= |fds| && AllWatchOpen(w.listener, calls)
    ensures AllWatchOpen(w.listener, HandlerEvent(w, fds, rfds, i, calls).1)
    decreases |fds| - i
  {
    if i < |fds| {
      var (fds1, calls1) := Dispatch(w, fds, rfds, i, calls);
      var a, r := Accept(w.accept(calls)), Recv(fds[i], w.recv(calls, fds[i]));
      WatchSnoc(w.listener, calls, a);
      WatchSnoc(w.listener, calls + [a], Close(w.accept(calls)));
      WatchSnoc(w.listener, calls, r);
      WatchSnoc(w.listener, calls + [r], Send(fds[i]));
      WatchSnoc(w.listener, calls + [r], Close(fds[i]));
      PassWatches(w, fds1, rfds, i + 1, calls1);
    }
  }

  // In every run each select is given exactly the descriptors open at that moment: no connection
  // is ever forgotten.
  lemma {:induction false} EveryWaitWatchesOpen(w: World, gnum: nat, k: nat)
    requires Honest(w) && gnum > 0
    ensures AllWatchOpen(w.listener, Loop(w, gnum, k).1)
  {
    if k > 0 {
      EveryWaitWatchesOpen(w, gnum, k - 1);
      LoopKeepsTable(w, gnum, k - 1);
      var (fds, calls) := Loop(w, gnum, k - 1);
      WatchedIsOpen(w, fds, calls);
      WatchSnoc(w.listener, calls, Wait(Watched(fds)));
      PassWatches(w, fds, SelectOutcome(w, calls, Watched(fds)).1, 0, calls + [Wait(Watched(fds))]);
    }
  }

  lemma WatchedIsOpen(w: World, fds: seq<int>, calls: seq<Call>)
    requires TableOk(w, fds, calls)
    ensures Watched(fds) == Open(w.listener, calls)
  {
    forall fd | fd in Open(w.listener, calls)
      ensures fd in Watched(fds)
    {
      var i :| 0 <= i < |fds| && fds[i] == fd;
    }
  }
}

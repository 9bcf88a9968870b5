/**
  The poll server's functions on values, and its lockstep simulation with the select server.
*/
module PollModel {
  import opened EventKernel
  import Select = SelectModel

  const FREE: int := Select.FREE

  const EMPTY: PollFd := PollFd(FREE, 0, 0)

  function Column(es: seq<PollFd>): (fds: seq<int>)
    ensures |fds| == |es|
  {
    seq(|es|, i requires 0 <= i < |es| => es[i].fd)
  }

  // Accepter writes the slot's fd and events and leaves its revents.
  function Accepter(w: World, es: seq<PollFd>, calls: seq<Call>): (r: (seq<PollFd>, seq<Call>))
    requires |es| > 0
  {
    var fd := w.accept(calls);
    var calls1 := calls + [Accept(fd)];
    if fd <= 0 then (es, calls1) else
      var pos := Select.FirstFree(Column(es), 1);
      if pos < |es| then (es[pos := es[pos].(fd := fd, events := POLLIN)], calls1) else (es, calls1 + [Close(fd)])
  }

  function HandlerIO(w: World, es: seq<PollFd>, i: nat, calls: seq<Call>): (seq<PollFd>, seq<Call>)
    requires i < |es|
  {
    var fd := es[i].fd;
    var n := w.recv(calls, fd);
    var calls1 := calls + [Recv(fd, n)];
    if n > 0 then (es, calls1 + [Send(fd)]) else (es[i := EMPTY], calls1 + [Close(fd)])
  }

  function Dispatch(w: World, es: seq<PollFd>, i: nat, calls: seq<Call>): (seq<PollFd>, seq<Call>)
    requires i < |es|
  {
    if es[i].fd == FREE || !HasPollIn(es[i].revents) then (es, calls)
    else if es[i].fd == w.listener then Accepter(w, es, calls)
    else HandlerIO(w, es, i, calls)
  }

  function HandlerEvent(w: World, es: seq<PollFd>, i: nat, calls: seq<Call>): (r: (seq<PollFd>, seq<Call>))
    requires i <= |es|
    ensures |r.0| == |es|
    decreases |es| - i
  {
    if i == |es| then (es, calls) else
      var (es1, calls1) := Dispatch(w, es, i, calls);
      HandlerEvent(w, es1, i + 1, calls1)
  }

  function Round(w: World, es: seq<PollFd>, calls: seq<Call>): (r: (seq<PollFd>, seq<Call>))
    ensures |r.0| == |es|
  {
    var (n, filled) := PollOutcome(w, calls, es);
    var calls1 := calls + [Wait(PollWatched(es))];
    if n == 0 || n == -1 then (filled, calls1) else HandlerEvent(w, filled, 0, calls1)
  }

  function InitTable(w: World, gnum: nat): seq<PollFd>
    requires gnum > 0
  {
    seq(gnum, i => if i == 0 then PollFd(w.listener, POLLIN, 0) else EMPTY)
  }

  function Loop(w: World, gnum: nat, k: nat): (r: (seq<PollFd>, seq<Call>))
    requires gnum > 0
    ensures |r.0| == gnum
  {
    if k == 0 then (InitTable(w, gnum), []) else
      var (es, calls) := Loop(w, gnum, k - 1);
      Round(w, es, calls)
  }

  // ---- lockstep simulation -----------------------------------------------------------------

  // A free slot has no event bits, an occupied one asks for POLLIN.
  ghost predicate SlotsOk(es: seq<PollFd>)
  {
    forall i | 0 <= i < |es| :: if es[i].fd == FREE then es[i] == EMPTY else es[i].events == POLLIN
  }

  // From slot i on, POLLIN is reported exactly where select reported the descriptor ready.
  ghost predicate Agree(es: seq<PollFd>, ready: set<int>, i: nat)
  {
    forall j | i <= j < |es| && es[j].fd != FREE :: HasPollIn(es[j].revents) <==> es[j].fd in ready
  }

  // The two servers' tables match.
  ghost predicate Matches(es: seq<PollFd>, fds: seq<int>)
  {
    SlotsOk(es) && Column(es) == fds
  }

  lemma {:induction false} PassFromSlotMatches(w: World, es: seq<PollFd>, fds: seq<int>, ready: set<int>,
                                               i: nat, calls: seq<Call>)
    requires Honest(w) && Select.TableOk(w, fds, calls) && 1 <= i <= |fds|
    requires Matches(es, fds) && Agree(es, ready, i)
    ensures var (es1, calls1) := HandlerEvent(w, es, i, calls);
            var (fds1, calls2) := Select.HandlerEvent(w, fds, ready, i, calls);
            Matches(es1, fds1) && calls1 == calls2
    decreases |fds| - i
  {
    if i < |fds| {
      assert es[i].fd == fds[i];
      var (es1, calls1) := Dispatch(w, es, i, calls);
      var (fds1, calls2) := Select.Dispatch(w, fds, ready, i, calls);
      if fds[i] != FREE && fds[i] in ready {
        Select.HandlerIOKeepsTable(w, fds, i, calls);
      }
      assert Column(es1) == fds1;
      PassFromSlotMatches(w, es1, fds1, ready, i + 1, calls1);
    }
  }

  lemma AccepterMatches(w: World, es: seq<PollFd>, fds: seq<int>, ready: set<int>, calls: seq<Call>)
    requires Honest(w) && Select.TableOk(w, fds, calls) && ready <= Select.Watched(fds)
    requires Matches(es, fds) && Agree(es, ready, 1)
    ensures var (es1, calls1) := Accepter(w, es, calls);
            var (fds1, calls2) := Select.Accepter(w, fds, calls);
            Matches(es1, fds1) && calls1 == calls2 && Agree(es1, ready, 1)
  {
    var fd := w.accept(calls);
    assert fd > 0 ==> fd !in ready;
    var (es1, calls1) := Accepter(w, es, calls);
    assert Column(es1) == Select.Accepter(w, fds, calls).0;
  }

  lemma PassMatches(w: World, es: seq<PollFd>, fds: seq<int>, ready: set<int>, calls: seq<Call>)
    requires Honest(w) && Select.TableOk(w, fds, calls) && ready <= Select.Watched(fds)
    requires Matches(es, fds) && Agree(es, ready, 0)
    ensures var (es1, calls1) := HandlerEvent(w, es, 0, calls);
            var (fds1, calls2) := Select.HandlerEvent(w, fds, ready, 0, calls);
            Matches(es1, fds1) && calls1 == calls2
  {
    assert es[0].fd == fds[0];
    var (es1, calls1) := Dispatch(w, es, 0, calls);
    var (fds1, calls2) := Select.Dispatch(w, fds, ready, 0, calls);
    if fds[0] in ready {
      AccepterMatches(w, es, fds, ready, calls);
      Select.AccepterKeepsTable(w, fds, calls);
    }
    PassFromSlotMatches(w, es1, fds1, ready, 1, calls1);
  }

  // Nothing ready, nothing done.
  lemma {:induction false} QuietPass(w: World, fds: seq<int>, i: nat, calls: seq<Call>)
    requires i <= |fds|
    ensures Select.HandlerEvent(w, fds, {}, i, calls) == (fds, calls)
    decreases |fds| - i
  {
    if i < |fds| {
      QuietPass(w, fds, i + 1, calls);
    }
  }

  lemma {:induction false} ReportedNone(es: seq<PollFd>)
    requires Reported(es) == 0
    ensures forall i | 0 <= i < |es| :: es[i].revents == 0
  {
    if es != [] {
      ReportedNone(es[..|es| - 1]);
      forall i | 0 <= i < |es|
        ensures es[i].revents == 0
      {
        if i < |es| - 1 {
          assert es[i] == es[..|es| - 1][i];
        }
      }
    }
  }

  lemma SameWatched(w: World, es: seq<PollFd>, fds: seq<int>, calls: seq<Call>)
    requires Select.TableOk(w, fds, calls) && Matches(es, fds)
    ensures PollWatched(es) == Select.Watched(fds)
  {
    forall i | 0 <= i < |es|
      ensures es[i].fd == fds[i] && (fds[i] != FREE ==> fds[i] >= 0)
    {
    }
    forall fd
      ensures fd in PollWatched(es) <==> fd in Select.Watched(fds)
    {
      if fd in Select.Watched(fds) {
        var i :| 0 <= i < |fds| && fds[i] != FREE && fds[i] == fd;
        assert es[i].fd == fd && HasPollIn(es[i].events);
      }
    }
  }

  lemma FilledEntry(w: World, calls: seq<Call>, ready: set<int>, e: PollFd)
    requires e.fd >= 0 && e.events == POLLIN
    ensures HasPollIn(Filled(w, calls, ready, e).revents) <==> e.fd in ready
  {
    var f := w.flags(calls, e.fd);
    assert (2 * f) % 2 == 0 && (2 * f + 1) % 2 == 1;
  }

  // Waiting changes only revents, and leaves those of a free slot 0.
  lemma WaitKeepsMatch(w: World, es: seq<PollFd>, fds: seq<int>, calls: seq<Call>)
    requires Matches(es, fds)
    ensures Matches(PollOutcome(w, calls, es).1, fds)
  {
    var filled := PollOutcome(w, calls, es).1;
    forall i | 0 <= i < |es|
      ensures filled[i].fd == fds[i]
      ensures if filled[i].fd == FREE then filled[i] == EMPTY else filled[i].events == POLLIN
    {
      assert if es[i].fd == FREE then es[i] == EMPTY else es[i].events == POLLIN;
    }
    assert Column(filled) == fds;
  }

  // Unless the wait failed, poll's table reports POLLIN exactly where select's set has a descriptor.
  lemma WaitAgrees(w: World, es: seq<PollFd>, fds: seq<int>, calls: seq<Call>)
    requires Select.TableOk(w, fds, calls) && Matches(es, fds) && !w.wait(calls).Failed?
    ensures Agree(PollOutcome(w, calls, es).1, SelectOutcome(w, calls, Select.Watched(fds)).1, 0)
  {
    var filled := PollOutcome(w, calls, es).1;
    var ready := SelectOutcome(w, calls, Select.Watched(fds)).1;
    forall j | 0 <= j < |es| && filled[j].fd != FREE
      ensures HasPollIn(filled[j].revents) <==> filled[j].fd in ready
    {
      assert es[j].fd == fds[j] && fds[j] in Select.Watched(fds);
      if w.wait(calls).Ready? {
        FilledEntry(w, calls, w.wait(calls).fds, es[j]);
      }
    }
  }

  // If poll reports nothing, select reports nothing.
  lemma QuietTogether(w: World, es: seq<PollFd>, fds: seq<int>, calls: seq<Call>)
    requires Select.TableOk(w, fds, calls) && Matches(es, fds)
    requires PollOutcome(w, calls, es).0 == 0 || PollOutcome(w, calls, es).0 == -1
    ensures SelectOutcome(w, calls, Select.Watched(fds)).1 == {}
  {
    var (n, filled) := PollOutcome(w, calls, es);
    var ready := SelectOutcome(w, calls, Select.Watched(fds)).1;
    if w.wait(calls).Ready? {
      ReportedNone(filled);
      WaitAgrees(w, es, fds, calls);
      WaitKeepsMatch(w, es, fds, calls);
    }
  }

  lemma RoundMatches(w: World, es: seq<PollFd>, fds: seq<int>, calls: seq<Call>)
    requires Honest(w) && Select.TableOk(w, fds, calls) && Matches(es, fds)
    ensures var (es1, calls1) := Round(w, es, calls);
            var (fds1, calls2) := Select.Round(w, fds, calls);
            Matches(es1, fds1) && calls1 == calls2
  {
    var (n, filled) := PollOutcome(w, calls, es);
    var (m, ready) := SelectOutcome(w, calls, Select.Watched(fds));
    SameWatched(w, es, fds, calls);
    WaitKeepsMatch(w, es, fds, calls);
    if n == 0 || n == -1 {
      QuietTogether(w, es, fds, calls);
    }
    Select.WaitKeepsTable(w, fds, calls);
    var calls1 := calls + [Wait(Select.Watched(fds))];
    if ready == {} {
      QuietPass(w, fds, 0, calls1);
    }
    if !w.wait(calls).Failed? {
      WaitAgrees(w, es, fds, calls);
      PassMatches(w, filled, fds, ready, calls1);
    }
  }

  lemma InitMatches(w: World, gnum: nat)
    requires Honest(w) && gnum > 0
    ensures Matches(InitTable(w, gnum), Select.InitTable(w, gnum))
  {
    assert Column(InitTable(w, gnum)) == Select.InitTable(w, gnum);
  }

  lemma {:induction false} LoopMatches(w: World, gnum: nat, k: nat)
    requires Honest(w) && gnum > 0
    ensures Matches(Loop(w, gnum, k).0, Select.Loop(w, gnum, k).0) && Loop(w, gnum, k).1 == Select.Loop(w, gnum, k).1
  {
    if k == 0 {
      InitMatches(w, gnum);
    } else {
      LoopMatches(w, gnum, k - 1);
      Select.LoopKeepsTable(w, gnum, k - 1);
      var (es, calls) := Loop(w, gnum, k - 1);
      RoundMatches(w, es, Select.Loop(w, gnum, k - 1).0, calls);
    }
  }

  // Given the same world, the two servers hold the same descriptors in the same slots and have
  // made the same calls, in the same order, after any number of iterations.
  lemma Lockstep(w: World, gnum: nat, k: nat)
    requires Honest(w) && gnum > 0
    ensures Column(Loop(w, gnum, k).0) == Select.Loop(w, gnum, k).0
    ensures Loop(w, gnum, k).1 == Select.Loop(w, gnum, k).1
    ensures forall e | e in Loop(w, gnum, k).0 && e.fd == FREE :: e.events == 0 && e.revents == 0
  {
    LoopMatches(w, gnum, k);
  }

  // So what no run of the select server does, no run of the poll server does.
  lemma ServerIsNeverFull(w: World, gnum: nat, k: nat)
    requires Honest(w) && Select.NumbersBelow(w, gnum)
    ensures var (es, calls) := Loop(w, gnum, k);
            Select.FirstFree(Column(es), 1) < gnum && Select.ClosesFollowRecv(calls)
  {
    Lockstep(w, gnum, k);
    Select.ServerIsNeverFull(w, gnum, k);
  }

  lemma EveryRequestAnswered(w: World, gnum: nat, k: nat)
    requires Honest(w) && gnum > 0
    ensures var calls := Loop(w, gnum, k).1;
            Select.AllAnswered(calls) && Select.AllWatchOpen(w.listener, calls)
  {
    Lockstep(w, gnum, k);
    Select.EveryRequestAnswered(w, gnum, k);
    Select.EveryWaitWatchesOpen(w, gnum, k);
  }
}

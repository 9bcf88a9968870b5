/**
  The kernel below the two event servers. A world fixes how every call turns out as a function
  of the calls made before it, so two servers given the same world are given the same read
  readiness and the same results, for as long as they make the same calls.
*/
module EventKernel {

  datatype Call =
    | Wait(watched: set<int>)          // select or poll, with the descriptors watched for reading
    | Accept(result: int)
    | Recv(fd: int, result: int)
    | Send(fd: int)
    | Close(fd: int)

  datatype WaitResult = TimedOut | Failed | Ready(fds: set<int>)

  // `flags` are the bits other than POLLIN that poll reports for a descriptor.
  datatype World = World(
    listener: int,
    wait: seq<Call> -> WaitResult,
    accept: seq<Call> -> int,
    recv: (seq<Call>, int) -> int,
    flags: (seq<Call>, int) -> nat)

  // The descriptors open after the calls: the listener and the clients accepted, not yet closed.
  function Open(listener: int, calls: seq<Call>): set<int>
  {
    if calls == [] then {listener}
    else OpenAfter(Open(listener, calls[..|calls| - 1]), calls[|calls| - 1])
  }

  function OpenAfter(open: set<int>, c: Call): set<int>
  {
    match c
    case Accept(fd) => if fd > 0 then open + {fd} else open
    case Close(fd) => open - {fd}
    case _ => open
  }

  // accept returns an error or a descriptor that is not open. (0 would do as an error too: the
  // servers ignore it.)
  ghost predicate Honest(w: World)
  {
    w.listener >= 0 &&
    forall calls :: w.accept(calls) > 0 ==> w.accept(calls) !in Open(w.listener, calls)
  }

  // Every recv, send and close so far was on an open client descriptor.
  ghost predicate Clean(listener: int, calls: seq<Call>)
  {
    calls == [] ||
    var before := calls[..|calls| - 1];
    Clean(listener, before) &&
    match calls[|calls| - 1]
    case Recv(fd, _) => fd in Open(listener, before) && fd != listener
    case Send(fd) => fd in Open(listener, before) && fd != listener
    case Close(fd) => fd in Open(listener, before) && fd != listener
    case _ => true
  }

  // The descriptors recv was called on, in order.
  function Recvs(calls: seq<Call>): seq<int>
  {
    if calls == [] then [] else
      var last := calls[|calls| - 1];
      Recvs(calls[..|calls| - 1]) + if last.Recv? then [last.fd] else []
  }

  function Accepts(calls: seq<Call>): nat
  {
    if calls == [] then 0 else
      Accepts(calls[..|calls| - 1]) + if calls[|calls| - 1].Accept? then 1 else 0
  }

  // What select hands back: its result and, if positive, the ready descriptors.
  function SelectOutcome(w: World, calls: seq<Call>, watched: set<int>): (int, set<int>)
  {
    match w.wait(calls)
    case TimedOut => (0, {})
    case Failed => (-1, {})
    case Ready(fds) => (|fds * watched|, fds * watched)
  }

  // ---- poll's table ------------------------------------------------------------------------

  datatype PollFd = PollFd(fd: int, events: int, revents: int)

  const POLLIN: int := 1

  predicate HasPollIn(bits: int) { bits % 2 == 1 }

  // The descriptors poll watches for reading: negative ones are skipped.
  function PollWatched(es: seq<PollFd>): set<int>
  {
    set i | 0 <= i < |es| && es[i].fd >= 0 && HasPollIn(es[i].events) :: es[i].fd
  }

  // revents as poll fills them in: 0 for a skipped entry; POLLIN only where asked for.
  function Filled(w: World, calls: seq<Call>, ready: set<int>, e: PollFd): PollFd
  {
    e.(revents := if e.fd < 0 then 0
                  else 2 * w.flags(calls, e.fd) + if e.fd in ready && HasPollIn(e.events) then POLLIN else 0)
  }

  function Reported(es: seq<PollFd>): nat
  {
    if es == [] then 0 else Reported(es[..|es| - 1]) + if es[|es| - 1].revents != 0 then 1 else 0
  }

  // What poll returns and how it leaves the table.
  function PollOutcome(w: World, calls: seq<Call>, es: seq<PollFd>): (r: (int, seq<PollFd>))
    ensures |r.1| == |es|
  {
    match w.wait(calls)
    case Failed => (-1 as int, es)
    case TimedOut => (0, seq(|es|, i requires 0 <= i < |es| => es[i].(revents := 0)))
    case Ready(fds) =>
      var filled := seq(|es|, i requires 0 <= i < |es| => Filled(w, calls, fds, es[i]));
      (Reported(filled), filled)
  }

  // ---- the calls, as a server makes them -----------------------------------------------------

  class Kernel {
    const world: World
    var calls: seq<Call>

    constructor (world: World)
      ensures this.world == world && calls == []
    {
      this.world := world;
      calls := [];
    }

    method Accept() returns (fd: int)
      modifies this
      ensures fd == world.accept(old(calls)) && calls == old(calls) + [Call.Accept(fd)]
    {
      fd := world.accept(calls);
      calls := calls + [Call.Accept(fd)];
    }

    method Recv(fd: int) returns (n: int)
      modifies this
      ensures n == world.recv(old(calls), fd) && calls == old(calls) + [Call.Recv(fd, n)]
    {
      n := world.recv(calls, fd);
      calls := calls + [Call.Recv(fd, n)];
    }

    method Send(fd: int)
      modifies this
      ensures calls == old(calls) + [Call.Send(fd)]
    {
      calls := calls + [Call.Send(fd)];
    }

    method Close(fd: int)
      modifies this
      ensures calls == old(calls) + [Call.Close(fd)]
    {
      calls := calls + [Call.Close(fd)];
    }

    // select looks only at descriptors below nfds.
    method Select(nfds: int, rfds: set<int>) returns (n: int, ready: set<int>)
      modifies this
      ensures var watched := set fd | fd in rfds && fd < nfds;
              && (n, ready) == SelectOutcome(world, old(calls), watched)
              && calls == old(calls) + [Wait(watched)]
    {
      var watched := set fd | fd in rfds && fd < nfds;
      var outcome := SelectOutcome(world, calls, watched);
      n, ready := outcome.0, outcome.1;
      calls := calls + [Wait(watched)];
    }

    method Poll(table: array<PollFd>) returns (n: int)
      modifies this, table
      ensures (n, table[..]) == PollOutcome(world, old(calls), old(table[..]))
      ensures calls == old(calls) + [Wait(PollWatched(old(table[..])))]
    {
      var outcome := PollOutcome(world, calls, table[..]);
      calls := calls + [Wait(PollWatched(table[..]))];
      n := outcome.0;
      forall i | 0 <= i < table.Length {
        table[i] := outcome.1[i];
      }
      assert table[..] == outcome.1;
    }
  }
}

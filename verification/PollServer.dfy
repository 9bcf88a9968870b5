/**
  The poll server: its pollfd array, updated in place by the kernel and by the scan.
*/
module PollServerClass {
  import opened EventKernel
  import Model = PollModel
  import Select = SelectModel

  const GNUM: nat := 1024   // sizeof(fd_set) * 8
  const FREE: int := Model.FREE

  class PollServer {
    const kernel: Kernel
    const fdEvents: array<PollFd>

    ghost predicate Valid()
      reads this
    {
      fdEvents.Length == GNUM
    }

    constructor (kernel: Kernel)
      ensures Valid() && this.kernel == kernel && fresh(fdEvents)
    {
      this.kernel := kernel;
      fdEvents := new PollFd[GNUM](_ => Model.EMPTY);
    }

    method InitServer()
      requires Valid()
      modifies fdEvents
      ensures fdEvents[..] == Model.InitTable(kernel.world, GNUM)
      ensures fdEvents.Length == 1024 && fdEvents[0] == PollFd(kernel.world.listener, 1, 0)
      ensures forall i | 0 < i < 1024 :: fdEvents[i] == PollFd(-1, 0, 0)
    {
      for i := 0 to GNUM
        invariant forall j | 0 <= j < i :: fdEvents[j] == Model.EMPTY
      {
        fdEvents[i] := PollFd(FREE, 0, 0);
      }
      fdEvents[0] := fdEvents[0].(fd := kernel.world.listener);
      fdEvents[0] := fdEvents[0].(events := POLLIN);
    }

    method Accepter()
      requires Valid()
      modifies fdEvents, kernel
      ensures (fdEvents[..], kernel.calls) == Model.Accepter(kernel.world, old(fdEvents[..]), old(kernel.calls))
    {
      var sockfd := kernel.Accept();
      if sockfd > 0 {
        var flag := false;
        ghost var before := fdEvents[..];
        ghost var target := Select.FirstFree(Model.Column(before), 1);
        for pos := 1 to GNUM
          invariant !flag && fdEvents[..] == before && target == Select.FirstFree(Model.Column(before), pos)
        {
          if fdEvents[pos].fd == FREE {
            flag := true;
            fdEvents[pos] := fdEvents[pos].(fd := sockfd);
            fdEvents[pos] := fdEvents[pos].(events := POLLIN);
            break;
          }
        }
        assert flag ==> target < GNUM && fdEvents[..] == before[target := before[target].(fd := sockfd, events := POLLIN)];
        if !flag {
          kernel.Close(sockfd);
        }
      }
    }

    method HandlerIO(i: nat)
      requires Valid() && i < GNUM
      modifies fdEvents, kernel
      ensures (fdEvents[..], kernel.calls) == Model.HandlerIO(kernel.world, old(fdEvents[..]), i, old(kernel.calls))
    {
      var n := kernel.Recv(fdEvents[i].fd);
      if n > 0 {
        kernel.Send(fdEvents[i].fd);
      } else if n == 0 {
        kernel.Close(fdEvents[i].fd);
        fdEvents[i] := PollFd(FREE, 0, 0);
      } else {
        kernel.Close(fdEvents[i].fd);
        fdEvents[i] := PollFd(FREE, 0, 0);
      }
    }

    method HandlerEvent()
      requires Valid()
      modifies fdEvents, kernel
      ensures (fdEvents[..], kernel.calls) == Model.HandlerEvent(kernel.world, old(fdEvents[..]), 0, old(kernel.calls))
    {
      for i := 0 to GNUM
        invariant Model.HandlerEvent(kernel.world, fdEvents[..], i, kernel.calls)
               == Model.HandlerEvent(kernel.world, old(fdEvents[..]), 0, old(kernel.calls))
      {
        if fdEvents[i].fd == FREE {
          continue;
        }
        if HasPollIn(fdEvents[i].revents) {
          if kernel.world.listener == fdEvents[i].fd {
            Accepter();
          } else {
            HandlerIO(i);
          }
        }
      }
    }

    // One iteration of Loop.
    method Round()
      requires Valid()
      modifies fdEvents, kernel
      ensures (fdEvents[..], kernel.calls) == Model.Round(kernel.world, old(fdEvents[..]), old(kernel.calls))
    {
      var n := kernel.Poll(fdEvents);
      if n != 0 && n != -1 {
        HandlerEvent();
      }
    }

    // `rounds` iterations of Loop from InitServer on.
    method Loop(rounds: nat)
      requires Valid() && kernel.calls == []
      modifies fdEvents, kernel
      ensures (fdEvents[..], kernel.calls) == Model.Loop(kernel.world, GNUM, rounds)
    {
      InitServer();
      for k := 0 to rounds
        invariant (fdEvents[..], kernel.calls) == Model.Loop(kernel.world, GNUM, k)
      {
        Round();
      }
    }
  }
}

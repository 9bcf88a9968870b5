/**
  The select server: its descriptor array, updated in place while it is being scanned.
*/
module SelectServerClass {
  import opened EventKernel
  import Model = SelectModel

  const GNUM: nat := 1024   // sizeof(fd_set) * 8
  const FREE: int := Model.FREE

  class SelectServer {
    const kernel: Kernel
    const fdArray: array<int>

    ghost predicate Valid()
      reads this
    {
      fdArray.Length == GNUM
    }

    constructor (kernel: Kernel)
      ensures Valid() && this.kernel == kernel && fresh(fdArray)
    {
      this.kernel := kernel;
      fdArray := new int[GNUM];
    }

    method InitServer()
      requires Valid()
      modifies fdArray
      ensures fdArray[..] == Model.InitTable(kernel.world, GNUM)
      ensures fdArray.Length == 1024 && fdArray[0] == kernel.world.listener
      ensures forall i | 0 < i < 1024 :: fdArray[i] == -1
    {
      for i := 0 to GNUM
        invariant forall j | 0 <= j < i :: fdArray[j] == FREE
      {
        fdArray[i] := FREE;
      }
      fdArray[0] := kernel.world.listener;
    }

    method Accepter()
      requires Valid()
      modifies fdArray, kernel
      ensures (fdArray[..], kernel.calls) == Model.Accepter(kernel.world, old(fdArray[..]), old(kernel.calls))
    {
      var sockfd := kernel.Accept();
      if sockfd > 0 {
        var flag := false;
        ghost var target := Model.FirstFree(fdArray[..], 1);
        for pos := 1 to GNUM
          invariant !flag && fdArray[..] == old(fdArray[..]) && target == Model.FirstFree(fdArray[..], pos)
        {
          if fdArray[pos] == FREE {
            flag := true;
            fdArray[pos] := sockfd;
            break;
          }
        }
        assert flag ==> target < GNUM && fdArray[..] == old(fdArray[..])[target := sockfd];
        if !flag {
          kernel.Close(sockfd);
        }
      }
    }

    method HandlerIO(i: nat)
      requires Valid() && i < GNUM
      modifies fdArray, kernel
      ensures (fdArray[..], kernel.calls) == Model.HandlerIO(kernel.world, old(fdArray[..]), i, old(kernel.calls))
    {
      var n := kernel.Recv(fdArray[i]);
      if n > 0 {
        kernel.Send(fdArray[i]);
      } else if n == 0 {
        kernel.Close(fdArray[i]);
        fdArray[i] := FREE;
      } else {
        kernel.Close(fdArray[i]);
        fdArray[i] := FREE;
      }
    }

    method HandlerEvent(rfds: set<int>)
      requires Valid()
      modifies fdArray, kernel
      ensures (fdArray[..], kernel.calls) == Model.HandlerEvent(kernel.world, old(fdArray[..]), rfds, 0, old(kernel.calls))
    {
      for i := 0 to GNUM
        invariant Model.HandlerEvent(kernel.world, fdArray[..], rfds, i, kernel.calls)
               == Model.HandlerEvent(kernel.world, old(fdArray[..]), rfds, 0, old(kernel.calls))
      {
        if fdArray[i] == FREE {
          continue;
        }
        if fdArray[i] in rfds {
          if kernel.world.listener == fdArray[i] {
            Accepter();
          } else {
            HandlerIO(i);
          }
        }
      }
    }

    // The first half of an iteration of Loop: the descriptors to watch and the largest of them.
    method BuildSet() returns (rfds: set<int>, maxFd: int)
      requires Valid()
      ensures rfds == Model.Watched(fdArray[..])
      ensures forall fd | fd in rfds :: fd <= maxFd
      ensures maxFd == FREE || maxFd in rfds
    {
      rfds := {};
      maxFd := FREE;
      for i := 0 to GNUM
        invariant rfds == Model.Watched(fdArray[..i])
        invariant forall fd | fd in rfds :: fd <= maxFd
        invariant maxFd == FREE || maxFd in rfds
      {
        WatchedSnoc(fdArray[..i], fdArray[i]);
        assert fdArray[..i + 1] == fdArray[..i] + [fdArray[i]];
        if fdArray[i] == FREE {
          continue;
        }
        rfds := rfds + {fdArray[i]};
        if maxFd < fdArray[i] {
          maxFd := fdArray[i];
        }
      }
      assert fdArray[..GNUM] == fdArray[..];
    }

    // One iteration of Loop. FD_SET is defined for descriptors below FD_SETSIZE only.
    method Round()
      requires Valid()
      requires forall i | 0 <= i < GNUM && fdArray[i] != FREE :: 0 <= fdArray[i] < GNUM
      modifies fdArray, kernel
      ensures (fdArray[..], kernel.calls) == Model.Round(kernel.world, old(fdArray[..]), old(kernel.calls))
    {
      var rfds, maxFd := BuildSet();
      assert rfds == set fd | fd in rfds && fd < maxFd + 1;
      var n, ready := kernel.Select(maxFd + 1, rfds);
      if n != 0 && n != -1 {
        HandlerEvent(ready);
      }
    }

    // `rounds` iterations of Loop from InitServer on.
    method Loop(rounds: nat)
      requires Valid() && kernel.calls == []
      requires Honest(kernel.world) && Model.NumbersBelow(kernel.world, GNUM)
      modifies fdArray, kernel
      ensures (fdArray[..], kernel.calls) == Model.Loop(kernel.world, GNUM, rounds)
    {
      InitServer();
      for k := 0 to rounds
        invariant (fdArray[..], kernel.calls) == Model.Loop(kernel.world, GNUM, k)
      {
        Model.LoopKeepsTable(kernel.world, GNUM, k);
        Model.LoopStaysBelow(kernel.world, GNUM, k);
        forall i | 0 <= i < GNUM && fdArray[i] != FREE
          ensures 0 <= fdArray[i] < GNUM
        {
          assert fdArray[..][i] in Open(kernel.world.listener, kernel.calls);
        }
        Round();
      }
    }
  }

  lemma WatchedSnoc(fds: seq<int>, fd: int)
    ensures Model.Watched(fds + [fd]) == Model.Watched(fds) + if fd == FREE then {} else {fd}
  {
    var all := fds + [fd];
    forall x
      ensures x in Model.Watched(all) <==> x in Model.Watched(fds) || (fd != FREE && x == fd)
    {
      if x in Model.Watched(fds) {
        var i :| 0 <= i < |fds| && fds[i] != FREE && fds[i] == x;
        assert all[i] == x;
      }
      if fd != FREE && x == fd {
        assert all[|fds|] == x;
      }
    }
  }
}

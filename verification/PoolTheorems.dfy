/**
  Whole-run properties of the thread pool: no lost wakeup, exactly-once execution in order, finite
  runs that rest only when all work is done, and drain and termination after Stop.
*/
module PoolTheorems {
  import opened Tally
  import opened PoolMachine
  import opened PoolProofs

  lemma InitInv<T>(n: nat, m: nat)
    ensures Inv(Init<T>(n, m))
  {
    var s: State<T> := Init(n, m);
    TotalZero(s.workers, Sleeping);
    TotalZero(s.workers, IsBlocked);
    BagEmpty(s.workers, InHand);
  }

  // Every state any interleaving reaches satisfies the invariant.
  lemma {:induction false} RunKeepsInv<T>(s: State<T>, ms: seq<Move<T>>)
    requires Inv(s) && Run(s, ms).Some?
    ensures Inv(Run(s, ms).value)
  {
    if ms != [] {
      RunKeepsInv(s, ms[..|ms| - 1]);
      StepKeepsInv(Run(s, ms[..|ms| - 1]).value, ms[|ms| - 1]);
    }
  }

  // ---- no lost wakeup --------------------------------------------------------------------------

  // With the mutex free, the counter that gates signalling is exactly the number of workers
  // blocked or woken and not yet back in the lock.
  lemma CounterIsExact<T>(s: State<T>)
    requires Inv(s) && s.pool.mutex.None?
    ensures s.pool.sleepers == Total(s.workers, IsBlocked) + Total(s.workers, IsWoken)
  {
    SleepingSplits(s.workers);
  }

  lemma {:induction false} SleepingSplits<T>(workers: seq<WPc<T>>)
    requires forall i | 0 <= i < |workers| :: !WorkerInLock(workers[i])
    ensures Total(workers, Sleeping) == Total(workers, IsBlocked) + Total(workers, IsWoken)
  {
    if workers != [] {
      SleepingSplits(workers[..|workers| - 1]);
    }
  }

  // With the mutex free and the pool running, as long as someone is blocked there are no more
  // queued tasks than woken workers on their way to take one.
  lemma NoLostWakeup<T>(s: State<T>)
    requires Inv(s) && s.pool.mutex.None? && s.pool.running && SomeBlocked(s.workers)
    ensures |s.pool.queue| <= Total(s.workers, IsWoken)
  {
    SomeoneBlocked(s.workers);
    TotalMonotone(s.workers, s.workers, Looking, IsWoken);
    TotalZero(s.clients, Signalling);
  }

  // A queued task is never left with nobody to take it: if the pool runs, some worker can take
  // its next line, or the thread holding the mutex can.
  lemma TaskNeverStranded<T>(s: State<T>)
    requires Inv(s) && s.pool.running && s.pool.queue != [] && s.workers != []
    ensures exists m :: Enabled(s, m) && (m.WorkerStep? || (m.ClientStep? && s.pool.mutex == Some(Client(m.c))))
  {
    if s.pool.mutex.Some? {
      HolderCanStep(s);
    } else if forall i | 0 <= i < |s.workers| :: s.workers[i].WBlocked? {
      assert s.workers[0].WBlocked?;
      NoLostWakeup(s);
      TotalZero(s.workers, IsWoken);
    } else {
      var i :| 0 <= i < |s.workers| && !s.workers[i].WBlocked?;
      assert Enabled(s, WorkerStep(i));
    }
  }

  // Whoever holds the mutex is never blocked inside.
  lemma HolderCanStep<T>(s: State<T>)
    requires Inv(s) && s.pool.mutex.Some?
    ensures exists m :: Enabled(s, m) && (m.WorkerStep? || (m.ClientStep? && s.pool.mutex == Some(Client(m.c))))
  {
    match s.pool.mutex.value
    case Worker(i) => assert WorkerKnows(s.pool, s.workers[i]); assert Enabled(s, WorkerStep(i));
    case Client(c) =>
      assert Enabled(s, ClientStep(c, if s.clients[c].ESignal? then Blocked(s.workers) else {})) by {
        if i :| 0 <= i < |s.workers| && s.workers[i].WBlocked? {
          assert i in Blocked(s.workers);
        }
      }
  }

  // ---- every accepted task exactly once, in order ------------------------------------------------

  // In every run workers take tasks in the order Equeue accepted them, and each task taken is in
  // one worker's hands or has been executed.
  lemma TakenInOrder<T>(n: nat, m: nat, ms: seq<Move<T>>)
    requires Run(Init<T>(n, m), ms).Some?
    ensures var s := Run(Init<T>(n, m), ms).value;
            && s.accepted == s.taken + s.pool.queue
            && multiset(s.taken) == s.executed + Bag(s.workers, InHand)
  {
    InitInv<T>(n, m);
    RunKeepsInv(Init<T>(n, m), ms);
  }

  lemma QuitMeansDrained<T>(s: State<T>, i: nat)
    requires Inv(s) && i < |s.workers| && s.workers[i].WQuit?
    ensures !s.pool.running && s.pool.queue == [] && s.taken == s.accepted
  {
    assert WorkerKnows(s.pool, s.workers[i]);
  }

  lemma QuitStays<T>(s: State<T>, m: Move<T>, i: nat)
    requires i < |s.workers| && s.workers[i].WQuit? && Enabled(s, m)
    ensures i < |Apply(s, m).workers| && Apply(s, m).workers[i].WQuit?
  {
    if m.ClientStep? {
      WorkersAfterClient(s, m);
    }
  }

  // A worker quits only when the queue is empty and no task will ever come: whatever happens
  // afterwards, every accepted task has been taken and the queue stays empty.
  lemma {:induction false} QuitIsFinal<T>(s: State<T>, i: nat, ms: seq<Move<T>>)
    requires Inv(s) && i < |s.workers| && s.workers[i].WQuit? && Run(s, ms).Some?
    ensures var s' := Run(s, ms).value;
            && i < |s'.workers| && s'.workers[i].WQuit?
            && !s'.pool.running && s'.pool.queue == [] && s'.taken == s'.accepted == s.accepted
  {
    if ms != [] {
      QuitIsFinal(s, i, ms[..|ms| - 1]);
      QuitStays(Run(s, ms[..|ms| - 1]).value, ms[|ms| - 1], i);
      QuitMeansDrained(s, i);
      NothingAcceptedAfterStop(s, ms);
      RunKeepsInv(s, ms);
      QuitMeansDrained(Run(s, ms).value, i);
    } else {
      QuitMeansDrained(s, i);
    }
  }

  // Once the flag is cleared it stays so, and no further task is accepted, whoever calls.
  lemma {:induction false} NothingAcceptedAfterStop<T>(s: State<T>, ms: seq<Move<T>>)
    requires Inv(s) && !s.pool.running && Run(s, ms).Some?
    ensures var s' := Run(s, ms).value;
            !s'.pool.running && s'.accepted == s.accepted
  {
    if ms != [] {
      var before, m := Run(s, ms[..|ms| - 1]).value, ms[|ms| - 1];
      NothingAcceptedAfterStop(s, ms[..|ms| - 1]);
      RunKeepsInv(s, ms[..|ms| - 1]);
      FlagStaysClear(before, m);
    }
  }

  lemma FlagStaysClear<T>(s: State<T>, m: Move<T>)
    requires Knowledge(s) && !s.pool.running && Enabled(s, m)
    ensures var s' := Apply(s, m);
            !s'.pool.running && s'.accepted == s.accepted && |s'.pool.queue| <= |s.pool.queue|
  {
    if m.ClientStep? {
      assert ClientKnows(s.pool, s.clients[m.c]);
    }
  }

  // When all workers have quit, every accepted task has been executed exactly once.
  lemma AllQuitAllExecuted<T>(s: State<T>)
    requires Inv(s) && s.workers != [] && forall i | 0 <= i < |s.workers| :: s.workers[i].WQuit?
    ensures s.executed == multiset(s.accepted) && s.taken == s.accepted
  {
    QuitMeansDrained(s, 0);
    BagEmpty(s.workers, InHand);
  }

  // ---- running out of work --------------------------------------------------------------------

  // Lines a worker still has to execute until it blocks or leaves, if it takes no further task.
  function WRank<T>(pc: WPc<T>): nat
  {
    match pc
    case WQuit => 0
    case WBlocked => 0
    case WQuitUnlock => 1
    case WWait => 1
    case WPop(_) => 2
    case WCount => 2
    case WFront => 3
    case WQuitTest => 4
    case WTest => 5
    case WLock => 6
    case WUncount => 6
    case WWoken => 7
    case WRun(_) => 7
    case WUnlock(_) => 8
  }

  // With a queued task worth seven lines, every line of a worker leaves less to do.
  lemma WorkerLineDescends<T>(p: Pool<T>, i: nat, pc: WPc<T>)
    requires WorkerUnblocked(p, pc) && WorkerDefined(p, pc) && WorkerKnows(p, pc)
    ensures var (p', pc') := WorkerLine(p, i, pc);
            && 7 * |p'.queue| + WRank(pc') < 7 * |p.queue| + WRank(pc)
            && p'.running == p.running && (!p.running ==> !pc'.WBlocked?)
  {
  }

  // The same for a call, which while the pool runs may also queue a task or wake all n workers.
  function BusyRank<T>(n: nat, pc: CPc<T>): nat
  {
    match pc
    case CIdle => 0
    case EUnlock => 1
    case ESignal => 7 * n + 2
    case EWake => 7 * n + 3
    case EPush(_) => 7 * n + 11
    case ETest(_) => 7 * n + 12
    case ELock(_) => 7 * n + 13
    case SUnlock => 1
    case SBroadcast => 7 * n + 2
    case SClear => 7 * n + 3
    case SLock => 7 * n + 4
  }

  function Busy<T>(n: nat): CPc<T> -> nat
  {
    pc => BusyRank(n, pc)
  }

  ghost function WorkLeft<T>(s: State<T>): nat
  {
    7 * |s.pool.queue| + Total(s.workers, WRank) + Total(s.clients, Busy(|s.workers|))
  }

  lemma ClientLineWorks<T>(p: Pool<T>, c: nat, pc: CPc<T>, n: nat)
    requires ClientUnblocked(p, pc)
    ensures var (p', pc') := ClientLine(p, c, pc);
            7 * |p'.queue| + BusyRank(n, pc') + (if Wakes(pc).NoOne? then 0 else 7 * n) < 7 * |p.queue| + BusyRank(n, pc)
  {
  }

  lemma {:induction false} TotalBounded<A>(s: seq<A>, t: seq<A>, w: A -> nat, d: nat)
    requires |s| == |t| && forall i | 0 <= i < |s| :: w(t[i]) <= w(s[i]) + d
    ensures Total(t, w) <= Total(s, w) + d * |s|
  {
    if s != [] {
      var n := |s| - 1;
      TotalBounded(s[..n], t[..n], w, d);
      assert d * |s| == d * n + d;
    }
  }

  predicate IsCall<T>(m: Move<T>) { m.CallEqueue? || m.CallStop? }

  // What a move costs when it brings new work instead of doing some.
  function NewWork<T>(n: nat, m: Move<T>): nat
  {
    if IsCall(m) then 7 * n + 14 else if m.SpuriousWakeup? then 8 else 0
  }

  lemma WorkerWorks<T>(s: State<T>, i: nat)
    requires Knowledge(s) && Enabled(s, WorkerStep(i))
    ensures WorkLeft(Apply(s, WorkerStep(i))) < WorkLeft(s)
  {
    var s' := Apply(s, WorkerStep(i));
    WorkerLineDescends(s.pool, i, s.workers[i]);
    TotalUpdate(s.workers, i, s'.workers[i], WRank);
  }

  lemma ClientWorks<T>(s: State<T>, m: Move<T>)
    requires m.ClientStep? && Enabled(s, m)
    ensures WorkLeft(Apply(s, m)) < WorkLeft(s)
  {
    var s', pc := Apply(s, m), s.clients[m.c];
    ClientLineWorks(s.pool, m.c, pc, |s.workers|);
    TotalUpdate(s.clients, m.c, s'.clients[m.c], Busy(|s.workers|));
    WakeWorks(s.workers, Woken(s, m), Wakes(pc).NoOne?);
  }

  lemma WakeWorks<T>(workers: seq<WPc<T>>, chosen: set<nat>, none: bool)
    requires forall i | i in chosen :: i < |workers| && workers[i].WBlocked?
    requires none ==> chosen == {}
    ensures Total(Wake(workers, chosen), WRank) <= Total(workers, WRank) + if none then 0 else 7 * |workers|
  {
    TotalBounded(workers, Wake(workers, chosen), WRank, if none then 0 else 7);
  }

  lemma MoveWorks<T>(s: State<T>, m: Move<T>)
    requires Inv(s) && Enabled(s, m)
    ensures |Apply(s, m).workers| == |s.workers|
    ensures WorkLeft(Apply(s, m)) + 1 <= WorkLeft(s) + NewWork(|s.workers|, m)
  {
    match m
    case WorkerStep(i) => WorkerWorks(s, i);
    case SpuriousWakeup(i) => TotalUpdate(s.workers, i, WWoken, WRank);
    case CallEqueue(c, x) => TotalUpdate(s.clients, c, ELock(x), Busy(|s.workers|));
    case CallStop(c) => TotalUpdate(s.clients, c, SLock, Busy(|s.workers|));
    case ClientStep(c, _) => ClientWorks(s, m);
  }

  function Calls<T>(ms: seq<Move<T>>): nat
  {
    if ms == [] then 0 else Calls(ms[..|ms| - 1]) + if IsCall(ms[|ms| - 1]) then 1 else 0
  }

  function Spurious<T>(ms: seq<Move<T>>): nat
  {
    if ms == [] then 0 else Spurious(ms[..|ms| - 1]) + if ms[|ms| - 1].SpuriousWakeup? then 1 else 0
  }

  function AllNewWork<T>(n: nat, ms: seq<Move<T>>): nat
  {
    if ms == [] then 0 else AllNewWork(n, ms[..|ms| - 1]) + NewWork(n, ms[|ms| - 1])
  }

  lemma {:induction false} AllNewWorkIs<T>(n: nat, ms: seq<Move<T>>)
    ensures AllNewWork(n, ms) == (7 * n + 14) * Calls(ms) + 8 * Spurious(ms)
  {
    if ms != [] {
      var pre := ms[..|ms| - 1];
      AllNewWorkIs(n, pre);
      assert (7 * n + 14) * (Calls(pre) + 1) == (7 * n + 14) * Calls(pre) + (7 * n + 14);
    }
  }

  // Stopped or not: the length of a run is bounded by what was left to do and what the calls made
  // and the spurious wakeups suffered have added to it.
  lemma {:induction false} RunIsBounded<T>(s: State<T>, ms: seq<Move<T>>)
    requires Inv(s) && Run(s, ms).Some?
    ensures |Run(s, ms).value.workers| == |s.workers|
    ensures |ms| + WorkLeft(Run(s, ms).value) <= WorkLeft(s) + AllNewWork(|s.workers|, ms)
  {
    if ms != [] {
      RunIsBounded(s, ms[..|ms| - 1]);
      RunKeepsInv(s, ms[..|ms| - 1]);
      MoveWorks(Run(s, ms[..|ms| - 1]).value, ms[|ms| - 1]);
    }
  }

  lemma {:induction false} AllAtLock<T>(workers: seq<WPc<T>>)
    requires forall i | 0 <= i < |workers| :: workers[i].WLock?
    ensures Total(workers, WRank) == 6 * |workers|
  {
    if workers != [] {
      AllAtLock(workers[..|workers| - 1]);
    }
  }

  lemma InitialWork<T>(n: nat, m: nat)
    ensures WorkLeft(Init<T>(n, m)) == 6 * n
  {
    var s: State<T> := Init(n, m);
    TotalZero(s.clients, Busy(n));
    AllAtLock(s.workers);
  }

  // Every run of a pool of n workers in which finitely many calls are made and finitely many
  // spurious wakeups happen is finite, whoever else runs and whether or not Stop is called.
  lemma EveryRunIsFinite<T>(n: nat, m: nat, ms: seq<Move<T>>)
    requires Run(Init<T>(n, m), ms).Some?
    ensures |ms| <= 6 * n + (7 * n + 14) * Calls(ms) + 8 * Spurious(ms)
  {
    InitInv<T>(n, m);
    InitialWork<T>(n, m);
    RunIsBounded(Init<T>(n, m), ms);
    AllNewWorkIs(n, ms);
  }

  lemma AtRest<T>(s: State<T>)
    requires Inv(s) && forall m :: Enabled(s, m) ==> IsCall(m) || m.SpuriousWakeup?
    ensures s.pool.mutex.None?
    ensures forall c | 0 <= c < |s.clients| :: s.clients[c].CIdle?
    ensures forall i | 0 <= i < |s.workers| :: s.workers[i].WBlocked? || s.workers[i].WQuit?
  {
    if s.pool.mutex.Some? {
      HolderCanStep(s);
    }
    forall c | 0 <= c < |s.clients|
      ensures s.clients[c].CIdle?
    {
      assert ClientInLock(s.clients[c]) <==> s.pool.mutex == Some(Client(c));
      assert Enabled(s, ClientStep(c, {})) || s.clients[c].CIdle?;
    }
    forall i | 0 <= i < |s.workers|
      ensures s.workers[i].WBlocked? || s.workers[i].WQuit?
    {
      assert WorkerInLock(s.workers[i]) <==> s.pool.mutex == Some(Worker(i));
      assert Enabled(s, WorkerStep(i)) || s.workers[i].WBlocked? || s.workers[i].WQuit?;
    }
  }

  // A running pool can have only blocked workers at rest, a stopped one only such as have quit.
  lemma WorkersAtRest<T>(s: State<T>, i: nat)
    requires Knowledge(s) && BroadcastPending(s) && i < |s.workers|
    requires s.workers[i].WBlocked? || s.workers[i].WQuit?
    requires forall c | 0 <= c < |s.clients| :: s.clients[c].CIdle?
    ensures if s.pool.running then s.workers[i].WBlocked? else s.workers[i].WQuit?
  {
    assert WorkerKnows(s.pool, s.workers[i]);
    SomeoneBlocked(s.workers);
  }

  // And it rests, with nothing to happen but a new call or a spurious wakeup, only when every
  // accepted task has been executed exactly once: all workers are then asleep if the pool runs,
  // and gone if it does not.
  lemma RestsOnlyWhenDone<T>(s: State<T>)
    requires Inv(s) && s.workers != []
    requires forall m :: Enabled(s, m) ==> IsCall(m) || m.SpuriousWakeup?
    ensures s.pool.queue == [] && s.taken == s.accepted && s.executed == multiset(s.accepted)
    ensures forall i | 0 <= i < |s.workers| :: if s.pool.running then s.workers[i].WBlocked? else s.workers[i].WQuit?
  {
    AtRest(s);
    forall i | 0 <= i < |s.workers|
      ensures if s.pool.running then s.workers[i].WBlocked? else s.workers[i].WQuit?
    {
      WorkersAtRest(s, i);
    }
    NothingQueuedAtRest(s);
    BagEmpty(s.workers, InHand);
  }

  lemma NothingQueuedAtRest<T>(s: State<T>)
    requires Inv(s) && s.pool.mutex.None? && s.workers != []
    requires forall i | 0 <= i < |s.workers| :: if s.pool.running then s.workers[i].WBlocked? else s.workers[i].WQuit?
    ensures s.pool.queue == []
  {
    if s.pool.running {
      assert s.workers[0].WBlocked?;
      NoLostWakeup(s);
      TotalZero(s.workers, IsWoken);
    } else {
      QuitMeansDrained(s, 0);
    }
  }

  // ---- termination after Stop -------------------------------------------------------------------

  // The flag is cleared and the broadcast has left no one asleep.
  ghost predicate Stopped<T>(s: State<T>)
  {
    !s.pool.running && !SomeBlocked(s.workers)
  }

  lemma BroadcastStops<T>(s: State<T>, c: nat)
    requires Inv(s) && c < |s.clients| && s.clients[c].SBroadcast?
    ensures Enabled(s, ClientStep(c, {})) && Stopped(Apply(s, ClientStep(c, {})))
  {
    assert ClientKnows(s.pool, s.clients[c]);
  }

  function CRank<T>(pc: CPc<T>): nat
  {
    match pc
    case CIdle => 0
    case EUnlock => 1
    case ESignal => 2
    case EWake => 3
    case EPush(_) => 4
    case ETest(_) => 5
    case ELock(_) => 6
    case SUnlock => 1
    case SBroadcast => 2
    case SClear => 3
    case SLock => 4
  }

  ghost function Measure<T>(s: State<T>): nat
  {
    7 * |s.pool.queue| + Total(s.workers, WRank) + Total(s.clients, CRank)
  }

  lemma ClientLineDescends<T>(p: Pool<T>, c: nat, pc: CPc<T>)
    requires ClientUnblocked(p, pc) && ClientKnows(p, pc) && !p.running
    ensures var (p', pc') := ClientLine(p, c, pc);
            p'.queue == p.queue && CRank(pc') < CRank(pc) && !p'.running
  {
  }

  // After Stop every line anyone executes brings the pool closer to its end, and no worker
  // goes to sleep again; a new call adds at most six lines.
  lemma StoppedMove<T>(s: State<T>, m: Move<T>)
    requires Inv(s) && Stopped(s) && Enabled(s, m)
    ensures Stopped(Apply(s, m))
    ensures Measure(Apply(s, m)) <= if IsCall(m) then Measure(s) + 6 else Measure(s) - 1
  {
    var s' := Apply(s, m);
    match m
    case WorkerStep(i) =>
      assert WorkerKnows(s.pool, s.workers[i]);
      WorkerLineDescends(s.pool, i, s.workers[i]);
      TotalUpdate(s.workers, i, s'.workers[i], WRank);
    case SpuriousWakeup(i) =>
    case CallEqueue(c, x) => TotalUpdate(s.clients, c, ELock(x), CRank);
    case CallStop(c) => TotalUpdate(s.clients, c, SLock, CRank);
    case ClientStep(c, _) =>
      assert ClientKnows(s.pool, s.clients[c]);
      ClientLineDescends(s.pool, c, s.clients[c]);
      TotalUpdate(s.clients, c, s'.clients[c], CRank);
      WorkersAfterClient(s, m);
      assert s'.workers == s.workers;
  }

  // After Stop a run with finitely many further calls is finite: its length is bounded by what
  // was left to do when Stop took effect.
  lemma {:induction false} StopTerminates<T>(s: State<T>, ms: seq<Move<T>>)
    requires Inv(s) && Stopped(s) && Run(s, ms).Some?
    ensures Stopped(Run(s, ms).value)
    ensures |ms| + Measure(Run(s, ms).value) <= Measure(s) + 7 * Calls(ms)
  {
    if ms != [] {
      StopTerminates(s, ms[..|ms| - 1]);
      RunKeepsInv(s, ms[..|ms| - 1]);
      StoppedMove(Run(s, ms[..|ms| - 1]).value, ms[|ms| - 1]);
    }
  }

  // And it cannot end early: while a worker has not quit, a worker or the holder of the mutex
  // can take its next line.
  lemma StoppedNeverStuck<T>(s: State<T>, i: nat)
    requires Inv(s) && Stopped(s) && i < |s.workers| && !s.workers[i].WQuit?
    ensures exists m :: Enabled(s, m) && (m.WorkerStep? || (m.ClientStep? && s.pool.mutex == Some(Client(m.c))))
  {
    if s.pool.mutex.Some? {
      HolderCanStep(s);
    } else {
      assert Enabled(s, WorkerStep(i));
    }
  }

  // So a run after Stop can only come to rest with every worker gone and every task done.
  lemma StopDrainsEverything<T>(s: State<T>)
    requires Inv(s) && Stopped(s) && s.workers != []
    requires forall m :: Enabled(s, m) ==> IsCall(m)
    ensures forall i | 0 <= i < |s.workers| :: s.workers[i].WQuit?
    ensures s.taken == s.accepted && s.executed == multiset(s.accepted)
  {
    forall i | 0 <= i < |s.workers|
      ensures s.workers[i].WQuit?
    {
      if !s.workers[i].WQuit? {
        StoppedNeverStuck(s, i);
      }
    }
    AllQuitAllExecuted(s);
  }

  // ---- from a Stop call to the end ---------------------------------------------------------------

  lemma {:induction false} RunSplits<T>(s: State<T>, ms: seq<Move<T>>, k: nat)
    requires Run(s, ms).Some? && k <= |ms|
    ensures Run(s, ms[..k]).Some? && Run(Run(s, ms[..k]).value, ms[k..]) == Run(s, ms)
  {
    if k == |ms| {
      assert ms[..k] == ms && ms[k..] == [];
    } else {
      var n := |ms| - 1;
      RunSplits(s, ms[..n], k);
      assert ms[..n][..k] == ms[..k] && ms[..n][k..] == ms[k..][..n - k];
    }
  }

  // In every run: once a call of Stop has executed its broadcast, at move j, the flag is clear and
  // nobody is blocked ever after, and what is left of the run is bounded by the work left at that
  // moment and the number of calls made since.
  lemma StoppedFromBroadcastOn<T>(n: nat, k: nat, ms: seq<Move<T>>, j: nat, c: nat) returns (at: State<T>)
    requires Run(Init<T>(n, k), ms).Some? && j < |ms| && ms[j] == ClientStep(c, {})
    requires var s := Run(Init<T>(n, k), ms[..j]);
             s.Some? && c < |s.value.clients| && s.value.clients[c].SBroadcast?
    ensures Run(Init<T>(n, k), ms[..j + 1]) == Some(at) && Stopped(at)
    ensures Stopped(Run(Init<T>(n, k), ms).value)
    ensures |ms| - (j + 1) + Measure(Run(Init<T>(n, k), ms).value) <= Measure(at) + 7 * Calls(ms[j + 1..])
  {
    var s0 := Init<T>(n, k);
    InitInv<T>(n, k);
    RunKeepsInv(s0, ms[..j]);
    BroadcastStops(Run(s0, ms[..j]).value, c);
    assert ms[..j + 1][..j] == ms[..j];
    RunSplits(s0, ms, j + 1);
    at := Run(s0, ms[..j + 1]).value;
    RunKeepsInv(s0, ms[..j + 1]);
    StopTerminates(at, ms[j + 1..]);
  }
}

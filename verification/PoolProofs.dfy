/**
  What every interleaving of workers, Equeue and Stop keeps, and what follows: no task waits
  while only sleeping workers could take it, every accepted task is executed exactly once and is
  taken in order, and after Stop the pool drains and all workers leave.
*/
module PoolProofs {
  import opened Tally
  import opened PoolMachine

  // ---- weights of a thread's line ------------------------------------------------------------

  predicate WorkerInLock<T>(pc: WPc<T>)
  {
    !(pc.WLock? || pc.WBlocked? || pc.WWoken? || pc.WQuit? || pc.WRun?)
  }

  predicate ClientInLock<T>(pc: CPc<T>)
  {
    !(pc.CIdle? || pc.ELock? || pc.SLock?)
  }

  function IsBlocked<T>(pc: WPc<T>): nat { if pc.WBlocked? then 1 else 0 }

  function IsWoken<T>(pc: WPc<T>): nat { if pc.WWoken? then 1 else 0 }

  // Workers the sleeper counter counts.
  function Sleeping<T>(pc: WPc<T>): nat { if pc.WWait? || pc.WBlocked? || pc.WWoken? || pc.WUncount? then 1 else 0 }

  // A worker that will look at the queue again before it can block: woken, or in the lock and
  // on its way to a task.
  function Looking<T>(pc: WPc<T>): nat
  {
    if pc.WWoken? || pc.WUncount? || pc.WTest? || pc.WQuitTest? || pc.WFront? || pc.WPop? then 1 else 0
  }

  // An Equeue that has pushed and not yet decided whether to signal, or not yet signalled.
  function Signalling<T>(pc: CPc<T>): nat { if pc.EWake? || pc.ESignal? then 1 else 0 }

  function InHand<T>(pc: WPc<T>): Option<T> { if pc.WUnlock? || pc.WRun? then Some(pc.t) else None }

  // ---- the invariant ----------------------------------------------------------------------

  ghost predicate Locks<T>(s: State<T>)
  {
    && (forall i | 0 <= i < |s.workers| :: WorkerInLock(s.workers[i]) <==> s.pool.mutex == Some(Worker(i)))
    && (forall c | 0 <= c < |s.clients| :: ClientInLock(s.clients[c]) <==> s.pool.mutex == Some(Client(c)))
    && (s.pool.mutex.Some? ==>
          match s.pool.mutex.value case Worker(i) => i < |s.workers| case Client(c) => c < |s.clients|)
  }

  // What a worker knows from the tests it has passed.
  ghost predicate WorkerKnows<T>(p: Pool<T>, pc: WPc<T>)
  {
    match pc
    case WCount => p.queue == [] && p.running
    case WWait => p.queue == [] && p.running
    case WQuitTest => p.queue != [] || !p.running
    case WQuitUnlock => p.queue == [] && !p.running
    case WQuit => p.queue == [] && !p.running
    case WFront => p.queue != []
    case WPop(t) => p.queue != [] && t == p.queue[0]
    case _ => true
  }

  ghost predicate ClientKnows<T>(p: Pool<T>, pc: CPc<T>)
  {
    match pc
    case EPush(_) => p.running
    case EWake => p.running
    case ESignal => p.running
    case SBroadcast => !p.running
    case SUnlock => !p.running
    case _ => true
  }

  ghost predicate Knowledge<T>(s: State<T>)
  {
    && (forall i | 0 <= i < |s.workers| :: WorkerKnows(s.pool, s.workers[i]))
    && (forall c | 0 <= c < |s.clients| :: ClientKnows(s.pool, s.clients[c]))
  }

  ghost predicate SleepersCounted<T>(s: State<T>)
  {
    s.pool.sleepers == Total(s.workers, Sleeping)
  }

  // While the pool runs and someone is blocked, each queued task has a worker coming for it or
  // a signal on its way.
  ghost predicate TasksCovered<T>(s: State<T>)
  {
    s.pool.running && Total(s.workers, IsBlocked) > 0 ==>
      |s.pool.queue| <= Total(s.workers, Looking) + Total(s.clients, Signalling)
  }

  // After the flag is cleared someone can be blocked only until the broadcast.
  ghost predicate BroadcastPending<T>(s: State<T>)
  {
    !s.pool.running && Total(s.workers, IsBlocked) > 0 ==>
      exists c :: 0 <= c < |s.clients| && s.clients[c].SBroadcast?
  }

  ghost predicate Histories<T>(s: State<T>)
  {
    && s.accepted == s.taken + s.pool.queue
    && multiset(s.taken) == s.executed + Bag(s.workers, InHand)
  }

  ghost predicate Inv<T>(s: State<T>)
  {
    Locks(s) && Knowledge(s) && SleepersCounted(s) && TasksCovered(s) && BroadcastPending(s) && Histories(s)
  }

  // ---- one line, seen from its own thread ----------------------------------------------------

  lemma WorkerLineFacts<T>(p: Pool<T>, i: nat, pc: WPc<T>)
    requires WorkerUnblocked(p, pc) && WorkerDefined(p, pc) && WorkerKnows(p, pc)
    requires WorkerInLock(pc) <==> p.mutex == Some(Worker(i))
    ensures var (p', pc') := WorkerLine(p, i, pc);
            && (WorkerInLock(pc') <==> p'.mutex == Some(Worker(i)))
            && (p'.mutex == p.mutex || (p.mutex in {None, Some(Worker(i))} && p'.mutex in {None, Some(Worker(i))}))
            && WorkerKnows(p', pc')
            && p'.running == p.running
            && (p'.queue != p.queue ==> pc.WPop?)
            && p'.sleepers + Sleeping(pc) == p.sleepers + Sleeping(pc')
  {
  }

  // A worker gives up its claim on a task only by taking one.
  lemma WorkerLineCovers<T>(p: Pool<T>, i: nat, pc: WPc<T>)
    requires WorkerUnblocked(p, pc) && WorkerDefined(p, pc) && WorkerKnows(p, pc) && p.running
    ensures var (p', pc') := WorkerLine(p, i, pc);
            p'.queue == [] || (IsBlocked(pc') == IsBlocked(pc) && |p'.queue| + Looking(pc) <= |p.queue| + Looking(pc'))
  {
  }

  lemma ClientLineFacts<T>(p: Pool<T>, c: nat, pc: CPc<T>)
    requires ClientUnblocked(p, pc) && ClientKnows(p, pc)
    requires ClientInLock(pc) <==> p.mutex == Some(Client(c))
    ensures var (p', pc') := ClientLine(p, c, pc);
            && (ClientInLock(pc') <==> p'.mutex == Some(Client(c)))
            && (p'.mutex == p.mutex || (p.mutex in {None, Some(Client(c))} && p'.mutex in {None, Some(Client(c))}))
            && ClientKnows(p', pc')
            && (p'.running == p.running || (pc.SClear? && !p'.running))
            && (p'.queue == p.queue || (pc.EPush? && p'.queue == p.queue + [pc.x]))
            && p'.sleepers == p.sleepers
            && |p'.queue| + Signalling(pc) == |p.queue| + Signalling(pc') +
               (if pc.ESignal? || (pc.EWake? && p.sleepers <= 0) then 1 else 0)
  {
  }

  // ---- waking ------------------------------------------------------------------------------

  lemma WakeKeeps<T>(workers: seq<WPc<T>>, chosen: set<nat>, w: WPc<T> -> nat)
    requires forall i | i in chosen :: i < |workers| && workers[i].WBlocked?
    requires w(WBlocked) == w(WWoken)
    ensures Total(Wake(workers, chosen), w) == Total(workers, w)
  {
    TotalMonotone(workers, Wake(workers, chosen), w, w);
    TotalMonotone(Wake(workers, chosen), workers, w, w);
  }

  lemma WakeCovers<T>(workers: seq<WPc<T>>, chosen: set<nat>)
    requires forall i | i in chosen :: i < |workers| && workers[i].WBlocked?
    ensures Total(Wake(workers, chosen), Looking) >= Total(workers, Looking) + if chosen != {} then 1 else 0
    ensures Total(Wake(workers, chosen), IsBlocked) <= Total(workers, IsBlocked)
  {
    TotalMonotone(workers, Wake(workers, chosen), Looking, Looking);
    TotalMonotone(Wake(workers, chosen), workers, IsBlocked, IsBlocked);
    if k :| k in chosen {
      TotalIncreases(workers, Wake(workers, chosen), Looking, k);
    }
  }

  lemma BroadcastWakesAll<T>(workers: seq<WPc<T>>)
    ensures Total(Wake(workers, Blocked(workers)), IsBlocked) == 0
  {
    TotalZero(Wake(workers, Blocked(workers)), IsBlocked);
  }

  lemma WakeBag<T>(workers: seq<WPc<T>>, chosen: set<nat>)
    requires forall i | i in chosen :: i < |workers| && workers[i].WBlocked?
    ensures Bag(Wake(workers, chosen), InHand) == Bag(workers, InHand)
  {
    BagPointwise(Wake(workers, chosen), workers, InHand);
  }

  // The workers a client's line leaves: itself unchanged, or with some blocked ones woken.
  function Woken<T>(s: State<T>, m: Move<T>): set<nat>
    requires m.ClientStep? && Enabled(s, m)
  {
    if s.clients[m.c].SBroadcast? then Blocked(s.workers) else m.chosen
  }

  lemma WorkersAfterClient<T>(s: State<T>, m: Move<T>)
    requires m.ClientStep? && Enabled(s, m)
    ensures Apply(s, m).workers == Wake(s.workers, Woken(s, m))
    ensures forall i | i in Woken(s, m) :: i < |s.workers| && s.workers[i].WBlocked?
  {
  }

  // ---- the invariant is kept -----------------------------------------------------------------

  lemma LocksKept<T>(s: State<T>, m: Move<T>)
    requires Locks(s) && Knowledge(s) && Enabled(s, m)
    ensures Locks(Apply(s, m))
  {
    match m
    case WorkerStep(i) => WorkerLineFacts(s.pool, i, s.workers[i]);
    case ClientStep(c, _) => ClientLineFacts(s.pool, c, s.clients[c]); WorkersAfterClient(s, m);
    case _ =>
  }

  lemma KnowledgeKept<T>(s: State<T>, m: Move<T>)
    requires Locks(s) && Knowledge(s) && Enabled(s, m)
    ensures Knowledge(Apply(s, m))
  {
    match m
    case WorkerStep(i) => WorkerLineFacts(s.pool, i, s.workers[i]);
    case ClientStep(c, _) => ClientLineFacts(s.pool, c, s.clients[c]); WorkersAfterClient(s, m);
    case _ =>
  }

  lemma SleepersKept<T>(s: State<T>, m: Move<T>)
    requires Locks(s) && Knowledge(s) && SleepersCounted(s) && Enabled(s, m)
    ensures SleepersCounted(Apply(s, m))
  {
    match m
    case WorkerStep(i) =>
      WorkerLineFacts(s.pool, i, s.workers[i]);
      TotalUpdate(s.workers, i, Apply(s, m).workers[i], Sleeping);
    case SpuriousWakeup(i) =>
      TotalUpdate(s.workers, i, WWoken, Sleeping);
    case ClientStep(c, _) =>
      ClientLineFacts(s.pool, c, s.clients[c]);
      WorkersAfterClient(s, m);
      WakeKeeps(s.workers, Woken(s, m), Sleeping);
    case _ =>
  }

  lemma SomeoneBlocked<T>(workers: seq<WPc<T>>)
    ensures Total(workers, IsBlocked) > 0 <==> SomeBlocked(workers)
    ensures Total(workers, IsBlocked) <= Total(workers, Sleeping)
  {
    TotalMonotone(workers, workers, IsBlocked, Sleeping);
    if Total(workers, IsBlocked) > 0 {
      var i := TotalWitness(workers, IsBlocked);
    }
    if i :| 0 <= i < |workers| && workers[i].WBlocked? {
      TotalAtLeast(workers, i, IsBlocked);
    }
  }

  lemma CoveredAfterWorker<T>(s: State<T>, i: nat)
    requires Locks(s) && Knowledge(s) && TasksCovered(s) && Enabled(s, WorkerStep(i))
    ensures TasksCovered(Apply(s, WorkerStep(i)))
  {
    var s' := Apply(s, WorkerStep(i));
    WorkerLineFacts(s.pool, i, s.workers[i]);
    if s.pool.running {
      WorkerLineCovers(s.pool, i, s.workers[i]);
      TotalUpdate(s.workers, i, s'.workers[i], IsBlocked);
      TotalUpdate(s.workers, i, s'.workers[i], Looking);
    }
  }

  lemma CoveredAfterClient<T>(s: State<T>, m: Move<T>)
    requires Locks(s) && Knowledge(s) && SleepersCounted(s) && TasksCovered(s)
    requires m.ClientStep? && Enabled(s, m)
    ensures TasksCovered(Apply(s, m))
  {
    var s' := Apply(s, m);
    ClientLineFacts(s.pool, m.c, s.clients[m.c]);
    WorkersAfterClient(s, m);
    WakeCovers(s.workers, Woken(s, m));
    SomeoneBlocked(s.workers);
    TotalUpdate(s.clients, m.c, s'.clients[m.c], Signalling);
  }

  lemma CoveredKept<T>(s: State<T>, m: Move<T>)
    requires Locks(s) && Knowledge(s) && SleepersCounted(s) && TasksCovered(s) && Enabled(s, m)
    ensures TasksCovered(Apply(s, m))
  {
    match m
    case WorkerStep(i) => CoveredAfterWorker(s, i);
    case SpuriousWakeup(i) =>
      TotalUpdate(s.workers, i, WWoken, IsBlocked);
      TotalUpdate(s.workers, i, WWoken, Looking);
    case CallEqueue(c, x) => TotalUpdate(s.clients, c, ELock(x), Signalling);
    case CallStop(c) => TotalUpdate(s.clients, c, SLock, Signalling);
    case ClientStep(c, _) => CoveredAfterClient(s, m);
  }

  lemma PendingKept<T>(s: State<T>, m: Move<T>)
    requires Locks(s) && Knowledge(s) && BroadcastPending(s) && Enabled(s, m)
    ensures BroadcastPending(Apply(s, m))
  {
    var s' := Apply(s, m);
    match m {
      case WorkerStep(i) =>
        WorkerLineFacts(s.pool, i, s.workers[i]);
        TotalUpdate(s.workers, i, s'.workers[i], IsBlocked);
        if !s.pool.running {
          WorkerLinePends(s.pool, i, s.workers[i]);
        }
      case SpuriousWakeup(i) =>
        TotalUpdate(s.workers, i, WWoken, IsBlocked);
      case ClientStep(c, _) =>
        ClientLineFacts(s.pool, c, s.clients[c]);
        WorkersAfterClient(s, m);
        WakeCovers(s.workers, Woken(s, m));
        BroadcastWakesAll(s.workers);
        if s.clients[c].SClear? {
          assert s'.clients[c].SBroadcast?;
        }
      case _ =>
    }
    if c :| 0 <= c < |s.clients| && s.clients[c].SBroadcast? && s'.clients[c] == s.clients[c] {
      assert s'.clients[c].SBroadcast?;
    }
  }

  // A worker blocks only while the pool runs.
  lemma WorkerLinePends<T>(p: Pool<T>, i: nat, pc: WPc<T>)
    requires WorkerUnblocked(p, pc) && WorkerDefined(p, pc) && WorkerKnows(p, pc) && !p.running
    ensures IsBlocked(WorkerLine(p, i, pc).1) <= IsBlocked(pc)
  {
  }

  lemma StepKeepsInv<T>(s: State<T>, m: Move<T>)
    requires Inv(s) && Enabled(s, m)
    ensures Inv(Apply(s, m))
  {
    LocksKept(s, m);
    KnowledgeKept(s, m);
    SleepersKept(s, m);
    CoveredKept(s, m);
    PendingKept(s, m);
    HistoriesKept(s, m);
  }

  // ---- histories -----------------------------------------------------------------------------

  lemma WorkerLineHands<T>(p: Pool<T>, i: nat, pc: WPc<T>)
    requires WorkerUnblocked(p, pc) && WorkerDefined(p, pc) && WorkerKnows(p, pc)
    ensures var (p', pc') := WorkerLine(p, i, pc);
            && InHand(pc') == (if pc.WPop? then Some(pc.t) else if pc.WRun? then None else InHand(pc))
            && (pc.WPop? ==> InHand(pc) == None)
            && p.queue == (if pc.WPop? then [pc.t] + p'.queue else p'.queue)
  {
  }

  lemma OrderKept<T>(s: State<T>, i: nat)
    requires Knowledge(s) && s.accepted == s.taken + s.pool.queue && Enabled(s, WorkerStep(i))
    ensures var s' := Apply(s, WorkerStep(i)); s'.accepted == s'.taken + s'.pool.queue
  {
    var s', pc := Apply(s, WorkerStep(i)), s.workers[i];
    WorkerLineHands(s.pool, i, pc);
    if pc.WPop? {
      assert s.taken + ([pc.t] + s'.pool.queue) == (s.taken + [pc.t]) + s'.pool.queue;
    }
  }

  // A worker's line, seen by the multiset of tasks in workers' hands.
  lemma HandsKept<T>(workers: seq<WPc<T>>, i: nat, pc': WPc<T>, taken: seq<T>, executed: multiset<T>)
    requires i < |workers| && multiset(taken) == executed + Bag(workers, InHand)
    ensures var pc, hands := workers[i], Bag(workers[i := pc'], InHand);
            && (InHand(pc') == InHand(pc) ==> multiset(taken) == executed + hands)
            && (InHand(pc).None? && InHand(pc').Some? ==> multiset(taken + [InHand(pc').value]) == executed + hands)
            && (InHand(pc).Some? && InHand(pc').None? ==> multiset(taken) == executed + multiset{InHand(pc).value} + hands)
  {
    var pc := workers[i];
    if InHand(pc') == InHand(pc) {
      BagSame(workers, i, pc', InHand);
    } else if InHand(pc).None? {
      BagGain(workers, i, pc', InHand);
      Joined(taken, executed, Bag(workers, InHand), Bag(workers[i := pc'], InHand), InHand(pc').value);
    } else if InHand(pc').None? {
      BagLose(workers, i, pc', InHand);
    }
  }

  lemma WorkerHistories<T>(s: State<T>, i: nat)
    requires Knowledge(s) && Histories(s) && Enabled(s, WorkerStep(i))
    ensures Histories(Apply(s, WorkerStep(i)))
  {
    OrderKept(s, i);
    WorkerLineHands(s.pool, i, s.workers[i]);
    HandsKept(s.workers, i, Apply(s, WorkerStep(i)).workers[i], s.taken, s.executed);
  }

  lemma HistoriesKept<T>(s: State<T>, m: Move<T>)
    requires Locks(s) && Knowledge(s) && Histories(s) && Enabled(s, m)
    ensures Histories(Apply(s, m))
  {
    match m
    case WorkerStep(i) => WorkerHistories(s, i);
    case SpuriousWakeup(i) => BagSame(s.workers, i, WWoken, InHand);
    case ClientStep(c, _) =>
      ClientLineFacts(s.pool, c, s.clients[c]);
      WorkersAfterClient(s, m);
      WakeBag(s.workers, Woken(s, m));
    case _ =>
  }
}

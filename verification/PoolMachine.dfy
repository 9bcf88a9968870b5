/**
  The chat server's thread pool as a machine: any number of workers inside `HandlerTask`, any
  number of other threads calling `Equeue` and `Stop`, one source line per step, in any order.
  `pthread_cond_wait` gives up the mutex and blocks in one step; a signal wakes at least one
  blocked worker if there is one, a broadcast all of them, and a worker may also wake for no
  reason. A woken worker has to take the mutex again before it goes on.
*/
module PoolMachine {
  import opened Tally

  datatype Who = Worker(i: nat) | Client(c: nat)

  // The pool's own fields.
  datatype Pool<T> = Pool(mutex: Option<Who>, running: bool, sleepers: int, queue: seq<T>)

  // The line of HandlerTask a worker is about to execute.
  datatype WPc<T> =
    | WLock           // LockQueue()
    | WTest           // while (IsEmpty() && _isrunning)
    | WCount          // _sleep_thread_num++
    | WWait           // Sleep(): give up the mutex and block
    | WBlocked        // asleep on the condition variable
    | WWoken          // Sleep(): take the mutex back
    | WUncount        // _sleep_thread_num--
    | WQuitTest       // if (IsEmpty() && !_isrunning)
    | WQuitUnlock     // UnlockQueue() before the break
    | WQuit           // left the loop
    | WFront          // T t = _task_queue.front()
    | WPop(t: T)      // _task_queue.pop()
    | WUnlock(t: T)   // UnlockQueue()
    | WRun(t: T)      // t()

  // The line of Equeue or Stop another thread is about to execute.
  datatype CPc<T> =
    | CIdle
    | ELock(x: T)     // LockQueue()
    | ETest(x: T)     // if (_isrunning)
    | EPush(x: T)     // _task_queue.push(in)
    | EWake           // if (_sleep_thread_num > 0)
    | ESignal         // Wakeup()
    | EUnlock         // UnlockQueue()
    | SLock           // LockQueue()
    | SClear          // _isrunning = false
    | SBroadcast      // WakeupAll()
    | SUnlock         // UnlockQueue()

  predicate WorkerUnblocked<T>(p: Pool<T>, pc: WPc<T>)
  {
    match pc
    case WLock => p.mutex.None?
    case WWoken => p.mutex.None?
    case WBlocked => false
    case WQuit => false
    case _ => true
  }

  // front() and pop() need a non-empty queue.
  predicate WorkerDefined<T>(p: Pool<T>, pc: WPc<T>)
  {
    pc.WFront? || pc.WPop? ==> p.queue != []
  }

  function WorkerLine<T>(p: Pool<T>, i: nat, pc: WPc<T>): (Pool<T>, WPc<T>)
    requires WorkerUnblocked(p, pc) && WorkerDefined(p, pc)
  {
    match pc
    case WLock => (p.(mutex := Some(Worker(i))), WTest)
    case WTest => (p, if p.queue == [] && p.running then WCount else WQuitTest)
    case WCount => (p.(sleepers := p.sleepers + 1), WWait)
    case WWait => (p.(mutex := None), WBlocked)
    case WWoken => (p.(mutex := Some(Worker(i))), WUncount)
    case WUncount => (p.(sleepers := p.sleepers - 1), WTest)
    case WQuitTest => (p, if p.queue == [] && !p.running then WQuitUnlock else WFront)
    case WQuitUnlock => (p.(mutex := None), WQuit)
    case WFront => (p, WPop(p.queue[0]))
    case WPop(t) => (p.(queue := p.queue[1..]), WUnlock(t))
    case WUnlock(t) => (p.(mutex := None), WRun(t))
    case WRun(t) => (p, WLock)
  }

  predicate ClientUnblocked<T>(p: Pool<T>, pc: CPc<T>)
  {
    match pc
    case CIdle => false
    case ELock(_) => p.mutex.None?
    case SLock => p.mutex.None?
    case _ => true
  }

  function ClientLine<T>(p: Pool<T>, c: nat, pc: CPc<T>): (Pool<T>, CPc<T>)
    requires ClientUnblocked(p, pc)
  {
    match pc
    case ELock(x) => (p.(mutex := Some(Client(c))), ETest(x))
    case ETest(x) => (p, if p.running then EPush(x) else EUnlock)
    case EPush(x) => (p.(queue := p.queue + [x]), EWake)
    case EWake => (p, if p.sleepers > 0 then ESignal else EUnlock)
    case ESignal => (p, EUnlock)
    case EUnlock => (p.(mutex := None), CIdle)
    case SLock => (p.(mutex := Some(Client(c))), SClear)
    case SClear => (p.(running := false), SBroadcast)
    case SBroadcast => (p, SUnlock)
    case SUnlock => (p.(mutex := None), CIdle)
  }

  // What a line does to the condition variable.
  datatype Wakeup = NoOne | SomeOne | Everyone

  function Wakes<T>(pc: CPc<T>): Wakeup
  {
    match pc
    case ESignal => SomeOne
    case SBroadcast => Everyone
    case _ => NoOne
  }

  // The whole program. `accepted` lists the tasks Equeue put into the queue, `taken` the tasks
  // workers took out, both in order; `executed` holds the tasks whose call has returned.
  datatype State<T> = State(
    pool: Pool<T>, workers: seq<WPc<T>>, clients: seq<CPc<T>>,
    accepted: seq<T>, taken: seq<T>, executed: multiset<T>)

  datatype Move<T> =
    | WorkerStep(i: nat)
    | SpuriousWakeup(i: nat)
    | CallEqueue(c: nat, x: T)
    | CallStop(c: nat)
    | ClientStep(c: nat, chosen: set<nat>)   // chosen: whom a signal wakes

  predicate SomeBlocked<T>(workers: seq<WPc<T>>)
  {
    exists i | 0 <= i < |workers| :: workers[i].WBlocked?
  }

  // pthread_cond_signal wakes at least one of the blocked threads, if there are any.
  predicate SignalMayWake<T>(workers: seq<WPc<T>>, chosen: set<nat>)
  {
    && (forall i | i in chosen :: i < |workers| && workers[i].WBlocked?)
    && (SomeBlocked(workers) ==> chosen != {})
  }

  function Wake<T>(workers: seq<WPc<T>>, chosen: set<nat>): seq<WPc<T>>
  {
    seq(|workers|, i requires 0 <= i < |workers| => if i in chosen then WWoken else workers[i])
  }

  function Blocked<T>(workers: seq<WPc<T>>): set<nat>
  {
    set i: nat | i < |workers| && workers[i].WBlocked?
  }

  predicate Enabled<T>(s: State<T>, m: Move<T>)
  {
    match m
    case WorkerStep(i) => i < |s.workers| && WorkerUnblocked(s.pool, s.workers[i]) && WorkerDefined(s.pool, s.workers[i])
    case SpuriousWakeup(i) => i < |s.workers| && s.workers[i].WBlocked?
    case CallEqueue(c, _) => c < |s.clients| && s.clients[c].CIdle?
    case CallStop(c) => c < |s.clients| && s.clients[c].CIdle?
    case ClientStep(c, chosen) =>
      c < |s.clients| && ClientUnblocked(s.pool, s.clients[c]) &&
      (if Wakes(s.clients[c]).SomeOne? then SignalMayWake(s.workers, chosen) else chosen == {})
  }

  function Apply<T>(s: State<T>, m: Move<T>): State<T>
    requires Enabled(s, m)
  {
    match m
    case WorkerStep(i) =>
      var pc := s.workers[i];
      var (pool, next) := WorkerLine(s.pool, i, pc);
      s.(pool := pool, workers := s.workers[i := next],
         taken := if pc.WPop? then s.taken + [pc.t] else s.taken,
         executed := if pc.WRun? then s.executed + multiset{pc.t} else s.executed)
    case SpuriousWakeup(i) => s.(workers := s.workers[i := WWoken])
    case CallEqueue(c, x) => s.(clients := s.clients[c := ELock(x)])
    case CallStop(c) => s.(clients := s.clients[c := SLock])
    case ClientStep(c, chosen) =>
      var pc := s.clients[c];
      var (pool, next) := ClientLine(s.pool, c, pc);
      s.(pool := pool, clients := s.clients[c := next],
         workers := match Wakes(pc)
                    case NoOne => s.workers
                    case SomeOne => Wake(s.workers, chosen)
                    case Everyone => Wake(s.workers, Blocked(s.workers)),
         accepted := if pc.EPush? then s.accepted + [pc.x] else s.accepted)
  }

  // Start has set the running flag and created n workers; m other threads use the pool.
  function Init<T>(n: nat, m: nat): State<T>
  {
    State(Pool(None, true, 0, []), seq(n, _ => WLock), seq(m, _ => CIdle), [], [], multiset{})
  }

  // The state after a list of moves, if the machine allows each of them in turn.
  function Run<T>(s: State<T>, ms: seq<Move<T>>): Option<State<T>>
  {
    if ms == [] then Some(s) else
      var before := Run(s, ms[..|ms| - 1]);
      var m := ms[|ms| - 1];
      if before.Some? && Enabled(before.value, m) then Some(Apply(before.value, m)) else None
  }
}

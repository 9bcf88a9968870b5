/**
  The thread pool itself: its fields, updated in place. `WorkerStep` and `ClientStep` execute one
  line on behalf of a thread and are the machine's steps; `HandlerTask`, `Equeue` and `Stop`, made
  of such steps, are the whole functions when no other thread runs in between.
*/
module ThreadPoolClass {
  import opened Tally
  import opened PoolMachine

  class ThreadPool<T> {
    var mutex: Option<Who>
    var running: bool
    var sleepers: int
    var queue: seq<T>

    ghost function Value(): Pool<T>
      reads this
    {
      Pool(mutex, running, sleepers, queue)
    }

    constructor ()
      ensures Value() == Pool(None, false, 0, [])
    {
      mutex, running, sleepers, queue := None, false, 0, [];
    }

    // One line of HandlerTask by worker i.
    method WorkerStep(i: nat, pc: WPc<T>) returns (next: WPc<T>)
      requires WorkerUnblocked(Value(), pc) && WorkerDefined(Value(), pc)
      modifies this
      ensures (Value(), next) == WorkerLine(old(Value()), i, pc)
    {
      match pc
      case WLock => mutex := Some(Worker(i)); next := WTest;
      case WTest => next := if queue == [] && running then WCount else WQuitTest;
      case WCount => sleepers := sleepers + 1; next := WWait;
      case WWait => mutex := None; next := WBlocked;
      case WWoken => mutex := Some(Worker(i)); next := WUncount;
      case WUncount => sleepers := sleepers - 1; next := WTest;
      case WQuitTest => next := if queue == [] && !running then WQuitUnlock else WFront;
      case WQuitUnlock => mutex := None; next := WQuit;
      case WFront => next := WPop(queue[0]);
      case WPop(t) => queue := queue[1..]; next := WUnlock(t);
      case WUnlock(t) => mutex := None; next := WRun(t);
      case WRun(t) => next := WLock;
    }

    // One line of Equeue or Stop by thread c, and whom it wakes; which worker a signal wakes is up
    // to the system.
    method ClientStep(c: nat, pc: CPc<T>) returns (next: CPc<T>, wakes: Wakeup)
      requires ClientUnblocked(Value(), pc)
      modifies this
      ensures (Value(), next) == ClientLine(old(Value()), c, pc)
      ensures wakes == Wakes(pc)
    {
      wakes := NoOne;
      match pc
      case ELock(x) => mutex := Some(Client(c)); next := ETest(x);
      case ETest(x) => next := if running then EPush(x) else EUnlock;
      case EPush(x) => queue := queue + [x]; next := EWake;
      case EWake => next := if sleepers > 0 then ESignal else EUnlock;
      case ESignal => wakes := SomeOne; next := EUnlock;
      case EUnlock => mutex := None; next := CIdle;
      case SLock => mutex := Some(Client(c)); next := SClear;
      case SClear => running := false; next := SBroadcast;
      case SBroadcast => wakes := Everyone; next := SUnlock;
      case SUnlock => mutex := None; next := CIdle;
    }

    // A worker's way through the lock: it comes out with the first task, or asleep or gone if there
    // is none.
    method Round(i: nat) returns (pc: WPc<T>)
      requires mutex.None?
      modifies this
      ensures mutex.None? && running == old(running)
      ensures old(queue) != [] ==> pc.WRun? && [pc.t] + queue == old(queue) && sleepers == old(sleepers)
      ensures old(queue) == [] ==> queue == [] && pc == if running then WBlocked else WQuit
      ensures old(queue) == [] ==> sleepers == old(sleepers) + if running then 1 else 0
    {
      pc := WorkerStep(i, WLock);
      pc := WorkerStep(i, pc);
      if pc.WCount? {
        pc := WorkerStep(i, pc);
        pc := WorkerStep(i, pc);
        return;
      }
      pc := WorkerStep(i, pc);
      if pc.WQuitUnlock? {
        pc := WorkerStep(i, pc);
        return;
      }
      pc := WorkerStep(i, pc);
      pc := WorkerStep(i, pc);
      pc := WorkerStep(i, pc);
    }

    // A worker alone with the pool executes everything queued, in order, and then goes to sleep
    // if the pool runs and quits if it does not.
    method HandlerTask(i: nat) returns (executed: seq<T>, last: WPc<T>)
      requires mutex.None?
      modifies this
      ensures executed == old(queue) && queue == []
      ensures mutex.None? && running == old(running)
      ensures last == if running then WBlocked else WQuit
      ensures sleepers == old(sleepers) + if running then 1 else 0
    {
      executed := [];
      while true
        invariant executed + queue == old(queue)
        invariant mutex.None? && running == old(running) && sleepers == old(sleepers)
        decreases |queue|
      {
        last := Round(i);
        if !last.WRun? {
          return;
        }
        executed := executed + [last.t];
        last := WorkerStep(i, last);
      }
    }

    // A stopped pool drops the task; a running one queues it and signals if the counter says
    // someone sleeps.
    method Equeue(c: nat, x: T) returns (wakes: Wakeup)
      requires mutex.None?
      modifies this
      ensures mutex.None? && running == old(running) && sleepers == old(sleepers)
      ensures queue == if running then old(queue) + [x] else old(queue)
      ensures wakes == if running && sleepers > 0 then SomeOne else NoOne
    {
      var pc;
      pc, wakes := ClientStep(c, ELock(x));
      pc, wakes := ClientStep(c, pc);
      if pc.EPush? {
        pc, wakes := ClientStep(c, pc);
        pc, wakes := ClientStep(c, pc);
        if pc.ESignal? {
          pc, wakes := ClientStep(c, pc);
        }
      }
      var none;
      pc, none := ClientStep(c, pc);
    }

    method Stop(c: nat) returns (wakes: Wakeup)
      requires mutex.None?
      modifies this
      ensures Value() == old(Value()).(running := false) && wakes == Everyone
    {
      var pc, none;
      pc, none := ClientStep(c, SLock);
      pc, none := ClientStep(c, pc);
      pc, wakes := ClientStep(c, pc);
      pc, none := ClientStep(c, pc);
    }
  }
}

/**
  The ring queue as a machine: any number of threads, each at some line of `Push` or `Pop`,
  one source line per step, in any order. The two semaphores and the two mutexes block exactly
  as `sem_wait` and `pthread_mutex_lock` do.
*/
module RingMachine {
  import opened Tally

  type Tid = nat

  // The queue's own fields.
  datatype Ring<T> = Ring(
    cells: seq<T>, cap: nat, cStep: nat, pStep: nat,
    dataSem: nat, spaceSem: nat,
    cMutex: Option<Tid>, pMutex: Option<Tid>)

  // The line a thread is about to execute. `x` is Push's argument, `out` what Pop has read.
  datatype Pc<T> =
    | Idle
    | PWait(x: T)        // P(pspace_sem_)
    | PLock(x: T)        // Lock(p_mutex_)
    | PWrite(x: T)       // ringqueue_[p_step_] = in
    | PInc               // p_step_++
    | PMod               // p_step_ %= cap_
    | PPost              // V(cdata_sem_)
    | PUnlock            // UnLock(p_mutex_)
    | CWait              // P(cdata_sem_)
    | CLock              // Lock(c_mutex_)
    | CRead              // *out = ringqueue_[c_step_]
    | CInc(out: T)       // c_step_++
    | CMod(out: T)       // c_step_ %= cap_
    | CUnlock(out: T)    // UnLock(c_mutex_)
    | CPost(out: T)      // V(pspace_sem_)

  // Whether the operating system lets the line complete.
  predicate Unblocked<T>(r: Ring<T>, pc: Pc<T>)
  {
    match pc
    case Idle => false
    case PWait(_) => r.spaceSem > 0
    case PLock(_) => r.pMutex.None?
    case CWait => r.dataSem > 0
    case CLock => r.cMutex.None?
    case _ => true
  }

  // Whether the line's array access and modulus are defined.
  predicate Defined<T>(r: Ring<T>, pc: Pc<T>)
  {
    match pc
    case PWrite(_) => r.pStep < |r.cells|
    case CRead => r.cStep < |r.cells|
    case PMod => r.cap > 0
    case CMod(_) => r.cap > 0
    case _ => true
  }

  // One line executed by thread t: the new fields and the thread's next line.
  function Line<T>(r: Ring<T>, t: Tid, pc: Pc<T>): (Ring<T>, Pc<T>)
    requires Unblocked(r, pc) && Defined(r, pc)
  {
    match pc
    case PWait(x) => (r.(spaceSem := r.spaceSem - 1), PLock(x))
    case PLock(x) => (r.(pMutex := Some(t)), PWrite(x))
    case PWrite(x) => (r.(cells := r.cells[r.pStep := x]), PInc)
    case PInc => (r.(pStep := r.pStep + 1), PMod)
    case PMod => (r.(pStep := r.pStep % r.cap), PPost)
    case PPost => (r.(dataSem := r.dataSem + 1), PUnlock)
    case PUnlock => (r.(pMutex := None), Idle)
    case CWait => (r.(dataSem := r.dataSem - 1), CLock)
    case CLock => (r.(cMutex := Some(t)), CRead)
    case CRead => (r, CInc(r.cells[r.cStep]))
    case CInc(out) => (r.(cStep := r.cStep + 1), CMod(out))
    case CMod(out) => (r.(cStep := r.cStep % r.cap), CUnlock(out))
    case CUnlock(out) => (r.(cMutex := None), CPost(out))
    case CPost(out) => (r.(spaceSem := r.spaceSem + 1), Idle)
  }

  // The whole program: the queue, its threads, and what has happened so far. `written` and
  // `read` list the values in the order the two critical sections handled them; `pushed` holds
  // the arguments of every Push called, `popped` the results of every Pop that returned.
  datatype State<T> = State(
    ring: Ring<T>, threads: seq<Pc<T>>,
    written: seq<T>, read: seq<T>, pushed: multiset<T>, popped: multiset<T>)

  datatype Move<T> = CallPush(t: Tid, x: T) | CallPop(t: Tid) | Step(t: Tid)

  predicate Enabled<T>(s: State<T>, m: Move<T>)
  {
    m.t < |s.threads| &&
    match m
    case CallPush(t, _) => s.threads[t].Idle?
    case CallPop(t) => s.threads[t].Idle?
    case Step(t) => Unblocked(s.ring, s.threads[t]) && Defined(s.ring, s.threads[t])
  }

  function Apply<T>(s: State<T>, m: Move<T>): State<T>
    requires Enabled(s, m)
  {
    match m
    case CallPush(t, x) => s.(threads := s.threads[t := PWait(x)], pushed := s.pushed + multiset{x})
    case CallPop(t) => s.(threads := s.threads[t := CWait])
    case Step(t) =>
      var pc := s.threads[t];
      var (ring, next) := Line(s.ring, t, pc);
      s.(ring := ring, threads := s.threads[t := next],
         written := if pc.PWrite? then s.written + [pc.x] else s.written,
         read := if pc.CRead? then s.read + [next.out] else s.read,
         popped := if pc.CPost? then s.popped + multiset{pc.out} else s.popped)
  }

  // The constructor's state, with n threads that have called nothing yet.
  function Fresh<T>(cells: seq<T>): Ring<T>
  {
    Ring(cells, |cells|, 0, 0, 0, |cells|, None, None)
  }

  function Init<T>(cells: seq<T>, n: nat): State<T>
  {
    State(Fresh(cells), seq(n, _ => Idle), [], [], multiset{}, multiset{})
  }

  // The state after a list of moves, if the machine allows each of them in turn.
  function Run<T>(s: State<T>, ms: seq<Move<T>>): Option<State<T>>
  {
    if ms == [] then Some(s) else
      var before := Run(s, ms[..|ms| - 1]);
      var m := ms[|ms| - 1];
      if before.Some? && Enabled(before.value, m) then Some(Apply(before.value, m)) else None
  }
}

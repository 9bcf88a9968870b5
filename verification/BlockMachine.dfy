/**
  The blocking queue as a machine: one producer and one consumer, one source line per step, in any
  order. The waits are guarded by `if`, not `while`: a woken thread takes the mutex back and goes
  on without looking at the queue again. Spurious wakeups are moves of their own.
*/
module BlockMachine {
  import opened Tally

  datatype Side = Producer | Consumer

  datatype Block<T> = Block(q: seq<T>, maxcap: nat, high: nat, mutex: Option<Side>)

  // The line of push the producer is about to execute.
  datatype PPc<T> =
    | PIdle
    | PLock(x: T)      // pthread_mutex_lock
    | PTest(x: T)      // if (q_.size() == maxcap_)
    | PWait(x: T)      // pthread_cond_wait(&p_cond_): give up the mutex and block
    | PBlocked(x: T)
    | PWoken(x: T)     // pthread_cond_wait(&p_cond_): take the mutex back
    | PPush(x: T)      // q_.push(in)
    | PSignal          // pthread_cond_signal(&c_cond_)
    | PUnlock          // pthread_mutex_unlock

  // The line of pop the consumer is about to execute.
  datatype CPc<T> =
    | CIdle
    | CLock            // pthread_mutex_lock
    | CTest            // if (q_.size() == 0)
    | CWait            // pthread_cond_wait(&c_cond_): give up the mutex and block
    | CBlocked
    | CWoken           // pthread_cond_wait(&c_cond_): take the mutex back
    | CFront           // T out = q_.front()
    | CPop(out: T)     // q_.pop()
    | CWater           // if (q_.size() > high_water_)
    | CSignal          // pthread_cond_signal(&p_cond_)
    | CUnlock          // pthread_mutex_unlock

  predicate ProducerUnblocked<T>(b: Block<T>, pc: PPc<T>)
  {
    match pc
    case PIdle => false
    case PBlocked(_) => false
    case PLock(_) => b.mutex.None?
    case PWoken(_) => b.mutex.None?
    case _ => true
  }

  function ProducerLine<T>(b: Block<T>, pc: PPc<T>): (Block<T>, PPc<T>)
    requires ProducerUnblocked(b, pc)
  {
    match pc
    case PLock(x) => (b.(mutex := Some(Producer)), PTest(x))
    case PTest(x) => (b, if |b.q| == b.maxcap then PWait(x) else PPush(x))
    case PWait(x) => (b.(mutex := None), PBlocked(x))
    case PWoken(x) => (b.(mutex := Some(Producer)), PPush(x))
    case PPush(x) => (b.(q := b.q + [x]), PSignal)
    case PSignal => (b, PUnlock)
    case PUnlock => (b.(mutex := None), PIdle)
  }

  predicate ConsumerUnblocked<T>(b: Block<T>, pc: CPc<T>)
  {
    match pc
    case CIdle => false
    case CBlocked => false
    case CLock => b.mutex.None?
    case CWoken => b.mutex.None?
    case _ => true
  }

  // front() and pop() need a non-empty queue.
  predicate ConsumerDefined<T>(b: Block<T>, pc: CPc<T>)
  {
    pc.CFront? || pc.CPop? ==> b.q != []
  }

  function ConsumerLine<T>(b: Block<T>, pc: CPc<T>): (Block<T>, CPc<T>)
    requires ConsumerUnblocked(b, pc) && ConsumerDefined(b, pc)
  {
    match pc
    case CLock => (b.(mutex := Some(Consumer)), CTest)
    case CTest => (b, if |b.q| == 0 then CWait else CFront)
    case CWait => (b.(mutex := None), CBlocked)
    case CWoken => (b.(mutex := Some(Consumer)), CFront)
    case CFront => (b, CPop(b.q[0]))
    case CPop(out) => (b.(q := b.q[1..]), CWater)
    case CWater => (b, if |b.q| > b.high then CSignal else CUnlock)
    case CSignal => (b, CUnlock)
    case CUnlock => (b.(mutex := None), CIdle)
  }

  // Whether a line signals the other side.
  predicate SignalsConsumer<T>(pc: PPc<T>) { pc.PSignal? }

  predicate SignalsProducer<T>(pc: CPc<T>) { pc.CSignal? }

  // `pushed` lists the values put into the queue, `popped` those pop handed out.
  datatype State<T> = State(b: Block<T>, p: PPc<T>, c: CPc<T>, pushed: seq<T>, popped: seq<T>)

  datatype Move<T> = CallPush(x: T) | CallPop | ProducerStep | ConsumerStep | WakeProducer | WakeConsumer

  predicate Spurious<T>(m: Move<T>) { m.WakeProducer? || m.WakeConsumer? }

  predicate Enabled<T>(s: State<T>, m: Move<T>)
  {
    match m
    case CallPush(_) => s.p.PIdle?
    case CallPop => s.c.CIdle?
    case ProducerStep => ProducerUnblocked(s.b, s.p)
    case ConsumerStep => ConsumerUnblocked(s.b, s.c) && ConsumerDefined(s.b, s.c)
    case WakeProducer => s.p.PBlocked?
    case WakeConsumer => s.c.CBlocked?
  }

  // A signal wakes the thread it is for if that thread is blocked, and is lost otherwise.
  function Apply<T>(s: State<T>, m: Move<T>): State<T>
    requires Enabled(s, m)
  {
    match m
    case CallPush(x) => s.(p := PLock(x))
    case CallPop => s.(c := CLock)
    case ProducerStep =>
      var (b, next) := ProducerLine(s.b, s.p);
      s.(b := b, p := next,
         c := if SignalsConsumer(s.p) && s.c.CBlocked? then CWoken else s.c,
         pushed := if s.p.PPush? then s.pushed + [s.p.x] else s.pushed)
    case ConsumerStep =>
      var (b, next) := ConsumerLine(s.b, s.c);
      s.(b := b, c := next,
         p := if SignalsProducer(s.c) && s.p.PBlocked? then PWoken(s.p.x) else s.p,
         popped := if s.c.CPop? then s.popped + [s.c.out] else s.popped)
    case WakeProducer => s.(p := PWoken(s.p.x))
    case WakeConsumer => s.(c := CWoken)
  }

  // The constructor's state: the high-water mark is two thirds of the capacity.
  function Init<T>(maxcap: nat): State<T>
  {
    State(Block([], maxcap, maxcap * 2 / 3, None), PIdle, CIdle, [], [])
  }

  function Run<T>(s: State<T>, ms: seq<Move<T>>): Option<State<T>>
  {
    if ms == [] then Some(s) else
      var before := Run(s, ms[..|ms| - 1]);
      var m := ms[|ms| - 1];
      if before.Some? && Enabled(before.value, m) then Some(Apply(before.value, m)) else None
  }

  ghost predicate NoSpurious<T>(ms: seq<Move<T>>)
  {
    forall m | m in ms :: !Spurious(m)
  }

  // Nobody can do anything, not even start a call.
  ghost predicate Deadlocked<T(!new)>(s: State<T>)
  {
    forall m | Enabled(s, m) :: Spurious(m)
  }
}

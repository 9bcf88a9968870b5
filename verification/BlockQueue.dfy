/**
  The blocking queue itself: its fields, updated in place. `PushLine` and `PopLine` execute one
  line and are the machine's steps; `Push` and `Pop` are the whole operations when they need not
  wait.
*/
module BlockQueueClass {
  import opened Tally
  import opened BlockMachine

  const DEFAULT_NUM: nat := 5

  class BlockQueue<T> {
    var q: seq<T>
    var maxcap: nat
    var low: nat
    var high: nat
    var mutex: Option<Side>

    ghost function Value(): Block<T>
      reads this
    {
      Block(q, maxcap, high, mutex)
    }

    constructor (maxcap: nat := DEFAULT_NUM)
      ensures Value() == Init<T>(maxcap).b
      ensures q == [] && mutex.None? && this.maxcap == maxcap && low == maxcap / 3 && high == maxcap * 2 / 3
    {
      this.q := [];
      this.maxcap := maxcap;
      low := maxcap / 3;
      high := (maxcap * 2) / 3;
      mutex := None;
    }

    // BlockQueue() is a queue of capacity five.
    static method Default() returns (queue: BlockQueue<T>)
      ensures fresh(queue) && queue.Value() == Block([], 5, 3, None)
    {
      queue := new BlockQueue<T>();
    }

    // One line of push.
    method PushLine(pc: PPc<T>) returns (next: PPc<T>, signals: bool)
      requires ProducerUnblocked(Value(), pc)
      modifies this
      ensures (Value(), next) == ProducerLine(old(Value()), pc)
      ensures signals == SignalsConsumer(pc)
    {
      signals := false;
      match pc
      case PLock(x) => mutex := Some(Producer); next := PTest(x);
      case PTest(x) => next := if |q| == maxcap then PWait(x) else PPush(x);
      case PWait(x) => mutex := None; next := PBlocked(x);
      case PWoken(x) => mutex := Some(Producer); next := PPush(x);
      case PPush(x) => q := q + [x]; next := PSignal;
      case PSignal => signals := true; next := PUnlock;
      case PUnlock => mutex := None; next := PIdle;
    }

    // One line of pop.
    method PopLine(pc: CPc<T>) returns (next: CPc<T>, signals: bool)
      requires ConsumerUnblocked(Value(), pc) && ConsumerDefined(Value(), pc)
      modifies this
      ensures (Value(), next) == ConsumerLine(old(Value()), pc)
      ensures signals == SignalsProducer(pc)
    {
      signals := false;
      match pc
      case CLock => mutex := Some(Consumer); next := CTest;
      case CTest => next := if |q| == 0 then CWait else CFront;
      case CWait => mutex := None; next := CBlocked;
      case CWoken => mutex := Some(Consumer); next := CFront;
      case CFront => next := CPop(q[0]);
      case CPop(_) => q := q[1..]; next := CWater;
      case CWater => next := if |q| > high then CSignal else CUnlock;
      case CSignal => signals := true; next := CUnlock;
      case CUnlock => mutex := None; next := CIdle;
    }

    // push with the mutex free: a full queue blocks the caller and stays as it is; otherwise the
    // value goes to the end and the consumer is signalled.
    method Push(x: T) returns (blocked: bool, signalled: bool)
      requires mutex.None?
      modifies this
      ensures blocked == (|old(q)| == maxcap) && signalled == !blocked
      ensures Value() == old(Value()).(q := if blocked then old(q) else old(q) + [x])
    {
      var pc;
      pc, signalled := PushLine(PLock(x));
      pc, signalled := PushLine(pc);
      blocked := pc.PWait?;
      pc, signalled := PushLine(pc);
      if !blocked {
        var quiet;
        pc, signalled := PushLine(pc);
        pc, quiet := PushLine(pc);
      }
    }

    // pop with the mutex free: an empty queue blocks the caller; otherwise the oldest value comes
    // out, and the producer is signalled if more than the high-water mark are left.
    method Pop() returns (out: Option<T>, signalled: bool)
      requires mutex.None?
      modifies this
      ensures out == if old(q) == [] then None else Some(old(q)[0])
      ensures Value() == old(Value()).(q := if old(q) == [] then [] else old(q)[1..])
      ensures signalled == (old(q) != [] && |q| > high)
    {
      var pc;
      pc, signalled := PopLine(CLock);
      pc, signalled := PopLine(pc);
      if pc.CWait? {
        pc, signalled := PopLine(pc);
        return None, signalled;
      }
      pc, signalled := PopLine(pc);
      out := Some(pc.out);
      pc, signalled := PopLine(pc);
      pc, signalled := PopLine(pc);
      if pc.CSignal? {
        pc, signalled := PopLine(pc);
      }
      var quiet;
      pc, quiet := PopLine(pc);
    }
  }
}

/**
  The blocking queue with one producer and one consumer: without spurious wakeups it never
  overflows, never pops an empty queue and is a FIFO, whatever its capacity; it is free of
  deadlock exactly when the capacity is at least 4. With spurious wakeups it overflows.
*/
module BlockProofs {
  import opened Tally
  import opened BlockMachine

  predicate InPush<T>(pc: PPc<T>) { pc.PTest? || pc.PWait? || pc.PPush? || pc.PSignal? || pc.PUnlock? }

  predicate InPop<T>(pc: CPc<T>)
  {
    pc.CTest? || pc.CWait? || pc.CFront? || pc.CPop? || pc.CWater? || pc.CSignal? || pc.CUnlock?
  }

  ghost predicate Locks<T>(s: State<T>)
  {
    && (InPush(s.p) <==> s.b.mutex == Some(Producer))
    && (InPop(s.c) <==> s.b.mutex == Some(Consumer))
  }

  ghost predicate Sizes<T>(s: State<T>)
  {
    && |s.b.q| <= s.b.maxcap
    && (s.p.PWait? ==> |s.b.q| == s.b.maxcap)
    && (s.p.PPush? || s.p.PWoken? ==> |s.b.q| < s.b.maxcap)
    && (s.c.CWait? ==> s.b.q == [])
    && (s.c.CFront? || s.c.CWoken? ==> s.b.q != [])
    && (s.c.CPop? ==> s.b.q != [] && s.c.out == s.b.q[0])
    && (s.c.CWater? || s.c.CSignal? ==> |s.b.q| < s.b.maxcap)
    && (s.p.PSignal? ==> s.b.q != [])
    && (s.c.CBlocked? ==> s.b.q == [] || s.p.PSignal?)
  }

  // A blocked producer: the queue is full, or the signal for it is on its way. This is where the
  // high-water mark has to lie below maxcap - 1.
  ghost predicate ProducerAwaited<T>(s: State<T>)
  {
    && s.b.high == s.b.maxcap * 2 / 3
    && (s.b.maxcap >= 4 && s.p.PBlocked? ==>
          |s.b.q| == s.b.maxcap || (|s.b.q| == s.b.maxcap - 1 && (s.c.CWater? || s.c.CSignal?)))
  }

  ghost predicate Fifo<T>(s: State<T>)
  {
    s.pushed == s.popped + s.b.q
  }

  ghost predicate Inv<T>(s: State<T>)
  {
    Locks(s) && Sizes(s) && ProducerAwaited(s) && Fifo(s)
  }

  lemma SizesKept<T>(s: State<T>, m: Move<T>)
    requires Locks(s) && Sizes(s) && Enabled(s, m) && !Spurious(m)
    ensures Locks(Apply(s, m)) && Sizes(Apply(s, m))
  {
  }

  lemma AwaitedKept<T>(s: State<T>, m: Move<T>)
    requires Locks(s) && Sizes(s) && ProducerAwaited(s) && Enabled(s, m) && !Spurious(m)
    ensures ProducerAwaited(Apply(s, m))
  {
    if s.b.maxcap >= 4 {
      assert s.b.maxcap - 1 > s.b.maxcap * 2 / 3;
    }
  }

  lemma FifoKept<T>(s: State<T>, m: Move<T>)
    requires Sizes(s) && Fifo(s) && Enabled(s, m)
    ensures Fifo(Apply(s, m))
  {
    if m.ConsumerStep? && s.c.CPop? {
      assert s.b.q == [s.c.out] + s.b.q[1..];
      assert s.popped + ([s.c.out] + s.b.q[1..]) == (s.popped + [s.c.out]) + s.b.q[1..];
    }
  }

  lemma {:induction false} RunInv<T>(maxcap: nat, ms: seq<Move<T>>)
    requires NoSpurious(ms) && Run(Init(maxcap), ms).Some?
    ensures Inv(Run(Init(maxcap), ms).value) && Run(Init(maxcap), ms).value.b.maxcap == maxcap
  {
    if ms != [] {
      var before, m := Run(Init(maxcap), ms[..|ms| - 1]).value, ms[|ms| - 1];
      RunInv(maxcap, ms[..|ms| - 1]);
      SizesKept(before, m);
      AwaitedKept(before, m);
      FifoKept(before, m);
    }
  }

  // ---- safety, for every capacity ------------------------------------------------------------

  // Without spurious wakeups the queue never holds more than maxcap values, pop never touches an
  // empty queue, and the values popped are the first ones pushed, in order.
  lemma SafeFifo<T>(maxcap: nat, ms: seq<Move<T>>)
    requires NoSpurious(ms) && Run(Init(maxcap), ms).Some?
    ensures var s := Run(Init(maxcap), ms).value;
            && |s.b.q| <= maxcap
            && ConsumerDefined(s.b, s.c)
            && s.popped <= s.pushed && s.pushed[|s.popped|..] == s.b.q
  {
    RunInv(maxcap, ms);
  }

  // The arguments of the calls of push, in order, and the number of calls of pop, among the moves.
  function Pushes<T>(ms: seq<Move<T>>): seq<T>
  {
    if ms == [] then [] else
      var m := ms[|ms| - 1];
      Pushes(ms[..|ms| - 1]) + if m.CallPush? then [m.x] else []
  }

  function Pops<T>(ms: seq<Move<T>>): nat
  {
    if ms == [] then 0 else Pops(ms[..|ms| - 1]) + if ms[|ms| - 1].CallPop? then 1 else 0
  }

  // What a call of push has still to put into the queue, and whether a call of pop has still to
  // take a value out.
  function Held<T>(pc: PPc<T>): seq<T>
  {
    match pc
    case PIdle => []
    case PSignal => []
    case PUnlock => []
    case _ => [pc.x]
  }

  function Owed<T>(pc: CPc<T>): nat
  {
    if pc.CIdle? || pc.CWater? || pc.CSignal? || pc.CUnlock? then 0 else 1
  }

  lemma MoveCounted<T>(s: State<T>, m: Move<T>)
    requires Enabled(s, m)
    ensures var s' := Apply(s, m);
            && s'.pushed + Held(s'.p) == s.pushed + Held(s.p) + (if m.CallPush? then [m.x] else [])
            && |s'.popped| + Owed(s'.c) == |s.popped| + Owed(s.c) + (if m.CallPop? then 1 else 0)
  {
  }

  lemma {:induction false} CallsCounted<T>(maxcap: nat, ms: seq<Move<T>>)
    requires Run(Init(maxcap), ms).Some?
    ensures var s := Run(Init(maxcap), ms).value;
            Pushes(ms) == s.pushed + Held(s.p) && Pops(ms) == |s.popped| + Owed(s.c)
  {
    if ms != [] {
      CallsCounted(maxcap, ms[..|ms| - 1]);
      MoveCounted(Run(Init(maxcap), ms[..|ms| - 1]).value, ms[|ms| - 1]);
    }
  }

  // Call k of pop returns the argument of call k of push: in every run without spurious wakeups
  // the results so far, one for each pop but one that still waits, are the first arguments, and
  // behind them come the values queued and one a push still holds.
  lemma PopsReturnPushes<T>(maxcap: nat, ms: seq<Move<T>>)
    requires NoSpurious(ms) && Run(Init(maxcap), ms).Some?
    ensures var s := Run(Init(maxcap), ms).value;
            && Pushes(ms) == s.popped + s.b.q + Held(s.p)
            && Pops(ms) == |s.popped| + Owed(s.c)
  {
    RunInv(maxcap, ms);
    CallsCounted(maxcap, ms);
  }

  // ---- deadlock, exactly below capacity 4 ------------------------------------------------------

  lemma NotDeadlocked<T(!new)>(s: State<T>, x: T)
    requires Inv(s) && s.b.maxcap >= 4
    ensures !Deadlocked(s)
  {
    assert s.b.mutex in {None, Some(Producer), Some(Consumer)} by {
      if s.b.mutex.Some? {
        assert s.b.mutex.value == Producer || s.b.mutex.value == Consumer;
      }
    }
    if s.p.PIdle? {
      assert Enabled(s, CallPush(x)) && !Spurious(CallPush(x));
    } else if s.c.CIdle? {
      assert Enabled(s, Move<T>.CallPop) && !Spurious(Move<T>.CallPop);
    } else if ProducerUnblocked(s.b, s.p) {
      assert Enabled(s, Move<T>.ProducerStep) && !Spurious(Move<T>.ProducerStep);
    } else {
      assert Enabled(s, Move<T>.ConsumerStep) && !Spurious(Move<T>.ConsumerStep);
    }
  }

  lemma Then<T>(s0: State<T>, ms: seq<Move<T>>, s: State<T>, m: Move<T>) returns (ms': seq<Move<T>>, s': State<T>)
    requires Run(s0, ms) == Some(s) && NoSpurious(ms) && Enabled(s, m) && !Spurious(m)
    ensures s' == Apply(s, m) && Run(s0, ms') == Some(s') && NoSpurious(ms')
  {
    ms', s' := ms + [m], Apply(s, m);
    assert ms'[..|ms'| - 1] == ms;
  }

  // Pushes alone fill the queue.
  lemma {:induction false} Fill<T>(maxcap: nat, k: nat, x: T) returns (ms: seq<Move<T>>, s: State<T>)
    requires k <= maxcap
    ensures Run(Init(maxcap), ms) == Some(s) && NoSpurious(ms)
    ensures |s.b.q| == k && s.b.maxcap == maxcap && s.b.high == maxcap * 2 / 3 && s.b.mutex.None?
    ensures s.p.PIdle? && s.c.CIdle?
  {
    var s0: State<T> := Init(maxcap);
    if k == 0 {
      ms, s := [], s0;
    } else {
      ms, s := Fill(maxcap, k - 1, x);
      ms, s := Then(s0, ms, s, CallPush(x));
      ms, s := Then(s0, ms, s, ProducerStep);
      ms, s := Then(s0, ms, s, ProducerStep);
      ms, s := Then(s0, ms, s, ProducerStep);
      ms, s := Then(s0, ms, s, ProducerStep);
      ms, s := Then(s0, ms, s, ProducerStep);
    }
  }

  // One more push blocks.
  lemma FillAndBlock<T>(maxcap: nat, x: T) returns (ms: seq<Move<T>>, s: State<T>)
    ensures Run(Init(maxcap), ms) == Some(s) && NoSpurious(ms)
    ensures |s.b.q| == s.b.maxcap == maxcap && s.b.high == maxcap * 2 / 3 && s.b.mutex.None?
    ensures s.p.PBlocked? && s.c.CIdle?
  {
    var s0: State<T> := Init(maxcap);
    ms, s := Fill(maxcap, maxcap, x);
    ms, s := Then(s0, ms, s, CallPush(x));
    ms, s := Then(s0, ms, s, ProducerStep);
    ms, s := Then(s0, ms, s, ProducerStep);
    ms, s := Then(s0, ms, s, ProducerStep);
  }

  // With at most three slots no pop ever sees more values left than the high-water mark, so the
  // blocked producer is not signalled while the queue drains.
  lemma {:induction false} DrainUnsignalled<T>(maxcap: nat, k: nat, x: T) returns (ms: seq<Move<T>>, s: State<T>)
    requires k <= maxcap < 4
    ensures Run(Init(maxcap), ms) == Some(s) && NoSpurious(ms)
    ensures |s.b.q| == k && s.b.maxcap == maxcap && s.b.high == maxcap * 2 / 3 && s.b.mutex.None?
    ensures s.p.PBlocked? && s.c.CIdle?
    decreases maxcap - k
  {
    var s0: State<T> := Init(maxcap);
    if k == maxcap {
      ms, s := FillAndBlock(maxcap, x);
    } else {
      ms, s := DrainUnsignalled(maxcap, k + 1, x);
      ms, s := Then(s0, ms, s, CallPop);
      ms, s := Then(s0, ms, s, ConsumerStep);
      ms, s := Then(s0, ms, s, ConsumerStep);
      ms, s := Then(s0, ms, s, ConsumerStep);
      ms, s := Then(s0, ms, s, ConsumerStep);
      ms, s := Then(s0, ms, s, ConsumerStep);
      ms, s := Then(s0, ms, s, ConsumerStep);
    }
  }

  lemma DeadlockBelowFour<T(!new)>(maxcap: nat, x: T) returns (ms: seq<Move<T>>)
    requires maxcap < 4
    ensures NoSpurious(ms) && Run(Init(maxcap), ms).Some? && Deadlocked(Run(Init(maxcap), ms).value)
  {
    var s0: State<T> := Init(maxcap);
    var s;
    ms, s := DrainUnsignalled(maxcap, 0, x);
    ms, s := Then(s0, ms, s, CallPop);
    ms, s := Then(s0, ms, s, ConsumerStep);
    ms, s := Then(s0, ms, s, ConsumerStep);
    ms, s := Then(s0, ms, s, ConsumerStep);
  }

  // The water marks make the queue free of deadlock exactly from capacity 4 on.
  lemma DeadlockFreeExactlyWhen<T(!new)>(maxcap: nat, x: T)
    ensures (exists ms: seq<Move<T>> ::
               NoSpurious(ms) && Run(Init(maxcap), ms).Some? && Deadlocked(Run(Init(maxcap), ms).value))
        <==> maxcap < 4
  {
    if maxcap < 4 {
      var ms := DeadlockBelowFour(maxcap, x);
    } else {
      forall ms: seq<Move<T>> | NoSpurious(ms) && Run(Init(maxcap), ms).Some?
        ensures !Deadlocked(Run(Init(maxcap), ms).value)
      {
        RunInv(maxcap, ms);
        NotDeadlocked(Run(Init(maxcap), ms).value, x);
      }
    }
  }

  // ---- why spurious wakeups are excluded ---------------------------------------------------------

  lemma Also<T>(s0: State<T>, ms: seq<Move<T>>, s: State<T>, m: Move<T>) returns (ms': seq<Move<T>>, s': State<T>)
    requires Run(s0, ms) == Some(s) && Enabled(s, m)
    ensures s' == Apply(s, m) && Run(s0, ms') == Some(s')
  {
    ms', s' := ms + [m], Apply(s, m);
    assert ms'[..|ms'| - 1] == ms;
  }

  // The producer pushes into a full queue after a spurious wakeup, whatever the capacity.
  lemma SpuriousWakeupOverflows<T>(maxcap: nat, x: T) returns (ms: seq<Move<T>>)
    ensures Run(Init(maxcap), ms).Some? && |Run(Init(maxcap), ms).value.b.q| > maxcap
  {
    var s0: State<T> := Init(maxcap);
    var s;
    ms, s := FillAndBlock(maxcap, x);
    ms, s := Also(s0, ms, s, WakeProducer);
    ms, s := Also(s0, ms, s, ProducerStep);
    ms, s := Also(s0, ms, s, ProducerStep);
  }

  // And the consumer reads the front of an empty one.
  lemma SpuriousWakeupUnderflows<T>(maxcap: nat) returns (ms: seq<Move<T>>)
    ensures Run(Init<T>(maxcap), ms).Some?
    ensures var s := Run(Init<T>(maxcap), ms).value; !ConsumerDefined(s.b, s.c)
  {
    var s0: State<T> := Init(maxcap);
    var s;
    ms, s := Also(s0, [], s0, CallPop);
    ms, s := Also(s0, ms, s, ConsumerStep);
    ms, s := Also(s0, ms, s, ConsumerStep);
    ms, s := Also(s0, ms, s, ConsumerStep);
    ms, s := Also(s0, ms, s, WakeConsumer);
    ms, s := Also(s0, ms, s, ConsumerStep);
  }
}

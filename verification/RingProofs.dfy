/**
  What every interleaving of the ring queue's threads keeps, and what follows from it: the ring
  refines a bounded FIFO, no two threads meet in a slot, no value is lost or duplicated, and the
  only stuck states are a full ring with only producers or an empty one with only consumers.
*/
module RingProofs {
  import opened Tally
  import opened Modular
  import opened RingMachine

  // ---- which lines hold which mutex, and which tokens -------------------------------------

  predicate InPush<T>(pc: Pc<T>) { pc.PWrite? || pc.PInc? || pc.PMod? || pc.PPost? || pc.PUnlock? }

  predicate InPop<T>(pc: Pc<T>) { pc.CRead? || pc.CInc? || pc.CMod? || pc.CUnlock? }

  // A space token taken from the semaphore but not yet used by a write ...
  function Reserving<T>(pc: Pc<T>): nat { if pc.PLock? || pc.PWrite? then 1 else 0 }

  // ... a written value not yet announced through the data semaphore ...
  function Announcing<T>(pc: Pc<T>): nat { if pc.PInc? || pc.PMod? || pc.PPost? then 1 else 0 }

  // ... a data token taken but its value not yet read ...
  function Claiming<T>(pc: Pc<T>): nat { if pc.CLock? || pc.CRead? then 1 else 0 }

  // ... and a value read whose slot is not yet given back.
  function Releasing<T>(pc: Pc<T>): nat { if pc.CInc? || pc.CMod? || pc.CUnlock? || pc.CPost? then 1 else 0 }

  // Arguments of Push not yet written, and results of Pop not yet returned.
  function Carried<T>(pc: Pc<T>): Option<T>
  {
    if pc.PWait? || pc.PLock? || pc.PWrite? then Some(pc.x) else None
  }

  function Returning<T>(pc: Pc<T>): Option<T>
  {
    if pc.CInc? || pc.CMod? || pc.CUnlock? || pc.CPost? then Some(pc.out) else None
  }

  // ---- the invariant ----------------------------------------------------------------------

  ghost predicate Locks<T>(s: State<T>)
  {
    && (s.ring.pMutex.Some? ==> s.ring.pMutex.value < |s.threads|)
    && (s.ring.cMutex.Some? ==> s.ring.cMutex.value < |s.threads|)
    && (forall t | 0 <= t < |s.threads| :: InPush(s.threads[t]) <==> s.ring.pMutex == Some(t))
    && (forall t | 0 <= t < |s.threads| :: InPop(s.threads[t]) <==> s.ring.cMutex == Some(t))
  }

  ghost predicate Tokens<T>(s: State<T>)
  {
    && |s.read| <= |s.written|
    && s.ring.dataSem + Total(s.threads, Announcing) + Total(s.threads, Claiming) == |s.written| - |s.read|
    && s.ring.spaceSem + Total(s.threads, Reserving) + Total(s.threads, Releasing)
       == s.ring.cap - (|s.written| - |s.read|)
  }

  // Where an index stands after `count` values, when its mutex holder has still to do the
  // increment, or the modulus, for the last of them.
  ghost predicate IndexAt(step: nat, count: nat, cap: nat, beforeInc: bool, beforeMod: bool)
  {
    cap > 0 &&
    if beforeInc then count > 0 && step == (count - 1) % cap
    else if beforeMod then count > 0 && step == (count - 1) % cap + 1
    else step == count % cap
  }

  ghost predicate PushIndex<T>(r: Ring<T>, pc: Pc<T>, written: nat)
  {
    IndexAt(r.pStep, written, r.cap, pc.PInc?, pc.PMod?)
  }

  ghost predicate PopIndex<T>(r: Ring<T>, pc: Pc<T>, read: nat)
  {
    IndexAt(r.cStep, read, r.cap, pc.CInc?, pc.CMod?)
  }

  ghost predicate PushIndices<T>(s: State<T>)
  {
    && (s.ring.pMutex.None? ==> PushIndex(s.ring, Idle, |s.written|))
    && (forall t | 0 <= t < |s.threads| && InPush(s.threads[t]) :: PushIndex(s.ring, s.threads[t], |s.written|))
  }

  ghost predicate PopIndices<T>(s: State<T>)
  {
    && (s.ring.cMutex.None? ==> PopIndex(s.ring, Idle, |s.read|))
    && (forall t | 0 <= t < |s.threads| && InPop(s.threads[t]) :: PopIndex(s.ring, s.threads[t], |s.read|))
  }

  // The unread values lie in the ring, value i in slot i mod cap.
  ghost predicate Stored<T>(s: State<T>)
  {
    && s.ring.cap > 0
    && |s.ring.cells| == s.ring.cap
    && |s.read| <= |s.written| <= |s.read| + s.ring.cap
    && s.read == s.written[..|s.read|]
    && forall i | |s.read| <= i < |s.written| :: s.ring.cells[i % s.ring.cap] == s.written[i]
  }

  ghost predicate Bags<T>(s: State<T>)
  {
    && s.pushed == multiset(s.written) + Bag(s.threads, Carried)
    && multiset(s.read) == s.popped + Bag(s.threads, Returning)
  }

  ghost predicate Inv<T>(s: State<T>)
  {
    Locks(s) && Tokens(s) && PushIndices(s) && PopIndices(s) && Stored(s) && Bags(s)
  }

  // ---- one line, seen from its own thread --------------------------------------------------

  function Wrote<T>(pc: Pc<T>): nat { if pc.PWrite? then 1 else 0 }

  function Took<T>(pc: Pc<T>): nat { if pc.CRead? then 1 else 0 }

  lemma LineTokens<T>(r: Ring<T>, t: Tid, pc: Pc<T>)
    requires Unblocked(r, pc) && Defined(r, pc)
    ensures var (r', pc') := Line(r, t, pc);
            && r'.cap == r.cap && |r'.cells| == |r.cells|
            && r'.dataSem + Announcing(pc') + Claiming(pc') + Took(pc)
               == r.dataSem + Announcing(pc) + Claiming(pc) + Wrote(pc)
            && r'.spaceSem + Reserving(pc') + Releasing(pc') + Wrote(pc)
               == r.spaceSem + Reserving(pc) + Releasing(pc) + Took(pc)
  {
  }

  lemma LineLocks<T>(r: Ring<T>, t: Tid, pc: Pc<T>)
    requires Unblocked(r, pc) && Defined(r, pc)
    requires InPush(pc) <==> r.pMutex == Some(t)
    requires InPop(pc) <==> r.cMutex == Some(t)
    ensures var (r', pc') := Line(r, t, pc);
            && (InPush(pc') <==> r'.pMutex == Some(t))
            && (InPop(pc') <==> r'.cMutex == Some(t))
            && (r'.pMutex == r.pMutex || (r.pMutex in {None, Some(t)} && r'.pMutex in {None, Some(t)}))
            && (r'.cMutex == r.cMutex || (r.cMutex in {None, Some(t)} && r'.cMutex in {None, Some(t)}))
  {
  }

  lemma LinePushIndex<T>(r: Ring<T>, t: Tid, pc: Pc<T>, written: nat)
    requires Unblocked(r, pc) && Defined(r, pc)
    requires InPush(pc) || pc.PLock? ==> PushIndex(r, pc, written)
    ensures var (r', pc') := Line(r, t, pc);
            && (InPush(pc) || InPush(pc') ==> PushIndex(r', pc', written + Wrote(pc)))
            && (!InPush(pc) ==> r'.pStep == r.pStep && Wrote(pc) == 0)
            && r'.cap == r.cap
  {
    if pc.PMod? {
      NextSlot(written - 1, r.cap);
    }
  }

  lemma LinePopIndex<T>(r: Ring<T>, t: Tid, pc: Pc<T>, read: nat)
    requires Unblocked(r, pc) && Defined(r, pc)
    requires InPop(pc) || pc.CLock? ==> PopIndex(r, pc, read)
    ensures var (r', pc') := Line(r, t, pc);
            && (InPop(pc) || InPop(pc') ==> PopIndex(r', pc', read + Took(pc)))
            && (!InPop(pc) ==> r'.cStep == r.cStep && Took(pc) == 0)
            && r'.cap == r.cap
  {
    if pc.CMod? {
      NextSlot(read - 1, r.cap);
    }
  }

  lemma LineBags<T>(r: Ring<T>, t: Tid, pc: Pc<T>)
    requires Unblocked(r, pc) && Defined(r, pc)
    ensures var (r', pc') := Line(r, t, pc);
            && Carried(pc') == (if pc.PWrite? then None else Carried(pc))
            && Returning(pc') == (if pc.CRead? then Some(pc'.out) else if pc.CPost? then None else Returning(pc))
            && (pc.CRead? ==> Returning(pc) == None)
  {
  }

  // ---- the invariant holds at the start and is kept by every step -------------------------

  lemma IdleTotals<T>(threads: seq<Pc<T>>)
    requires forall t | 0 <= t < |threads| :: threads[t].Idle?
    ensures Total(threads, Reserving) == Total(threads, Announcing) == 0
    ensures Total(threads, Claiming) == Total(threads, Releasing) == 0
  {
    TotalZero(threads, Reserving);
    TotalZero(threads, Announcing);
    TotalZero(threads, Claiming);
    TotalZero(threads, Releasing);
  }

  lemma IdleBags<T>(threads: seq<Pc<T>>)
    requires forall t | 0 <= t < |threads| :: threads[t].Idle?
    ensures Bag(threads, Carried) == multiset{} && Bag(threads, Returning) == multiset{}
  {
    BagEmpty(threads, Carried);
    BagEmpty(threads, Returning);
  }

  lemma InitInv<T>(cells: seq<T>, n: nat)
    requires |cells| > 0
    ensures Inv(Init(cells, n))
  {
    IdleTotals(Init(cells, n).threads);
    IdleBags(Init(cells, n).threads);
  }

  lemma LocksKept<T>(s: State<T>, m: Move<T>)
    requires Locks(s) && Enabled(s, m)
    ensures Locks(Apply(s, m))
  {
    if m.Step? {
      LineLocks(s.ring, m.t, s.threads[m.t]);
    }
  }

  lemma TokensKept<T>(s: State<T>, m: Move<T>)
    requires Tokens(s) && Enabled(s, m)
    ensures Tokens(Apply(s, m))
  {
    var s' := Apply(s, m);
    var next := s'.threads[m.t];
    if m.Step? {
      LineTokens(s.ring, m.t, s.threads[m.t]);
    }
    TotalUpdate(s.threads, m.t, next, Reserving);
    TotalUpdate(s.threads, m.t, next, Announcing);
    TotalUpdate(s.threads, m.t, next, Claiming);
    TotalUpdate(s.threads, m.t, next, Releasing);
    TotalAtLeast(s.threads, m.t, Claiming);
  }

  lemma PushIndicesKept<T>(s: State<T>, m: Move<T>)
    requires Locks(s) && PushIndices(s) && Enabled(s, m)
    ensures PushIndices(Apply(s, m))
  {
    if m.Step? {
      LineLocks(s.ring, m.t, s.threads[m.t]);
      LinePushIndex(s.ring, m.t, s.threads[m.t], |s.written|);
    }
  }

  lemma PopIndicesKept<T>(s: State<T>, m: Move<T>)
    requires Locks(s) && PopIndices(s) && Enabled(s, m)
    ensures PopIndices(Apply(s, m))
  {
    if m.Step? {
      LineLocks(s.ring, m.t, s.threads[m.t]);
      LinePopIndex(s.ring, m.t, s.threads[m.t], |s.read|);
    }
  }

  // The write lands in a slot no unread value occupies.
  lemma WriteKeepsStored<T>(s: State<T>, s': State<T>, x: T)
    requires Stored(s) && |s.written| < |s.read| + s.ring.cap
    requires s'.ring.cap == s.ring.cap && s'.ring.cells == s.ring.cells[|s.written| % s.ring.cap := x]
    requires s'.written == s.written + [x] && s'.read == s.read
    ensures Stored(s')
  {
    forall i | |s'.read| <= i < |s'.written|
      ensures s'.ring.cells[i % s'.ring.cap] == s'.written[i]
    {
      if i < |s.written| {
        SlotsDistinct(i, |s.written|, s.ring.cap);
      }
    }
  }

  lemma ReadKeepsStored<T>(s: State<T>, s': State<T>)
    requires Stored(s) && |s.read| < |s.written| && s'.ring == s.ring && s'.written == s.written
    requires s'.read == s.read + [s.ring.cells[|s.read| % s.ring.cap]]
    ensures Stored(s')
  {
  }

  lemma StoredKept<T>(s: State<T>, m: Move<T>)
    requires Locks(s) && Tokens(s) && PushIndices(s) && PopIndices(s) && Stored(s) && Enabled(s, m)
    ensures Stored(Apply(s, m))
  {
    if m.Step? && s.threads[m.t].PWrite? {
      TotalAtLeast(s.threads, m.t, Reserving);
      WriteKeepsStored(s, Apply(s, m), s.threads[m.t].x);
    } else if m.Step? && s.threads[m.t].CRead? {
      TotalAtLeast(s.threads, m.t, Claiming);
      ReadKeepsStored(s, Apply(s, m));
    }
  }

  // One thread's control state changes and the histories change with what it carries.
  ghost predicate Accounted<T>(s: State<T>, s': State<T>, t: Tid)
  {
    t < |s.threads| && |s'.threads| == |s.threads| && s'.threads == s.threads[t := s'.threads[t]] &&
    var pc, pc' := s.threads[t], s'.threads[t];
    && (if Carried(pc') == Carried(pc) then s'.pushed == s.pushed && s'.written == s.written
        else if Carried(pc).None? then s'.pushed == s.pushed + multiset{Carried(pc').value} && s'.written == s.written
        else Carried(pc').None? && s'.pushed == s.pushed && s'.written == s.written + [Carried(pc).value])
    && (if Returning(pc') == Returning(pc) then s'.popped == s.popped && s'.read == s.read
        else if Returning(pc).None? then s'.popped == s.popped && s'.read == s.read + [Returning(pc').value]
        else Returning(pc').None? && s'.popped == s.popped + multiset{Returning(pc).value} && s'.read == s.read)
  }

  lemma PushedAccounted<T>(s: State<T>, s': State<T>, t: Tid)
    requires Bags(s) && Accounted(s, s', t)
    ensures s'.pushed == multiset(s'.written) + Bag(s'.threads, Carried)
  {
    var pc, pc' := s.threads[t], s'.threads[t];
    if Carried(pc') == Carried(pc) {
      BagSame(s.threads, t, pc', Carried);
    } else if Carried(pc).None? {
      BagGain(s.threads, t, pc', Carried);
    } else {
      BagLose(s.threads, t, pc', Carried);
      Handled(s.pushed, s.written, Bag(s.threads, Carried), Bag(s'.threads, Carried), Carried(pc).value);
    }
  }

  lemma PoppedAccounted<T>(s: State<T>, s': State<T>, t: Tid)
    requires Bags(s) && Accounted(s, s', t)
    ensures multiset(s'.read) == s'.popped + Bag(s'.threads, Returning)
  {
    var pc, pc' := s.threads[t], s'.threads[t];
    if Returning(pc') == Returning(pc) {
      BagSame(s.threads, t, pc', Returning);
    } else if Returning(pc).None? {
      BagGain(s.threads, t, pc', Returning);
      Joined(s.read, s.popped, Bag(s.threads, Returning), Bag(s'.threads, Returning), Returning(pc').value);
    } else {
      BagLose(s.threads, t, pc', Returning);
    }
  }

  lemma MoveAccounted<T>(s: State<T>, m: Move<T>)
    requires Enabled(s, m)
    ensures Accounted(s, Apply(s, m), m.t)
  {
    if m.Step? {
      LineBags(s.ring, m.t, s.threads[m.t]);
    }
  }

  lemma BagsKept<T>(s: State<T>, m: Move<T>)
    requires Bags(s) && Enabled(s, m)
    ensures Bags(Apply(s, m))
  {
    MoveAccounted(s, m);
    PushedAccounted(s, Apply(s, m), m.t);
    PoppedAccounted(s, Apply(s, m), m.t);
  }

  lemma StepKeepsInv<T>(s: State<T>, m: Move<T>)
    requires Inv(s) && Enabled(s, m)
    ensures Inv(Apply(s, m))
  {
    LocksKept(s, m);
    TokensKept(s, m);
    PushIndicesKept(s, m);
    PopIndicesKept(s, m);
    StoredKept(s, m);
    BagsKept(s, m);
  }

  // Every state any interleaving reaches satisfies the invariant.
  lemma {:induction false} RunInv<T>(cells: seq<T>, n: nat, ms: seq<Move<T>>)
    requires |cells| > 0 && Run(Init(cells, n), ms).Some?
    ensures Inv(Run(Init(cells, n), ms).value)
  {
    if ms == [] {
      InitInv(cells, n);
    } else {
      RunInv(cells, n, ms[..|ms| - 1]);
      StepKeepsInv(Run(Init(cells, n), ms[..|ms| - 1]).value, ms[|ms| - 1]);
    }
  }

  // ---- refinement of a bounded FIFO ----------------------------------------------------------

  datatype FifoOp<T> = Enq(x: T) | Deq(x: T)

  // The contents after one operation, if a FIFO of capacity cap allows it.
  function FifoStep<T(==)>(cap: nat, q: seq<T>, op: FifoOp<T>): Option<seq<T>>
  {
    match op
    case Enq(x) => if |q| < cap then Some(q + [x]) else None
    case Deq(x) => if q != [] && q[0] == x then Some(q[1..]) else None
  }

  function FifoRun<T(==)>(cap: nat, ops: seq<FifoOp<T>>): Option<seq<T>>
  {
    if ops == [] then Some([]) else
      match FifoRun(cap, ops[..|ops| - 1])
      case None => None
      case Some(q) => FifoStep(cap, q, ops[|ops| - 1])
  }

  // What a move does to the queue: a Push takes effect when it writes its slot, a Pop when it
  // copies its slot out, with the very value it will return.
  function OpOf<T>(s: State<T>, m: Move<T>): Option<FifoOp<T>>
    requires Enabled(s, m)
  {
    if m.Step? && s.threads[m.t].PWrite? then Some(Enq(s.threads[m.t].x))
    else if m.Step? && s.threads[m.t].CRead? then Some(Deq(Apply(s, m).threads[m.t].out))
    else None
  }

  function Ops<T>(s: State<T>, ms: seq<Move<T>>): seq<FifoOp<T>>
    requires Run(s, ms).Some?
  {
    if ms == [] then [] else
      var op := OpOf(Run(s, ms[..|ms| - 1]).value, ms[|ms| - 1]);
      Ops(s, ms[..|ms| - 1]) + if op.Some? then [op.value] else []
  }

  lemma WriteHasRoom<T>(s: State<T>, t: Tid)
    requires Inv(s) && t < |s.threads| && s.threads[t].PWrite?
    ensures |s.written| - |s.read| < s.ring.cap
    ensures s.ring.pStep == |s.written| % s.ring.cap < |s.ring.cells|
  {
    TotalAtLeast(s.threads, t, Reserving);
  }

  lemma ReadHasValue<T>(s: State<T>, t: Tid)
    requires Inv(s) && t < |s.threads| && s.threads[t].CRead?
    ensures |s.read| < |s.written|
    ensures s.ring.cStep == |s.read| % s.ring.cap < |s.ring.cells|
    ensures s.ring.cells[s.ring.cStep] == s.written[|s.read|]
  {
    TotalAtLeast(s.threads, t, Claiming);
  }

  ghost function Contents<T>(s: State<T>): seq<T>
  {
    if |s.read| <= |s.written| then s.written[|s.read|..] else []
  }

  lemma WriteRefines<T>(s: State<T>, t: Tid)
    requires t < |s.threads| && s.threads[t].PWrite? && s.ring.pStep < |s.ring.cells|
    requires |s.read| <= |s.written| < |s.read| + s.ring.cap
    ensures FifoStep(s.ring.cap, Contents(s), Enq(s.threads[t].x)) == Some(Contents(Apply(s, Step(t))))
  {
    var x := s.threads[t].x;
    assert Apply(s, Step(t)).written == s.written + [x];
    assert (s.written + [x])[|s.read|..] == s.written[|s.read|..] + [x];
  }

  lemma ReadRefines<T>(s: State<T>, t: Tid)
    requires t < |s.threads| && s.threads[t].CRead? && s.ring.cStep < |s.ring.cells|
    requires |s.read| < |s.written| && s.ring.cells[s.ring.cStep] == s.written[|s.read|]
    ensures Apply(s, Step(t)).threads[t].CInc?
    ensures FifoStep(s.ring.cap, Contents(s), Deq(Apply(s, Step(t)).threads[t].out))
            == Some(Contents(Apply(s, Step(t))))
  {
    assert s.written[|s.read|..][1..] == s.written[|s.read| + 1..];
  }

  lemma MoveRefines<T>(s: State<T>, m: Move<T>)
    requires Inv(s) && Enabled(s, m)
    ensures match OpOf(s, m)
            case None => Contents(Apply(s, m)) == Contents(s)
            case Some(op) => FifoStep(s.ring.cap, Contents(s), op) == Some(Contents(Apply(s, m)))
  {
    if m.Step? && s.threads[m.t].PWrite? {
      WriteHasRoom(s, m.t);
      WriteRefines(s, m.t);
    } else if m.Step? && s.threads[m.t].CRead? {
      ReadHasValue(s, m.t);
      ReadRefines(s, m.t);
    }
  }

  // Every interleaving of any number of producers and consumers is a run of a FIFO of capacity
  // cap, whose contents are the values written and not yet read.
  lemma {:induction false} RefinesFifo<T>(cells: seq<T>, n: nat, ms: seq<Move<T>>)
    requires |cells| > 0 && Run(Init(cells, n), ms).Some?
    ensures FifoRun(|cells|, Ops(Init(cells, n), ms)) == Some(Contents(Run(Init(cells, n), ms).value))
  {
    if ms != [] {
      var init, pre, m := Init(cells, n), ms[..|ms| - 1], ms[|ms| - 1];
      var before := Run(init, pre).value;
      RefinesFifo(cells, n, pre);
      RunInv(cells, n, pre);
      CapIsConstant(cells, n, pre);
      MoveRefines(before, m);
      var ops := Ops(init, ms);
      if OpOf(before, m).Some? {
        assert ops[..|ops| - 1] == Ops(init, pre);
      } else {
        assert ops == Ops(init, pre);
      }
    }
  }

  lemma {:induction false} CapIsConstant<T>(cells: seq<T>, n: nat, ms: seq<Move<T>>)
    requires Run(Init(cells, n), ms).Some?
    ensures var s := Run(Init(cells, n), ms).value;
            s.ring.cap == |cells| && |s.ring.cells| == |cells| && |s.threads| == n
  {
    if ms != [] {
      CapIsConstant(cells, n, ms[..|ms| - 1]);
      var before, m := Run(Init(cells, n), ms[..|ms| - 1]).value, ms[|ms| - 1];
      if m.Step? {
        LineTokens(before.ring, m.t, before.threads[m.t]);
      }
    }
  }

  // ---- safety of the shared array ------------------------------------------------------------

  lemma LineDefined<T>(s: State<T>, t: Tid)
    requires Inv(s) && t < |s.threads|
    ensures Defined(s.ring, s.threads[t])
  {
    if s.threads[t].PWrite? {
      WriteHasRoom(s, t);
    } else if s.threads[t].CRead? {
      ReadHasValue(s, t);
    }
  }

  // In every run no line any thread comes to indexes outside the ring or divides by zero.
  lemma AlwaysDefined<T>(cells: seq<T>, n: nat, ms: seq<Move<T>>, t: Tid)
    requires |cells| > 0 && Run(Init(cells, n), ms).Some? && t < n
    ensures |Run(Init(cells, n), ms).value.threads| == n
    ensures var s := Run(Init(cells, n), ms).value; Defined(s.ring, s.threads[t])
  {
    RunInv(cells, n, ms);
    CapIsConstant(cells, n, ms);
    LineDefined(Run(Init(cells, n), ms).value, t);
  }

  // In every run at most one thread is between the Lock and UnLock of each kind.
  lemma MutualExclusion<T>(cells: seq<T>, n: nat, ms: seq<Move<T>>, t: Tid, u: Tid)
    requires |cells| > 0 && Run(Init(cells, n), ms).Some? && t < n && u < n && t != u
    ensures |Run(Init(cells, n), ms).value.threads| == n
    ensures var s := Run(Init(cells, n), ms).value;
            && !(InPush(s.threads[t]) && InPush(s.threads[u]))
            && !(InPop(s.threads[t]) && InPop(s.threads[u]))
  {
    RunInv(cells, n, ms);
    CapIsConstant(cells, n, ms);
  }

  // The two mutexes differ, so a producer and a consumer may be in the ring at once; they never
  // address the same slot, and the slot written holds no unread value.
  lemma NeverTheSameSlot<T>(s: State<T>, p: Tid, c: Tid)
    requires Inv(s) && p < |s.threads| && c < |s.threads|
    requires s.threads[p].PWrite?
    ensures s.threads[c].CRead? ==> s.ring.pStep != s.ring.cStep
    ensures forall i | |s.read| <= i < |s.written| :: i % s.ring.cap != s.ring.pStep
  {
    WriteHasRoom(s, p);
    forall i | |s.read| <= i < |s.written|
      ensures i % s.ring.cap != s.ring.pStep
    {
      SlotsDistinct(i, |s.written|, s.ring.cap);
    }
    if s.threads[c].CRead? {
      ReadHasValue(s, c);
    }
  }

  // ---- tokens and progress -------------------------------------------------------------------

  function HoldsToken<T>(pc: Pc<T>): nat
  {
    if pc.Idle? || pc.PWait? || pc.CWait? || pc.PUnlock? then 0 else 1
  }

  lemma {:induction false} HoldersSplit<T>(threads: seq<Pc<T>>)
    ensures Total(threads, HoldsToken) == Total(threads, Reserving) + Total(threads, Announcing)
                                        + Total(threads, Claiming) + Total(threads, Releasing)
  {
    if threads != [] {
      HoldersSplit(threads[..|threads| - 1]);
    }
  }

  // Free slots, announced values and tokens inside threads always add up to the capacity.
  lemma TokenConservation<T>(s: State<T>)
    requires Inv(s)
    ensures s.ring.spaceSem + s.ring.dataSem + Total(s.threads, HoldsToken) == s.ring.cap
  {
    HoldersSplit(s.threads);
  }

  predicate Full<T>(s: State<T>)
  {
    s.ring.spaceSem == 0 && forall t | 0 <= t < |s.threads| :: s.threads[t].Idle? || s.threads[t].PWait?
  }

  predicate Empty<T>(s: State<T>)
  {
    s.ring.dataSem == 0 && forall t | 0 <= t < |s.threads| :: s.threads[t].Idle? || s.threads[t].CWait?
  }

  // Nothing inside Push or Pop can move exactly when every call in progress is a Push waiting
  // for space, or every one a Pop waiting for data.
  lemma StuckExactlyWhen<T>(s: State<T>, busy: Tid)
    requires Inv(s) && busy < |s.threads| && !s.threads[busy].Idle?
    ensures (forall t | 0 <= t < |s.threads| :: !Enabled(s, Step(t))) <==> Full(s) || Empty(s)
  {
    if forall t | 0 <= t < |s.threads| :: !Enabled(s, Step(t)) {
      forall t | 0 <= t < |s.threads|
        ensures s.threads[t].Idle? || (s.threads[t].PWait? && s.ring.spaceSem == 0)
             || (s.threads[t].CWait? && s.ring.dataSem == 0)
      {
        BlockedAt(s, t);
      }
      TotalZero(s.threads, HoldsToken);
      TokenConservation(s);
    }
  }

  // A thread that cannot move, when no one can, waits on a semaphore at zero.
  lemma BlockedAt<T>(s: State<T>, t: Tid)
    requires Inv(s) && t < |s.threads|
    requires forall u | 0 <= u < |s.threads| :: !Enabled(s, Step(u))
    ensures s.threads[t].Idle? || (s.threads[t].PWait? && s.ring.spaceSem == 0)
         || (s.threads[t].CWait? && s.ring.dataSem == 0)
  {
    LineDefined(s, t);
    assert !Enabled(s, Step(t));
    if s.threads[t].PLock? {
      assert !Enabled(s, Step(s.ring.pMutex.value));
      LineDefined(s, s.ring.pMutex.value);
    } else if s.threads[t].CLock? {
      assert !Enabled(s, Step(s.ring.cMutex.value));
      LineDefined(s, s.ring.cMutex.value);
    }
  }

  // With a Push and a Pop both in progress some thread can always take its next line.
  lemma NoDeadlock<T>(s: State<T>, p: Tid, c: Tid)
    requires Inv(s) && p < |s.threads| && c < |s.threads|
    requires s.threads[p].PWait? || s.threads[p].PLock? || InPush(s.threads[p])
    requires s.threads[c].CWait? || s.threads[c].CLock? || InPop(s.threads[c]) || s.threads[c].CPost?
    ensures exists t :: 0 <= t < |s.threads| && Enabled(s, Step(t))
  {
    StuckExactlyWhen(s, p);
  }

  // ---- the callers' view ---------------------------------------------------------------------

  lemma IdleTokens<T>(s: State<T>)
    requires Tokens(s) && forall t | 0 <= t < |s.threads| :: s.threads[t].Idle?
    ensures s.ring.dataSem == |s.written| - |s.read| && s.ring.spaceSem == s.ring.cap - s.ring.dataSem
  {
    IdleTotals(s.threads);
  }

  lemma Conserved<T>(pushed: multiset<T>, popped: multiset<T>, written: seq<T>, read: seq<T>,
                     carried: multiset<T>, returning: multiset<T>)
    requires pushed == multiset(written) + carried && multiset(read) == popped + returning
    requires carried == returning == multiset{} && read <= written
    ensures pushed == popped + multiset(written[|read|..])
  {
    assert written == read + written[|read|..];
  }

  // When no call is in progress, the values pushed are those popped and those still in the ring.
  lemma NothingLostOrDuplicated<T>(s: State<T>)
    requires Inv(s) && forall t | 0 <= t < |s.threads| :: s.threads[t].Idle?
    ensures s.pushed == s.popped + multiset(Contents(s))
  {
    IdleBags(s.threads);
    Conserved(s.pushed, s.popped, s.written, s.read, Bag(s.threads, Carried), Bag(s.threads, Returning));
  }

  // The arguments of the calls of Push, and the number of calls of Pop, among the moves.
  function Pushes<T>(ms: seq<Move<T>>): multiset<T>
  {
    if ms == [] then multiset{} else
      var m := ms[|ms| - 1];
      Pushes(ms[..|ms| - 1]) + if m.CallPush? then multiset{m.x} else multiset{}
  }

  function Pops<T>(ms: seq<Move<T>>): nat
  {
    if ms == [] then 0 else Pops(ms[..|ms| - 1]) + if ms[|ms| - 1].CallPop? then 1 else 0
  }

  function Popping<T>(pc: Pc<T>): nat
  {
    if pc.CWait? || pc.CLock? || InPop(pc) || pc.CPost? then 1 else 0
  }

  lemma MoveCounted<T>(s: State<T>, m: Move<T>)
    requires Enabled(s, m)
    ensures var s' := Apply(s, m);
            && s'.pushed == s.pushed + (if m.CallPush? then multiset{m.x} else multiset{})
            && |s'.popped| + Total(s'.threads, Popping)
               == |s.popped| + Total(s.threads, Popping) + if m.CallPop? then 1 else 0
  {
    TotalUpdate(s.threads, m.t, Apply(s, m).threads[m.t], Popping);
  }

  // In every run `pushed` holds the arguments of the Pushes called, and each Pop called has
  // returned or is in progress.
  lemma {:induction false} CallsCounted<T>(cells: seq<T>, n: nat, ms: seq<Move<T>>)
    requires Run(Init(cells, n), ms).Some?
    ensures var s := Run(Init(cells, n), ms).value;
            s.pushed == Pushes(ms) && |s.popped| + Total(s.threads, Popping) == Pops(ms)
  {
    if ms == [] {
      TotalZero(Init(cells, n).threads, Popping);
    } else {
      CallsCounted(cells, n, ms[..|ms| - 1]);
      MoveCounted(Run(Init(cells, n), ms[..|ms| - 1]).value, ms[|ms| - 1]);
    }
  }

  // When all calls of a run have returned, the arguments of its Pushes are the results of its Pops,
  // one for each, and the values still in the ring.
  lemma EveryCallAnswered<T>(cells: seq<T>, n: nat, ms: seq<Move<T>>)
    requires |cells| > 0 && Run(Init(cells, n), ms).Some?
    requires forall pc | pc in Run(Init(cells, n), ms).value.threads :: pc.Idle?
    ensures var s := Run(Init(cells, n), ms).value;
            Pushes(ms) == s.popped + multiset(Contents(s)) && |s.popped| == Pops(ms)
  {
    var s := Run(Init(cells, n), ms).value;
    RunInv(cells, n, ms);
    CallsCounted(cells, n, ms);
    NothingLostOrDuplicated(s);
    TotalZero(s.threads, Popping);
  }

  // ---- any values can be passed through ------------------------------------------------------

  // Thread 0 takes its next line.
  lemma Go<T>(cells: seq<T>, n: nat, ms: seq<Move<T>>, s: State<T>) returns (ms': seq<Move<T>>, s': State<T>)
    requires |cells| > 0 && Run(Init(cells, n), ms) == Some(s) && s.threads != [] && Unblocked(s.ring, s.threads[0])
    ensures Run(Init(cells, n), ms') == Some(s') && Enabled(s, Step(0)) && s' == Apply(s, Step(0))
    ensures Pushes(ms') == Pushes(ms) && Pops(ms') == Pops(ms)
  {
    RunInv(cells, n, ms);
    LineDefined(s, 0);
    ms', s' := ms + [Step(0)], Apply(s, Step(0));
    assert ms'[..|ms'| - 1] == ms;
  }

  lemma Call<T>(cells: seq<T>, n: nat, ms: seq<Move<T>>, s: State<T>, m: Move<T>) returns (ms': seq<Move<T>>, s': State<T>)
    requires Run(Init(cells, n), ms) == Some(s) && Enabled(s, m) && !m.Step?
    ensures Run(Init(cells, n), ms') == Some(s') && s' == Apply(s, m)
    ensures Pushes(ms') == Pushes(ms) + (if m.CallPush? then multiset{m.x} else multiset{})
    ensures Pops(ms') == Pops(ms) + if m.CallPop? then 1 else 0
  {
    ms', s' := ms + [m], Apply(s, m);
    assert ms'[..|ms'| - 1] == ms;
  }

  ghost predicate AllIdle<T>(s: State<T>)
  {
    forall t | 0 <= t < |s.threads| :: s.threads[t].Idle?
  }

  function LinesLeft<T>(pc: Pc<T>): nat
  {
    match pc
    case Idle => 0
    case PWait(_) => 7
    case PLock(_) => 6
    case PWrite(_) => 5
    case PInc => 4
    case PMod => 3
    case PPost => 2
    case PUnlock => 1
    case CWait => 7
    case CLock => 6
    case CRead => 5
    case CInc(_) => 4
    case CMod(_) => 3
    case CUnlock(_) => 2
    case CPost(_) => 1
  }

  function ToWrite<T>(pc: Pc<T>): seq<T> { if Carried(pc).Some? then [Carried(pc).value] else [] }

  function ToRead<T>(pc: Pc<T>): nat { if pc.CWait? || pc.CLock? || pc.CRead? then 1 else 0 }

  lemma LineDoes<T>(s: State<T>, t: Tid)
    requires Enabled(s, Step(t))
    ensures var s', pc := Apply(s, Step(t)), s.threads[t];
            && LinesLeft(s'.threads[t]) < LinesLeft(pc) && !s'.threads[t].PWait? && !s'.threads[t].CWait?
            && s'.written + ToWrite(s'.threads[t]) == s.written + ToWrite(pc)
            && |s'.read| + ToRead(s'.threads[t]) == |s.read| + ToRead(pc)
  {
  }

  // With all others outside, thread 0 comes to the end of its call.
  lemma {:induction false} Finish<T>(cells: seq<T>, n: nat, ms: seq<Move<T>>, s: State<T>) returns (ms': seq<Move<T>>, s': State<T>)
    requires |cells| > 0 && Run(Init(cells, n), ms) == Some(s) && s.threads != []
    requires forall t | 0 < t < |s.threads| :: s.threads[t].Idle?
    requires (s.threads[0].PWait? ==> s.ring.spaceSem > 0) && (s.threads[0].CWait? ==> s.ring.dataSem > 0)
    ensures Run(Init(cells, n), ms') == Some(s') && AllIdle(s')
    ensures s'.written == s.written + ToWrite(s.threads[0]) && |s'.read| == |s.read| + ToRead(s.threads[0])
    ensures Pushes(ms') == Pushes(ms) && Pops(ms') == Pops(ms)
    decreases LinesLeft(s.threads[0])
  {
    if s.threads[0].Idle? {
      ms', s' := ms, s;
    } else {
      RunInv(cells, n, ms);
      ms', s' := Go(cells, n, ms, s);
      LineDoes(s, 0);
      ms', s' := Finish(cells, n, ms', s');
    }
  }

  lemma IdleIsFree<T>(cells: seq<T>, n: nat, ms: seq<Move<T>>, s: State<T>)
    requires |cells| > 0 && Run(Init(cells, n), ms) == Some(s) && AllIdle(s)
    ensures s.read <= s.written
    ensures s.ring.dataSem == |s.written| - |s.read| && s.ring.spaceSem == |cells| - s.ring.dataSem
    ensures |s.threads| == n
  {
    RunInv(cells, n, ms);
    CapIsConstant(cells, n, ms);
    IdleTokens(s);
  }

  // An empty ring takes a value and gives it back.
  lemma PassOne<T>(cells: seq<T>, n: nat, ms: seq<Move<T>>, s: State<T>, x: T) returns (ms': seq<Move<T>>, s': State<T>)
    requires |cells| > 0 && n > 0 && Run(Init(cells, n), ms) == Some(s) && AllIdle(s) && |s.read| == |s.written|
    ensures Run(Init(cells, n), ms') == Some(s') && AllIdle(s')
    ensures s'.written == s.written + [x] && |s'.read| == |s'.written|
    ensures Pushes(ms') == Pushes(ms) + multiset{x} && Pops(ms') == Pops(ms) + 1
  {
    IdleIsFree(cells, n, ms, s);
    ms', s' := Call(cells, n, ms, s, CallPush(0, x));
    ms', s' := Finish(cells, n, ms', s');
    IdleIsFree(cells, n, ms', s');
    ms', s' := Call(cells, n, ms', s', CallPop(0));
    ms', s' := Finish(cells, n, ms', s');
  }

  lemma LastOne<T>(xs: seq<T>)
    requires xs != []
    ensures xs == xs[..|xs| - 1] + [xs[|xs| - 1]]
    ensures multiset(xs) == multiset(xs[..|xs| - 1]) + multiset{xs[|xs| - 1]}
  {
    assert xs == xs[..|xs| - 1] + [xs[|xs| - 1]];
  }

  // Any number of values can go through a ring of any capacity: there is a run that pushes and
  // pops each of them, in order.
  lemma {:induction false} ValuesPassThrough<T>(cells: seq<T>, n: nat, xs: seq<T>) returns (ms: seq<Move<T>>, s: State<T>)
    requires |cells| > 0 && n > 0
    ensures Run(Init(cells, n), ms) == Some(s) && AllIdle(s) && s.written == s.read == xs
    ensures Pushes(ms) == multiset(xs) && Pops(ms) == |xs|
  {
    if xs == [] {
      ms, s := [], Init(cells, n);
    } else {
      LastOne(xs);
      ms, s := ValuesPassThrough(cells, n, xs[..|xs| - 1]);
      ms, s := PassOne(cells, n, ms, s, xs[|xs| - 1]);
      IdleIsFree(cells, n, ms, s);
    }
  }

  // For every run: what has been read is a prefix of what has been written, the two are never
  // more than a lap apart, and every value pushed is accounted for.
  lemma ReadsFollowWrites<T>(cells: seq<T>, n: nat, ms: seq<Move<T>>)
    requires |cells| > 0 && Run(Init(cells, n), ms).Some?
    ensures var s := Run(Init(cells, n), ms).value;
            && s.read <= s.written
            && |s.written| <= |s.read| + |cells|
            && s.pushed == multiset(s.written) + Bag(s.threads, Carried)
            && multiset(s.read) == s.popped + Bag(s.threads, Returning)
  {
    RunInv(cells, n, ms);
    CapIsConstant(cells, n, ms);
  }

  // ---- the ring when nobody is inside -----------------------------------------------------

  ghost predicate Quiescent<T>(r: Ring<T>)
  {
    && r.cap > 0 && |r.cells| == r.cap && r.cStep < r.cap
    && r.dataSem + r.spaceSem == r.cap
    && r.pStep == (r.cStep + r.dataSem) % r.cap
    && r.cMutex.None? && r.pMutex.None?
  }

  // The values in the ring, oldest first.
  ghost function Queue<T>(r: Ring<T>): seq<T>
    requires Quiescent(r)
  {
    seq(r.dataSem, i requires 0 <= i => r.cells[(r.cStep + i) % r.cap])
  }

  lemma QueueIsContents<T>(s: State<T>)
    requires Stored(s) && Quiescent(s.ring)
    requires s.ring.cStep == |s.read| % s.ring.cap && s.ring.dataSem == |s.written| - |s.read|
    ensures Queue(s.ring) == Contents(s)
  {
    forall i | 0 <= i < s.ring.dataSem
      ensures Queue(s.ring)[i] == Contents(s)[i]
    {
      ShiftSlot(|s.read|, i, s.ring.cap);
    }
  }

  // Whenever all threads of a run are outside Push and Pop, the ring is as the sequential
  // methods expect it and its queue holds the values written and not yet read.
  lemma IdleMeansQuiescent<T>(s: State<T>)
    requires Inv(s) && forall t | 0 <= t < |s.threads| :: s.threads[t].Idle?
    ensures Quiescent(s.ring) && Queue(s.ring) == Contents(s)
  {
    IdleTokens(s);
    ShiftSlot(|s.read|, |s.written| - |s.read|, s.ring.cap);
    assert s.ring.pMutex.None? && s.ring.cMutex.None?;
    QueueIsContents(s);
  }
}

/**
  The ring queue itself: its fields, updated in place. `PushLine` and `PopLine` execute one line
  on behalf of a thread and are the machine's steps; `Push` and `Pop` are the whole operations
  when no other thread is inside.
*/
module RingQueueClass {
  import opened Tally
  import opened Modular
  import opened RingMachine
  import opened RingProofs

  const DEFAULT_CAP: nat := 5

  class RingQueue<T(0)> {
    var cells: array<T>
    var cap: nat
    var cStep: nat
    var pStep: nat
    var dataSem: nat
    var spaceSem: nat
    var cMutex: Option<Tid>
    var pMutex: Option<Tid>

    ghost function Value(): Ring<T>
      reads this, cells
    {
      Ring(cells[..], cap, cStep, pStep, dataSem, spaceSem, cMutex, pMutex)
    }

    constructor (cap: nat := DEFAULT_CAP)
      ensures fresh(cells) && cells.Length == cap
      ensures Value() == Fresh(cells[..])
      ensures this.cap == cap && cStep == 0 && pStep == 0 && dataSem == 0 && spaceSem == cap
      ensures cap > 0 ==> Quiescent(Value()) && Queue(Value()) == []
    {
      this.cells := new T[cap];
      this.cap := cap;
      cStep, pStep := 0, 0;
      dataSem, spaceSem := 0, cap;
      cMutex, pMutex := None, None;
    }

    // RingQueue() is a ring of five slots.
    static method Default() returns (ring: RingQueue<T>)
      ensures fresh(ring) && fresh(ring.cells) && ring.cap == ring.cells.Length == 5
      ensures Quiescent(ring.Value()) && Queue(ring.Value()) == []
    {
      ring := new RingQueue<T>();
    }

    // One line of Push by thread t.
    method PushLine(t: Tid, pc: Pc<T>) returns (next: Pc<T>)
      requires InPush(pc) || pc.PWait? || pc.PLock?
      requires Unblocked(Value(), pc) && Defined(Value(), pc)
      modifies this, cells
      ensures cells == old(cells)
      ensures (Value(), next) == Line(old(Value()), t, pc)
    {
      match pc
      case PWait(x) => spaceSem := spaceSem - 1; next := PLock(x);
      case PLock(x) => pMutex := Some(t); next := PWrite(x);
      case PWrite(x) => cells[pStep] := x; next := PInc;
      case PInc => pStep := pStep + 1; next := PMod;
      case PMod => pStep := pStep % cap; next := PPost;
      case PPost => dataSem := dataSem + 1; next := PUnlock;
      case PUnlock => pMutex := None; next := Idle;
    }

    // One line of Pop by thread t.
    method PopLine(t: Tid, pc: Pc<T>) returns (next: Pc<T>)
      requires InPop(pc) || pc.CWait? || pc.CLock? || pc.CPost?
      requires Unblocked(Value(), pc) && Defined(Value(), pc)
      modifies this
      ensures cells == old(cells)
      ensures (Value(), next) == Line(old(Value()), t, pc)
    {
      match pc
      case CWait => dataSem := dataSem - 1; next := CLock;
      case CLock => cMutex := Some(t); next := CRead;
      case CRead => next := CInc(cells[cStep]);
      case CInc(out) => cStep := cStep + 1; next := CMod(out);
      case CMod(out) => cStep := cStep % cap; next := CUnlock(out);
      case CUnlock(out) => cMutex := None; next := CPost(out);
      case CPost(out) => spaceSem := spaceSem + 1; next := Idle;
    }

    method Push(t: Tid, x: T)
      requires Quiescent(Value()) && spaceSem > 0
      modifies this, cells
      ensures cells == old(cells) && cap == old(cap) && Quiescent(Value())
      ensures Queue(Value()) == old(Queue(Value())) + [x]
    {
      ghost var before := Value();
      var pc := PushLine(t, PWait(x));
      pc := PushLine(t, pc);
      pc := PushLine(t, pc);
      pc := PushLine(t, pc);
      pc := PushLine(t, pc);
      pc := PushLine(t, pc);
      pc := PushLine(t, pc);
      Appended(before, Value(), x);
    }

    method Pop(t: Tid) returns (out: T)
      requires Quiescent(Value()) && dataSem > 0
      modifies this
      ensures cells == old(cells) && cap == old(cap) && Quiescent(Value())
      ensures [out] + Queue(Value()) == old(Queue(Value()))
    {
      ghost var before := Value();
      var pc := PopLine(t, CWait);
      pc := PopLine(t, pc);
      pc := PopLine(t, pc);
      pc := PopLine(t, pc);
      pc := PopLine(t, pc);
      assert pc == CUnlock(before.cells[before.cStep]);
      out := pc.out;
      pc := PopLine(t, pc);
      pc := PopLine(t, pc);
      ghost var now := Value();
      assert now == before.(cStep := (before.cStep + 1) % before.cap,
                            dataSem := before.dataSem - 1, spaceSem := before.spaceSem + 1);
      Removed(before, now);
    }
  }

  lemma Appended<T>(r: Ring<T>, r': Ring<T>, x: T)
    requires Quiescent(r) && r.spaceSem > 0
    requires r' == r.(cells := r.cells[r.pStep := x], pStep := (r.pStep + 1) % r.cap,
                      dataSem := r.dataSem + 1, spaceSem := r.spaceSem - 1)
    ensures Quiescent(r') && Queue(r') == Queue(r) + [x]
  {
    ShiftSlot(r.cStep + r.dataSem, 1, r.cap);
    forall i | 0 <= i < r'.dataSem
      ensures Queue(r')[i] == (Queue(r) + [x])[i]
    {
      if i < r.dataSem {
        SlotsDistinct(r.cStep + i, r.cStep + r.dataSem, r.cap);
      }
    }
  }

  lemma Removed<T>(r: Ring<T>, r': Ring<T>)
    requires Quiescent(r) && r.dataSem > 0
    requires r' == r.(cStep := (r.cStep + 1) % r.cap, dataSem := r.dataSem - 1, spaceSem := r.spaceSem + 1)
    ensures Quiescent(r') && [r.cells[r.cStep]] + Queue(r') == Queue(r)
  {
    ModUnique(r.cStep, 0, r.cStep, r.cap);
    ShiftSlot(r.cStep + 1, r'.dataSem, r.cap);
    forall i | 0 <= i < r'.dataSem
      ensures Queue(r')[i] == Queue(r)[i + 1]
    {
      ShiftSlot(r.cStep + 1, i, r.cap);
    }
  }
}

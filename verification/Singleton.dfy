/**
  `GetInstance`: a double-checked singleton. Any number of callers, one source line per step, in
  any order; memory is sequentially consistent.
*/
module Singleton {
  import opened Tally

  const THREAD_NUM: nat := 5

  // How far the pool object is constructed: threads created by Init, flag and threads started
  // by Start.
  datatype PoolObject = PoolObject(threads: nat, running: bool, started: nat)

  predicate Ready(p: PoolObject)
  {
    p.threads == 5 && p.running && p.started == p.threads
  }

  datatype Pc =
    | Idle
    | TestFirst              // if (_tp == nullptr)
    | Lock                   // LockGuard lockguard(&_sig_mutex)
    | TestSecond             // if (_tp == nullptr)
    | Construct              // new ThreadPool<T>()
    | Assign(p: nat)         // _tp = ...
    | InitLoop               // Init(): emplace the next thread
    | StartFlag              // Start(): _isrunning = true
    | StartLoop              // Start(): start the next thread
    | Unlock                 // end of the guard's scope
    | Return(locked: bool)   // return _tp, having gone through the lock or not

  // What a call returned, and whether the pool's Start had completed by then.
  datatype Result = Result(caller: nat, pool: Option<nat>, locked: bool, ready: bool)

  // What the callers share: the static pointer and mutex, and the pool objects.
  datatype Shared = Shared(tp: Option<nat>, sigMutex: Option<nat>, pools: seq<PoolObject>)

  predicate Unblocked(g: Shared, pc: Pc)
  {
    match pc
    case Idle => false
    case Lock => g.sigMutex.None?
    case _ => true
  }

  // Init and Start dereference the pointer.
  predicate Defined(g: Shared, pc: Pc)
  {
    pc.InitLoop? || pc.StartFlag? || pc.StartLoop? ==> g.tp.Some? && g.tp.value < |g.pools|
  }

  // One line executed by caller t.
  function Line(g: Shared, t: nat, pc: Pc): (Shared, Pc)
    requires Unblocked(g, pc) && Defined(g, pc)
  {
    match pc
    case TestFirst => (g, if g.tp.None? then Lock else Return(false))
    case Lock => (g.(sigMutex := Some(t)), TestSecond)
    case TestSecond => (g, if g.tp.None? then Construct else Unlock)
    case Construct => (g.(pools := g.pools + [PoolObject(0, false, 0)]), Assign(|g.pools|))
    case Assign(p) => (g.(tp := Some(p)), InitLoop)
    case InitLoop =>
      var p := g.pools[g.tp.value];
      if p.threads < THREAD_NUM then (g.(pools := g.pools[g.tp.value := p.(threads := p.threads + 1)]), InitLoop)
      else (g, StartFlag)
    case StartFlag => (g.(pools := g.pools[g.tp.value := g.pools[g.tp.value].(running := true)]), StartLoop)
    case StartLoop =>
      var p := g.pools[g.tp.value];
      if p.started < p.threads then (g.(pools := g.pools[g.tp.value := p.(started := p.started + 1)]), StartLoop)
      else (g, Unlock)
    case Unlock => (g.(sigMutex := None), Return(true))
    case Return(_) => (g, Idle)
  }

  datatype State = State(g: Shared, callers: seq<Pc>, results: seq<Result>)

  datatype Move = Call(t: nat) | Step(t: nat)

  predicate Enabled(s: State, m: Move)
  {
    m.t < |s.callers| &&
    match m
    case Call(t) => s.callers[t].Idle?
    case Step(t) => Unblocked(s.g, s.callers[t]) && Defined(s.g, s.callers[t])
  }

  function Apply(s: State, m: Move): State
    requires Enabled(s, m)
  {
    match m
    case Call(t) => s.(callers := s.callers[t := TestFirst])
    case Step(t) =>
      var pc := s.callers[t];
      var (g, next) := Line(s.g, t, pc);
      s.(g := g, callers := s.callers[t := next],
         results := if pc.Return? then s.results + [Result(t, g.tp, pc.locked,
                      g.tp.Some? && g.tp.value < |g.pools| && Ready(g.pools[g.tp.value]))] else s.results)
  }

  function Init(n: nat): State
  {
    State(Shared(None, None, []), seq(n, _ => Idle), [])
  }

  function Run(s: State, ms: seq<Move>): Option<State>
  {
    if ms == [] then Some(s) else
      var before := Run(s, ms[..|ms| - 1]);
      var m := ms[|ms| - 1];
      if before.Some? && Enabled(before.value, m) then Some(Apply(before.value, m)) else None
  }

  // ---- the invariant ----------------------------------------------------------------------

  predicate InLock(pc: Pc)
  {
    !(pc.Idle? || pc.TestFirst? || pc.Lock? || pc.Return?)
  }

  // A caller that has published the pool and has still a line of Init or Start to go through.
  predicate Building(s: State, pc: Pc)
  {
    pc.InitLoop? || pc.StartFlag? ||
    (pc.StartLoop? && !(|s.g.pools| == 1 && s.g.pools[0].started == s.g.pools[0].threads))
  }

  ghost predicate Knows(s: State, pc: Pc)
  {
    match pc
    case Construct => s.g.tp.None? && s.g.pools == []
    case Assign(p) => s.g.tp.None? && p == 0 && s.g.pools == [PoolObject(0, false, 0)]
    case InitLoop => s.g.tp == Some(0) && |s.g.pools| == 1 && s.g.pools[0].threads <= THREAD_NUM
                     && !s.g.pools[0].running && s.g.pools[0].started == 0
    case StartFlag => s.g.tp == Some(0) && s.g.pools == [PoolObject(THREAD_NUM, false, 0)]
    case StartLoop => s.g.tp == Some(0) && |s.g.pools| == 1 && s.g.pools[0].threads == THREAD_NUM
                      && s.g.pools[0].running && s.g.pools[0].started <= THREAD_NUM
    case Unlock => s.g.tp == Some(0) && |s.g.pools| == 1 && Ready(s.g.pools[0])
    case Return(locked) => s.g.tp == Some(0) && |s.g.pools| == 1 && (locked ==> Ready(s.g.pools[0]))
    case _ => true
  }

  ghost predicate Locks(s: State)
  {
    && (forall t | 0 <= t < |s.callers| :: InLock(s.callers[t]) <==> s.g.sigMutex == Some(t))
    && (s.g.sigMutex.Some? ==> s.g.sigMutex.value < |s.callers|)
  }

  ghost predicate Knowledge(s: State)
  {
    forall t | 0 <= t < |s.callers| :: Knows(s, s.callers[t])
  }

  // Between calls into the lock there is either no pool yet or one completely started.
  ghost predicate AllOrNothing(s: State)
  {
    && |s.g.pools| <= 1
    && (s.g.tp.Some? ==> s.g.tp == Some(0) && |s.g.pools| == 1)
    && (s.g.tp.None? ==> s.g.pools == [] || exists t :: 0 <= t < |s.callers| && s.callers[t].Assign?)
    && (s.g.tp.Some? ==> Ready(s.g.pools[0]) || exists t :: 0 <= t < |s.callers| && Building(s, s.callers[t]))
  }

  ghost predicate Returned(s: State)
  {
    forall r | r in s.results :: r.pool == Some(0) && (r.locked ==> r.ready)
  }

  ghost predicate Inv(s: State)
  {
    Locks(s) && Knowledge(s) && AllOrNothing(s) && Returned(s)
  }

  lemma StepKeepsInv(s: State, m: Move)
    requires Inv(s) && Enabled(s, m)
    ensures Inv(Apply(s, m))
  {
    assert Knows(s, s.callers[m.t]);
    LocksKept(s, m);
    KnowledgeKept(s, m);
    AllOrNothingKept(s, m);
  }

  lemma LocksKept(s: State, m: Move)
    requires Locks(s) && Enabled(s, m)
    ensures Locks(Apply(s, m))
  {
  }

  lemma OwnLineKnows(s: State, m: Move)
    requires Locks(s) && Knowledge(s) && AllOrNothing(s) && Enabled(s, m)
    ensures Knows(Apply(s, m), Apply(s, m).callers[m.t])
  {
    assert Knows(s, s.callers[m.t]);
  }

  lemma OthersKnow(s: State, m: Move, u: nat)
    requires Locks(s) && Knowledge(s) && Enabled(s, m) && u < |s.callers| && u != m.t
    ensures Knows(Apply(s, m), s.callers[u])
  {
    assert Knows(s, s.callers[m.t]) && Knows(s, s.callers[u]);
    assert InLock(s.callers[u]) ==> !InLock(s.callers[m.t]);
  }

  lemma KnowledgeKept(s: State, m: Move)
    requires Locks(s) && Knowledge(s) && AllOrNothing(s) && Enabled(s, m)
    ensures Knowledge(Apply(s, m))
  {
    OwnLineKnows(s, m);
    forall u | 0 <= u < |s.callers| && u != m.t
      ensures Knows(Apply(s, m), Apply(s, m).callers[u])
    {
      OthersKnow(s, m, u);
    }
  }

  lemma AllOrNothingKept(s: State, m: Move)
    requires Locks(s) && Knowledge(s) && AllOrNothing(s) && Enabled(s, m)
    ensures AllOrNothing(Apply(s, m))
  {
    assert Knows(s, s.callers[m.t]);
    var s' := Apply(s, m);
    if t :| 0 <= t < |s.callers| && s.callers[t].Assign? {
      assert Knows(s, s.callers[t]);
      assert s'.callers[t] == s.callers[t] || s'.callers[t].InitLoop?;
    }
    if t :| 0 <= t < |s.callers| && Building(s, s.callers[t]) {
      assert Knows(s, s.callers[t]);
      assert t == m.t || s'.callers[t] == s.callers[t];
    }
    assert Building(s', s'.callers[m.t]) || !Building(s', s'.callers[m.t]);
    assert s'.callers[m.t].Assign? || !s'.callers[m.t].Assign?;
  }

  lemma InitInv(n: nat)
    ensures Inv(Init(n))
  {
  }

  lemma {:induction false} RunKeepsInv(s: State, ms: seq<Move>)
    requires Inv(s) && Run(s, ms).Some?
    ensures Inv(Run(s, ms).value) && |Run(s, ms).value.callers| == |s.callers|
  {
    if ms != [] {
      RunKeepsInv(s, ms[..|ms| - 1]);
      StepKeepsInv(Run(s, ms[..|ms| - 1]).value, ms[|ms| - 1]);
    }
  }

  // Every state any interleaving of n callers reaches satisfies the invariant.
  lemma RunInv(n: nat, ms: seq<Move>)
    requires Run(Init(n), ms).Some?
    ensures Inv(Run(Init(n), ms).value)
  {
    InitInv(n);
    RunKeepsInv(Init(n), ms);
  }

  // ---- what callers get -----------------------------------------------------------------------

  // Whatever the interleaving, at most one pool is ever constructed, every call that returned got
  // that one, and it was completely started if the call had gone through the lock.
  lemma OnePoolForAll(n: nat, ms: seq<Move>)
    requires Run(Init(n), ms).Some?
    ensures var s := Run(Init(n), ms).value;
            && |s.g.pools| <= 1
            && forall r | r in s.results :: r.pool == Some(0) && |s.g.pools| == 1 && (r.locked ==> r.ready)
  {
    RunInv(n, ms);
    ResultsNeedAPool(n, ms);
  }

  lemma {:induction false} ResultsNeedAPool(n: nat, ms: seq<Move>)
    requires Run(Init(n), ms).Some?
    ensures var s := Run(Init(n), ms).value;
            s.results != [] ==> |s.g.pools| == 1
  {
    if ms != [] {
      var before, m := Run(Init(n), ms[..|ms| - 1]).value, ms[|ms| - 1];
      ResultsNeedAPool(n, ms[..|ms| - 1]);
      RunInv(n, ms[..|ms| - 1]);
      assert Knows(before, before.callers[m.t]);
    }
  }

  function Calls(ms: seq<Move>): nat
  {
    if ms == [] then 0 else Calls(ms[..|ms| - 1]) + if ms[|ms| - 1].Call? then 1 else 0
  }

  function Calling(pc: Pc): nat { if pc.Idle? then 0 else 1 }

  // Each call has returned or is in progress.
  lemma {:induction false} EveryCallReturns(n: nat, ms: seq<Move>)
    requires Run(Init(n), ms).Some?
    ensures var s := Run(Init(n), ms).value; |s.results| + Total(s.callers, Calling) == Calls(ms)
  {
    if ms == [] {
      TotalZero(Init(n).callers, Calling);
    } else {
      var before, m := Run(Init(n), ms[..|ms| - 1]).value, ms[|ms| - 1];
      EveryCallReturns(n, ms[..|ms| - 1]);
      TotalUpdate(before.callers, m.t, Apply(before, m).callers[m.t], Calling);
    }
  }

  // And as long as one is in progress, it or the caller inside the lock can take its next line.
  lemma NeverStuck(s: State, t: nat)
    requires Inv(s) && t < |s.callers| && !s.callers[t].Idle?
    ensures Enabled(s, Step(t)) || (s.g.sigMutex.Some? && Enabled(s, Step(s.g.sigMutex.value)))
  {
    assert Knows(s, s.callers[t]);
    if s.g.sigMutex.Some? {
      assert Knows(s, s.callers[s.g.sigMutex.value]);
    }
  }

  // In every run, a pool the fast path finds is completely started exactly when no caller inside
  // the lock has still a line of Init or Start to go through.
  lemma PublishedPoolReadyExactlyWhen(n: nat, ms: seq<Move>)
    requires Run(Init(n), ms).Some? && Run(Init(n), ms).value.g.tp.Some?
    ensures var s := Run(Init(n), ms).value;
            && s.g.tp == Some(0) && |s.g.pools| == 1
            && (Ready(s.g.pools[0]) <==> forall pc | pc in s.callers :: !Building(s, pc))
  {
    var s := Run(Init(n), ms).value;
    RunInv(n, ms);
    forall t | 0 <= t < |s.callers| && Building(s, s.callers[t])
      ensures !Ready(s.g.pools[0])
    {
      assert Knows(s, s.callers[t]);
    }
  }

  // ---- who may get an unstarted pool ------------------------------------------------------------

  ghost predicate PoolReady(s: State)
  {
    s.g.tp == Some(0) && |s.g.pools| == 1 && Ready(s.g.pools[0])
  }

  ghost predicate AllReady(results: seq<Result>)
  {
    forall r | r in results :: r.ready
  }

  // One move only adds to the results, a started pool stays started, and whoever returns then, or
  // has nobody beside him, returns a started pool.
  lemma MoveReturns(s: State, m: Move)
    requires Inv(s) && Enabled(s, m)
    ensures var s' := Apply(s, m);
            && s.results <= s'.results
            && (PoolReady(s) ==> PoolReady(s'))
            && (PoolReady(s) || |s.callers| == 1 ==> AllReady(s'.results[|s.results|..]))
  {
    assert Knows(s, s.callers[m.t]);
  }

  // From a started pool on, or with a single caller, every result is ready.
  lemma {:induction false} LaterResultsReady(s: State, ms: seq<Move>)
    requires Inv(s) && Run(s, ms).Some? && (PoolReady(s) || |s.callers| == 1)
    ensures var s' := Run(s, ms).value;
            && s.results <= s'.results && AllReady(s'.results[|s.results|..])
            && (PoolReady(s) ==> PoolReady(s'))
  {
    if ms != [] {
      var before, m := Run(s, ms[..|ms| - 1]).value, ms[|ms| - 1];
      LaterResultsReady(s, ms[..|ms| - 1]);
      RunKeepsInv(s, ms[..|ms| - 1]);
      MoveReturns(before, m);
      var results := Apply(before, m).results;
      assert results[|s.results|..] == before.results[|s.results|..] + results[|before.results|..];
    }
  }

  // Once some call that went through the lock has returned, the pool is started, and whatever
  // returns afterwards, to anyone, is a started pool.
  lemma {:induction false} ReadyAfterLockedReturn(n: nat, ms: seq<Move>, i: nat)
    requires Run(Init(n), ms).Some? && i < |Run(Init(n), ms).value.results|
    requires Run(Init(n), ms).value.results[i].locked
    ensures var s := Run(Init(n), ms).value;
            PoolReady(s) && AllReady(s.results[i..])
  {
    var before, m := Run(Init(n), ms[..|ms| - 1]).value, ms[|ms| - 1];
    var after := Apply(before, m);
    RunInv(n, ms[..|ms| - 1]);
    MoveReturns(before, m);
    if i < |before.results| {
      ReadyAfterLockedReturn(n, ms[..|ms| - 1], i);
      assert after.results[i..] == before.results[i..] + after.results[|before.results|..];
    } else {
      assert Knows(before, before.callers[m.t]);
    }
  }

  // The moves ms, made from s, give caller u a pool that is not started.
  ghost predicate GetsUnstarted(s: State, u: nat, ms: seq<Move>)
  {
    && Run(s, ms).Some?
    && s.results <= Run(s, ms).value.results
    && exists r :: r in Run(s, ms).value.results[|s.results|..] && r.caller == u && !r.locked && !r.ready
  }

  // Lines a caller has yet to execute until it publishes a new pool.
  function ToPublish(pc: Pc): nat
  {
    match pc
    case Idle => 6
    case TestFirst => 5
    case Lock => 4
    case TestSecond => 3
    case Construct => 2
    case Assign(_) => 1
    case _ => 0
  }

  // With no pool yet, a caller that holds the lock, or finds it free, can go on alone until it has
  // published one without threads.
  lemma {:induction false} Publish(s0: State, ms: seq<Move>, t: nat) returns (ms': seq<Move>, s': State)
    requires Run(s0, ms).Some? && Inv(Run(s0, ms).value)
    requires var s := Run(s0, ms).value;
             s.g.tp.None? && t < |s.callers| && (s.g.sigMutex.None? || s.g.sigMutex == Some(t))
    ensures Run(s0, ms') == Some(s') && Inv(s')
    ensures s'.g.tp.Some? && !PoolReady(s')
    ensures s'.results == Run(s0, ms).value.results && |s'.callers| == |Run(s0, ms).value.callers|
    ensures forall u | 0 <= u < |s'.callers| && u != t :: s'.callers[u] == Run(s0, ms).value.callers[u]
    decreases ToPublish(Run(s0, ms).value.callers[t])
  {
    var s := Run(s0, ms).value;
    assert Knows(s, s.callers[t]);
    var m := if s.callers[t].Idle? then Call(t) else Step(t);
    StepKeepsInv(s, m);
    ms', s' := Extend(s0, ms, s, m);
    if s'.g.tp.None? {
      ms', s' := Publish(s0, ms', t);
    } else {
      assert Knows(s', s'.callers[t]);
    }
  }

  // A published pool that is not started is what the fast path returns.
  lemma FastPath(s0: State, ms: seq<Move>, s: State, u: nat) returns (ms': seq<Move>)
    requires Run(s0, ms) == Some(s) && Inv(s) && s.results == s0.results
    requires s.g.tp.Some? && !PoolReady(s) && u < |s.callers| && s.callers[u].Idle?
    ensures GetsUnstarted(s0, u, ms')
  {
    var s';
    ms', s' := Extend(s0, ms, s, Call(u));
    ms', s' := Extend(s0, ms', s', Step(u));
    ms', s' := Extend(s0, ms', s', Step(u));
    var r := Result(u, Some(0), false, false);
    assert s'.results == s0.results + [r];
    assert r in s'.results[|s0.results|..];
  }

  lemma UnstartedRun(s: State, u: nat) returns (ms: seq<Move>)
    requires Inv(s) && u < |s.callers| && s.callers[u].Idle? && |s.callers| >= 2 && !PoolReady(s)
    ensures GetsUnstarted(s, u, ms)
  {
    var s';
    ms, s' := [], s;
    if s.g.tp.None? {
      var other := if u == 0 then 1 else 0;
      ms, s' := Publish(s, [], if s.g.sigMutex.Some? then s.g.sigMutex.value else other);
    }
    ms := FastPath(s, ms, s', u);
  }

  // From every reachable state: a call that is about to begin can return a pool whose threads have
  // not all been started if and only if there is a second caller and no started pool yet.
  lemma NextCallUnstartedExactlyWhen(s: State, u: nat)
    requires Inv(s) && u < |s.callers| && s.callers[u].Idle?
    ensures (exists ms :: GetsUnstarted(s, u, ms)) <==> |s.callers| >= 2 && !PoolReady(s)
  {
    if |s.callers| >= 2 && !PoolReady(s) {
      var ms := UnstartedRun(s, u);
    } else {
      forall ms | Run(s, ms).Some?
        ensures !GetsUnstarted(s, u, ms)
      {
        LaterResultsReady(s, ms);
      }
    }
  }

  // With two callers or more the fast path of caller 1 may return a pool without threads, in the
  // first call it makes.
  lemma FastPathMayReturnUnstarted(n: nat) returns (ms: seq<Move>)
    requires n >= 2
    ensures Run(Init(n), ms).Some?
    ensures exists r :: r in Run(Init(n), ms).value.results && r.caller == 1 && !r.locked && !r.ready
  {
    InitInv(n);
    ms := UnstartedRun(Init(n), 1);
  }

  // Every call of every run returns a started pool if and only if there is at most one caller.
  lemma EveryResultReadyExactlyWhen(n: nat)
    ensures (forall ms | Run(Init(n), ms).Some? :: AllReady(Run(Init(n), ms).value.results)) <==> n <= 1
  {
    InitInv(n);
    if n >= 2 {
      var ms := FastPathMayReturnUnstarted(n);
    } else {
      forall ms | Run(Init(n), ms).Some?
        ensures AllReady(Run(Init(n), ms).value.results)
      {
        if n == 1 {
          LaterResultsReady(Init(n), ms);
        } else {
          NobodyReturns(ms);
        }
      }
    }
  }

  lemma {:induction false} NobodyReturns(ms: seq<Move>)
    requires Run(Init(0), ms).Some?
    ensures ms == []
  {
    if ms != [] {
      NobodyReturns(ms[..|ms| - 1]);
    }
  }

  lemma Extend(s0: State, ms: seq<Move>, s: State, m: Move) returns (ms': seq<Move>, s': State)
    requires Run(s0, ms) == Some(s) && Enabled(s, m)
    ensures ms' == ms + [m] && s' == Apply(s, m) && Run(s0, ms') == Some(s')
  {
    ms', s' := ms + [m], Apply(s, m);
    assert ms'[..|ms'| - 1] == ms;
  }

  // The static fields, updated in place: `CallerStep` is the machine's step, and `GetInstance`,
  // made of such steps, the whole function when no other caller is inside.
  class Registry {
    var tp: Option<nat>
    var sigMutex: Option<nat>
    var pools: seq<PoolObject>

    constructor ()
      ensures tp.None? && sigMutex.None? && pools == []
    {
      tp, sigMutex, pools := None, None, [];
    }

    ghost function Value(): Shared
      reads this
    {
      Shared(tp, sigMutex, pools)
    }

    // One line of GetInstance, Init or Start by caller t.
    method CallerStep(t: nat, pc: Pc) returns (next: Pc)
      requires Unblocked(Value(), pc) && Defined(Value(), pc)
      modifies this
      ensures (Value(), next) == Line(old(Value()), t, pc)
    {
      match pc
      case TestFirst => next := if tp == None then Lock else Return(false);
      case Lock => sigMutex := Some(t); next := TestSecond;
      case TestSecond => next := if tp == None then Construct else Unlock;
      case Construct => next := Assign(|pools|); pools := pools + [PoolObject(0, false, 0)];
      case Assign(p) => tp := Some(p); next := InitLoop;
      case InitLoop =>
        if pools[tp.value].threads < THREAD_NUM {
          pools := pools[tp.value := pools[tp.value].(threads := pools[tp.value].threads + 1)];
          next := InitLoop;
        } else {
          next := StartFlag;
        }
      case StartFlag => pools := pools[tp.value := pools[tp.value].(running := true)]; next := StartLoop;
      case StartLoop =>
        if pools[tp.value].started < pools[tp.value].threads {
          pools := pools[tp.value := pools[tp.value].(started := pools[tp.value].started + 1)];
          next := StartLoop;
        } else {
          next := Unlock;
        }
      case Unlock => sigMutex := None; next := Return(true);
      case Return(_) => next := Idle;
    }

    // The first call constructs a pool with all its threads started; later ones return it.
    method GetInstance(t: nat) returns (p: Option<nat>)
      requires sigMutex.None? && (tp.Some? ==> tp.value < |pools|)
      modifies this
      ensures p == tp && tp.Some? && sigMutex.None?
      ensures old(tp).Some? ==> tp == old(tp) && pools == old(pools)
      ensures old(tp).None? ==> tp == Some(|old(pools)|)
      ensures old(tp).None? ==> pools == old(pools) + [PoolObject(5, true, 5)]
    {
      var pc := CallerStep(t, TestFirst);
      if pc.Lock? {
        pc := CallerStep(t, pc);
        pc := CallerStep(t, pc);
        if pc.Construct? {
          pc := CallerStep(t, pc);
          pc := CallerStep(t, pc);
          pc := InitPool(t);
          pc := StartPool(t);
        }
        pc := CallerStep(t, pc);
      }
      p := tp;
      pc := CallerStep(t, pc);
    }

    // Init on the published pool: creates its threads, starts none.
    method InitPool(t: nat) returns (next: Pc)
      requires tp.Some? && tp.value < |pools| && pools[tp.value] == PoolObject(0, false, 0)
      modifies this
      ensures tp == old(tp) && sigMutex == old(sigMutex) && next == StartFlag
      ensures pools == old(pools)[tp.value := PoolObject(5, false, 0)]
    {
      next := InitLoop;
      while next.InitLoop?
        invariant tp == old(tp) && sigMutex == old(sigMutex) && |pools| == |old(pools)|
        invariant pools[tp.value].threads <= THREAD_NUM
        invariant pools == old(pools)[tp.value := PoolObject(pools[tp.value].threads, false, 0)]
        invariant next.InitLoop? || (next.StartFlag? && pools[tp.value].threads == THREAD_NUM)
        decreases next.InitLoop?, THREAD_NUM - pools[tp.value].threads
      {
        next := CallerStep(t, next);
      }
    }

    // Start: sets the flag and starts every thread there is.
    method StartPool(t: nat) returns (next: Pc)
      requires tp.Some? && tp.value < |pools| && pools[tp.value].started == 0
      modifies this
      ensures tp == old(tp) && sigMutex == old(sigMutex) && next == Unlock
      ensures var threads := old(pools[tp.value].threads);
              pools == old(pools)[tp.value := PoolObject(threads, true, threads)]
    {
      ghost var threads := pools[tp.value].threads;
      next := CallerStep(t, StartFlag);
      while next.StartLoop?
        invariant tp == old(tp) && sigMutex == old(sigMutex) && |pools| == |old(pools)|
        invariant pools[tp.value].started <= threads
        invariant pools == old(pools)[tp.value := PoolObject(threads, true, pools[tp.value].started)]
        invariant next.StartLoop? || (next.Unlock? && pools[tp.value].started == threads)
        decreases next.StartLoop?, threads - pools[tp.value].started
      {
        next := CallerStep(t, next);
      }
    }
  }
}

/**
  The thread pool as its callers see it: what becomes of the tasks given to Equeue and of the calls
  of Stop, told from the moves of a run alone.
*/
module PoolCalls {
  import opened Tally
  import opened PoolMachine
  import opened PoolProofs
  import opened PoolTheorems

  // The tasks Equeue was called with.
  function Called<T>(ms: seq<Move<T>>): multiset<T>
  {
    if ms == [] then multiset{} else Called(ms[..|ms| - 1]) + Given(ms[|ms| - 1])
  }

  function Given<T>(m: Move<T>): multiset<T>
  {
    if m.CallEqueue? then multiset{m.x} else multiset{}
  }

  predicate StopCalled<T>(ms: seq<Move<T>>)
  {
    ms != [] && (StopCalled(ms[..|ms| - 1]) || ms[|ms| - 1].CallStop?)
  }

  // The tasks whose test of the flag found it clear.
  function Refused<T>(s: State<T>, ms: seq<Move<T>>): multiset<T>
    requires Run(s, ms).Some?
  {
    if ms == [] then multiset{} else
      Refused(s, ms[..|ms| - 1]) + RefusedBy(Run(s, ms[..|ms| - 1]).value, ms[|ms| - 1])
  }

  function RefusedBy<T>(s: State<T>, m: Move<T>): multiset<T>
    requires Enabled(s, m)
  {
    if m.ClientStep? && s.clients[m.c].ETest? && !s.pool.running then multiset{s.clients[m.c].x} else multiset{}
  }

  // The task a call of Equeue has yet to put into the queue.
  function Carried<T>(pc: CPc<T>): Option<T>
  {
    match pc
    case ELock(x) => Some(x)
    case ETest(x) => Some(x)
    case EPush(x) => Some(x)
    case _ => None
  }

  // ---- every task called is accepted, refused or on its way ------------------------------------------

  lemma ClientLineCarries<T>(p: Pool<T>, c: nat, pc: CPc<T>)
    requires ClientUnblocked(p, pc)
    ensures var pc' := ClientLine(p, c, pc).1;
            if pc.EPush? || (pc.ETest? && !p.running) then Carried(pc) == Some(pc.x) && Carried(pc') == None
            else Carried(pc') == Carried(pc)
  {
  }

  // called and carried grow together; what stops being carried is accepted or refused.
  lemma Moved<T>(called: multiset<T>, accepted: multiset<T>, refused: multiset<T>,
                 carried: multiset<T>, carried': multiset<T>, x: T)
    requires called == accepted + refused + carried
    ensures carried' == carried + multiset{x} ==> called + multiset{x} == accepted + refused + carried'
    ensures carried' + multiset{x} == carried ==> called == (accepted + multiset{x}) + refused + carried'
    ensures carried' + multiset{x} == carried ==> called == accepted + (refused + multiset{x}) + carried'
  {
  }

  ghost predicate Accounted<T>(s: State<T>, called: multiset<T>, refused: multiset<T>)
  {
    called == multiset(s.accepted) + refused + Bag(s.clients, Carried)
  }

  lemma CallAccounted<T>(s: State<T>, m: Move<T>, called: multiset<T>, refused: multiset<T>)
    requires IsCall(m) && Enabled(s, m) && Accounted(s, called, refused)
    ensures Accounted(Apply(s, m), called + Given(m), refused)
  {
    var s' := Apply(s, m);
    if m.CallEqueue? {
      BagGain(s.clients, m.c, s'.clients[m.c], Carried);
      Moved(called, multiset(s.accepted), refused, Bag(s.clients, Carried), Bag(s'.clients, Carried), m.x);
    } else {
      BagSame(s.clients, m.c, s'.clients[m.c], Carried);
    }
  }

  lemma LineAccounted<T>(s: State<T>, m: Move<T>, called: multiset<T>, refused: multiset<T>)
    requires m.ClientStep? && Enabled(s, m) && Accounted(s, called, refused)
    ensures Accounted(Apply(s, m), called, refused + RefusedBy(s, m))
  {
    var s', pc := Apply(s, m), s.clients[m.c];
    ClientLineCarries(s.pool, m.c, pc);
    if pc.EPush? || (pc.ETest? && !s.pool.running) {
      BagLose(s.clients, m.c, s'.clients[m.c], Carried);
      Moved(called, multiset(s.accepted), refused, Bag(s.clients, Carried), Bag(s'.clients, Carried), pc.x);
      assert multiset(s.accepted + [pc.x]) == multiset(s.accepted) + multiset{pc.x};
    } else {
      BagSame(s.clients, m.c, s'.clients[m.c], Carried);
    }
  }

  lemma AccountedKept<T>(s: State<T>, m: Move<T>, called: multiset<T>, refused: multiset<T>)
    requires Enabled(s, m) && Accounted(s, called, refused)
    ensures Accounted(Apply(s, m), called + Given(m), refused + RefusedBy(s, m))
  {
    if IsCall(m) {
      CallAccounted(s, m, called, refused);
      assert refused + multiset{} == refused;
    } else if m.ClientStep? {
      LineAccounted(s, m, called, refused);
      assert called + multiset{} == called;
    } else {
      assert called + multiset{} == called && refused + multiset{} == refused;
    }
  }

  lemma InitAccounted<T>(n: nat, k: nat)
    ensures Accounted(Init<T>(n, k), multiset{}, multiset{})
  {
    BagEmpty(Init<T>(n, k).clients, Carried);
  }

  // In every run the tasks given to Equeue are those accepted, those refused and those of calls
  // that have not come to the queue yet, with multiplicity. Only a cleared flag refuses a task.
  lemma {:induction false} EveryCallAccounted<T>(n: nat, k: nat, ms: seq<Move<T>>)
    requires Run(Init<T>(n, k), ms).Some?
    ensures Accounted(Run(Init<T>(n, k), ms).value, Called(ms), Refused(Init<T>(n, k), ms))
  {
    if ms == [] {
      InitAccounted<T>(n, k);
    } else {
      var s0, pre, m := Init<T>(n, k), ms[..|ms| - 1], ms[|ms| - 1];
      EveryCallAccounted(n, k, pre);
      AccountedKept(Run(s0, pre).value, m, Called(pre), Refused(s0, pre));
    }
  }

  lemma {:induction false} NobodyJoins<T>(n: nat, k: nat, ms: seq<Move<T>>)
    requires Run(Init<T>(n, k), ms).Some?
    ensures |Run(Init<T>(n, k), ms).value.workers| == n && |Run(Init<T>(n, k), ms).value.clients| == k
  {
    if ms != [] {
      NobodyJoins(n, k, ms[..|ms| - 1]);
    }
  }

  // ---- the flag follows the calls of Stop ---------------------------------------------------------

  predicate InStop<T>(pc: CPc<T>) { pc.SLock? || pc.SClear? || pc.SBroadcast? || pc.SUnlock? }

  // A call of Stop that has yet to clear the flag.
  predicate AboutToClear<T>(pc: CPc<T>) { pc.SLock? || pc.SClear? }

  ghost predicate FlagIs<T>(s: State<T>, stopped: bool)
  {
    if stopped then s.pool.running ==> exists c :: 0 <= c < |s.clients| && AboutToClear(s.clients[c])
    else s.pool.running && forall c | 0 <= c < |s.clients| :: !InStop(s.clients[c])
  }

  lemma FlagKept<T>(s: State<T>, m: Move<T>, stopped: bool)
    requires Enabled(s, m) && FlagIs(s, stopped)
    ensures FlagIs(Apply(s, m), stopped || m.CallStop?)
  {
    var s' := Apply(s, m);
    if m.CallStop? {
      assert AboutToClear(s'.clients[m.c]);
    } else if stopped && s.pool.running {
      var c :| 0 <= c < |s.clients| && AboutToClear(s.clients[c]);
      assert !s'.pool.running || AboutToClear(s'.clients[c]);
    }
  }

  // In every run the flag is set as long as Stop has not been called; afterwards it is clear or a
  // call is about to clear it.
  lemma {:induction false} FlagFollowsCalls<T>(n: nat, k: nat, ms: seq<Move<T>>)
    requires Run(Init<T>(n, k), ms).Some?
    ensures FlagIs(Run(Init<T>(n, k), ms).value, StopCalled(ms))
  {
    if ms != [] {
      FlagFollowsCalls(n, k, ms[..|ms| - 1]);
      FlagKept(Run(Init<T>(n, k), ms[..|ms| - 1]).value, ms[|ms| - 1], StopCalled(ms[..|ms| - 1]));
    }
  }

  lemma {:induction false} NoneRefused<T>(n: nat, k: nat, ms: seq<Move<T>>)
    requires Run(Init<T>(n, k), ms).Some? && !StopCalled(ms)
    ensures Refused(Init<T>(n, k), ms) == multiset{}
  {
    if ms != [] {
      NoneRefused(n, k, ms[..|ms| - 1]);
      FlagFollowsCalls(n, k, ms[..|ms| - 1]);
    }
  }

  // ---- at rest -----------------------------------------------------------------------------------

  ghost predicate Rests<T(!new)>(s: State<T>)
  {
    forall m | Enabled(s, m) :: IsCall(m) || m.SpuriousWakeup?
  }

  // A run that has come to rest has executed every task given to Equeue exactly once, but for
  // those refused after Stop; without a call of Stop it has executed them all. Its workers are
  // asleep if Stop has not been called and gone if it has.
  lemma EveryCallAnsweredAtRest<T(!new)>(n: nat, k: nat, ms: seq<Move<T>>)
    requires n > 0 && Run(Init<T>(n, k), ms).Some? && Rests(Run(Init<T>(n, k), ms).value)
    ensures var s := Run(Init<T>(n, k), ms).value;
            && Called(ms) == s.executed + Refused(Init<T>(n, k), ms)
            && (!StopCalled(ms) ==> Called(ms) == s.executed)
            && |s.workers| == n
            && forall i | 0 <= i < n :: if StopCalled(ms) then s.workers[i].WQuit? else s.workers[i].WBlocked?
  {
    var s := Run(Init<T>(n, k), ms).value;
    InitInv<T>(n, k);
    RunKeepsInv(Init<T>(n, k), ms);
    NobodyJoins(n, k, ms);
    EveryCallAccounted(n, k, ms);
    FlagFollowsCalls(n, k, ms);
    AtRest(s);
    RestsOnlyWhenDone(s);
    BagEmpty(s.clients, Carried);
    if !StopCalled(ms) {
      NoneRefused(n, k, ms);
    }
  }

  // ---- every program of calls can be carried out ------------------------------------------------------

  lemma Extend<T>(s0: State<T>, ms: seq<Move<T>>, s: State<T>, m: Move<T>) returns (ms': seq<Move<T>>, s': State<T>)
    requires Run(s0, ms) == Some(s) && Enabled(s, m) && Inv(s)
    ensures s' == Apply(s, m) && Run(s0, ms') == Some(s') && Inv(s') && s.executed <= s'.executed
    ensures Called(ms') == Called(ms) + Given(m) && (StopCalled(ms') <==> StopCalled(ms) || m.CallStop?)
  {
    ms', s' := ms + [m], Apply(s, m);
    assert ms'[..|ms'| - 1] == ms;
    StepKeepsInv(s, m);
  }

  // Whatever has happened so far, without any further call the pool can come to rest.
  lemma {:induction false} ReachRest<T(!new)>(s0: State<T>, ms: seq<Move<T>>, s: State<T>)
    returns (ms': seq<Move<T>>, s': State<T>)
    requires Run(s0, ms) == Some(s) && Inv(s)
    ensures Run(s0, ms') == Some(s') && Inv(s') && Rests(s') && s.executed <= s'.executed
    ensures Called(ms') == Called(ms) && (StopCalled(ms') <==> StopCalled(ms))
    decreases WorkLeft(s)
  {
    if m :| Enabled(s, m) && !IsCall(m) && !m.SpuriousWakeup? {
      MoveWorks(s, m);
      ms', s' := Extend(s0, ms, s, m);
      ms', s' := ReachRest(s0, ms', s');
    } else {
      ms', s' := ms, s;
    }
  }

  // At rest a call can be made, and the pool come to rest again.
  lemma CallAndRest<T(!new)>(n: nat, k: nat, ms: seq<Move<T>>, s: State<T>, m: Move<T>)
    returns (ms': seq<Move<T>>, s': State<T>)
    requires k > 0 && Run(Init<T>(n, k), ms) == Some(s) && Inv(s) && Rests(s)
    requires IsCall(m) && m.c == 0
    ensures Run(Init<T>(n, k), ms') == Some(s') && Inv(s') && Rests(s') && s.executed <= s'.executed
    ensures Called(ms') == Called(ms) + Given(m) && (StopCalled(ms') <==> StopCalled(ms) || m.CallStop?)
  {
    NobodyJoins(n, k, ms);
    AtRest(s);
    ms', s' := Extend(Init<T>(n, k), ms, s, m);
    ms', s' := ReachRest(Init<T>(n, k), ms', s');
  }

  lemma LastOne<T>(tasks: seq<T>)
    requires tasks != []
    ensures multiset(tasks) == multiset(tasks[..|tasks| - 1]) + multiset{tasks[|tasks| - 1]}
  {
    assert tasks == tasks[..|tasks| - 1] + [tasks[|tasks| - 1]];
  }

  lemma RestAtFirst<T(!new)>(n: nat, k: nat) returns (ms: seq<Move<T>>, s: State<T>)
    ensures Run(Init<T>(n, k), ms) == Some(s) && Inv(s) && Rests(s)
    ensures Called(ms) == multiset{} && !StopCalled(ms)
  {
    var s0 := Init<T>(n, k);
    InitInv<T>(n, k);
    ms, s := ReachRest(s0, [], s0);
  }

  // For any tasks there is a run in which Equeue is called with each of them and which comes to
  // rest.
  lemma {:induction false} TasksGetQueued<T(!new)>(n: nat, k: nat, tasks: seq<T>) returns (ms: seq<Move<T>>, s: State<T>)
    requires k > 0
    ensures Run(Init<T>(n, k), ms) == Some(s) && Inv(s) && Rests(s)
    ensures Called(ms) == multiset(tasks) && !StopCalled(ms)
  {
    if tasks == [] {
      ms, s := RestAtFirst(n, k);
    } else {
      var pre, x := tasks[..|tasks| - 1], tasks[|tasks| - 1];
      ms, s := TasksGetQueued(n, k, pre);
      ms, s := CallAndRest(n, k, ms, s, CallEqueue(0, x));
      LastOne(tasks);
    }
  }

  // Such a run ends with all of them executed and the workers asleep, and going on with a call of
  // Stop it ends with all workers gone.
  lemma TasksGetExecuted<T(!new)>(n: nat, k: nat, tasks: seq<T>)
    returns (ms: seq<Move<T>>, s: State<T>, ms': seq<Move<T>>, s': State<T>)
    requires n > 0 && k > 0
    ensures Run(Init<T>(n, k), ms) == Some(s) && !StopCalled(ms) && Called(ms) == multiset(tasks)
    ensures s.executed == multiset(tasks) && |s.workers| == n && forall i | 0 <= i < n :: s.workers[i].WBlocked?
    ensures Run(Init<T>(n, k), ms') == Some(s') && StopCalled(ms') && Called(ms') == multiset(tasks)
    ensures s'.executed == multiset(tasks) && |s'.workers| == n && forall i | 0 <= i < n :: s'.workers[i].WQuit?
  {
    ms, s := TasksGetQueued(n, k, tasks);
    EveryCallAnsweredAtRest(n, k, ms);
    ms', s' := CallAndRest(n, k, ms, s, CallStop(0));
    EveryCallAnsweredAtRest(n, k, ms');
    assert s'.executed <= Called(ms');
  }
}

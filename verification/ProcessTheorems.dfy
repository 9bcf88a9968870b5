/**
  Whole-run properties of the process pool: who owns which pipe end, that dispatching and cleaning
  up never deadlock and always finish, what each child has executed at the end, and that commands
  go round the channels in turn.
*/
module ProcessTheorems {
  import opened Tally
  import opened Modular
  import opened ProcessMachine
  import opened ProcessProofs

  // ---- ownership -------------------------------------------------------------------------------

  predicate SettingUp(c: Child) { c.pc.CloseInherited? || c.pc.CloseOwn? }

  // A child holds a write end only while it is closing what fork gave it, and then only of its
  // own or an earlier pipe; the only read end it ever holds is its own.
  lemma ChildHolds(s: State, k: nat, p: nat)
    requires Inv(s) && k < |s.children|
    ensures W(p) in s.children[k].table.Values ==> SettingUp(s.children[k]) && p <= k
    ensures R(p) in s.children[k].table.Values ==> p == k
  {
    assert ChildOwns(s.children[k], k);
  }

  // After any number of iterations of the creation loop, once every child forked so far has closed
  // its inheritance: the write end of pipe p is open in the parent alone, until it closes channel
  // p, and its read end in child p alone.
  lemma PipeOwnership(s: State, p: nat)
    requires Inv(s) && p < |s.channels|
    requires forall k | 0 <= k < |s.children| :: !SettingUp(s.children[k])
    ensures W(p) in s.parent.Values <==> Closed(s) <= p
    ensures R(p) !in s.parent.Values
    ensures forall k | 0 <= k < |s.children| :: W(p) !in s.children[k].table.Values
    ensures forall k | 0 <= k < |s.children| :: R(p) in s.children[k].table.Values ==> k == p
    ensures s.children[p].pc.Read? || s.children[p].pc.Execute? ==> ReadsFrom(s.children[p].table, p)
  {
    assert ChildOwns(s.children[p], p);
    if Closed(s) <= p {
      assert WritesTo(s.parent, s.channels[p].wfd, p);
    }
    forall k | 0 <= k < |s.children|
      ensures W(p) !in s.children[k].table.Values && (R(p) in s.children[k].table.Values ==> k == p)
    {
      ChildHolds(s, k, p);
    }
  }

  // ---- no deadlock -----------------------------------------------------------------------------

  lemma {:induction false} FreeDescriptor(used: set<nat>) returns (fd: nat)
    ensures fd !in used && forall x | x in used :: x < fd
  {
    if used == {} {
      fd := 0;
    } else {
      var x := Pick(used);
      var rest := FreeDescriptor(used - {x});
      fd := if rest <= x then x + 1 else rest;
      forall y | y in used
        ensures y < fd
      {
        assert y == x || y in used - {x};
      }
    }
  }

  // A child that has not exited is held up only by an empty pipe that someone can still write to.
  lemma ChildCanStep(s: State, k: nat)
    requires Inv(s) && k < |s.children| && !s.children[k].pc.Exited?
    requires s.children[k].pc.Read? ==> s.buffers[k] != [] || !HasWriter(s, k)
    ensures ChildEnabled(s, k)
  {
    assert ChildOwns(s.children[k], k);
  }

  // While the parent waits for child j, child j can go on, or a later child is still closing the
  // write end it inherited: closing the channels in index order cannot block for good.
  lemma AwaitProgress(s: State)
    requires Inv(s) && s.pc.Await? && !s.children[s.pc.j].pc.Exited?
    ensures exists k :: 0 <= k < |s.children| && ChildEnabled(s, k)
  {
    var j := s.pc.j;
    if s.children[j].pc.Read? && s.buffers[j] == [] && HasWriter(s, j) {
      assert W(j) !in s.parent.Values;
      var k :| 0 <= k < |s.children| && W(j) in s.children[k].table.Values;
      ChildHolds(s, k, j);
      ChildCanStep(s, k);
    } else {
      ChildCanStep(s, j);
    }
  }

  // A full pipe has a child that can read it.
  lemma SendProgress(s: State)
    requires Inv(s) && s.pc.Send? && !ParentEnabled(s, 0, 0)
    ensures ChildEnabled(s, s.pc.ch)
  {
    var ch := s.pc.ch;
    assert WritesTo(s.parent, s.channels[ch].wfd, ch);
    assert Delivered(s.children[ch], s.buffers[ch], s.sent[ch], ch < Closed(s));
    ChildCanStep(s, ch);
  }

  // Until the parent is done, someone can always take the next step.
  lemma NeverStuck(s: State)
    requires Inv(s) && !s.pc.Done?
    ensures exists m :: Enabled(s, m)
  {
    if s.pc.Await? && !s.children[s.pc.j].pc.Exited? {
      AwaitProgress(s);
      var k :| 0 <= k < |s.children| && ChildEnabled(s, k);
      assert Enabled(s, ChildStep(k));
    } else if s.pc.Send? && !ParentEnabled(s, 0, 0) {
      SendProgress(s);
      assert Enabled(s, ChildStep(s.pc.ch));
    } else if s.pc.Pipe? {
      var r := FreeDescriptor(s.parent.Keys);
      assert r + 1 !in s.parent;
      assert Enabled(s, ParentStep(r, r + 1, 0));
    } else {
      assert Enabled(s, ParentStep(0, 0, 0));
    }
  }

  // ---- every run ends ------------------------------------------------------------------------------

  // Steps a child still has to take if nothing more is sent to it.
  function ChildRank(c: Child): nat
  {
    match c.pc
    case CloseInherited(i) => (if i < |c.channels| then |c.channels| - i else 0) + 6
    case CloseOwn => 5
    case Dup => 4
    case Execute(_) => 4
    case Read => 3
    case CloseEnd => 2
    case Exit => 1
    case Exited => 0
  }

  // Steps the parent still has to take, and those it will cause its children.
  function ParentRank(s: State): nat
  {
    var cleanup := 2 * s.num + 2;
    var creation := if |s.channels| < s.num then s.num - |s.channels| else 0;
    var rest := 5 * s.times + cleanup + 1;
    match s.pc
    case Pipe => creation * (s.num + 12) + rest
    case Fork(_, _) => creation * (s.num + 12) + rest - 1
    case CloseRead(_, _, _) => if creation > 0 then creation * (s.num + 12) + rest - (s.num + 8) else 0
    case Record(_, _) => if creation > 0 then creation * (s.num + 12) + rest - (s.num + 9) else 0
    case Next(left) => 5 * left + cleanup
    case Send(left, _, _) => 5 * left + 4 + cleanup
    case Close(j) => if j <= s.num then 2 * (s.num - j) + 1 else 0
    case Await(j) => if j <= s.num then 2 * (s.num - j) else 0
    case Done => 0
  }

  function Doubled(buffer: seq<int>): nat { 2 * |buffer| }

  ghost function Measure(s: State): nat
  {
    ParentRank(s) + Total(s.children, ChildRank) + Total(s.buffers, Doubled)
  }

  lemma ChildLineDescends(c: Child, buffer: seq<int>)
    requires !c.pc.Exited? && (c.pc.Dup? ==> c.r in c.table)
    ensures var (c', buffer') := ChildLine(c, buffer);
            ChildRank(c') + Doubled(buffer') < ChildRank(c) + Doubled(buffer)
  {
  }

  lemma ChildDescends(s: State, k: nat)
    requires k < |s.buffers| && ChildEnabled(s, k)
    ensures Measure(Apply(s, ChildStep(k))) < Measure(s)
  {
    var s' := Apply(s, ChildStep(k));
    assert ParentRank(s') == ParentRank(s);
    ChildLineDescends(s.children[k], s.buffers[k]);
    TotalUpdate(s.children, k, s'.children[k], ChildRank);
    TotalUpdate(s.buffers, k, s'.buffers[k], Doubled);
  }

  lemma CreationStep(n: nat, i: nat, c: nat)
    requires i < n
    ensures (n - i) * c == (n - i - 1) * c + c
  {
  }

  lemma TotalSnoc<A>(s: seq<A>, x: A, w: A -> nat)
    ensures Total(s + [x], w) == Total(s, w) + w(x)
  {
    assert (s + [x])[..|s|] == s;
  }

  // The parent's next step costs at least one more than the work it hands to children and pipes.
  lemma ParentRankDescends(s: State, r: nat, w: nat, cmd: int)
    requires Shape(s) && ParentEnabled(s, r, w)
    ensures ParentRank(ParentApply(s, r, w, cmd)) < ParentRank(s)
    ensures s.pc.Fork? ==> ParentRank(ParentApply(s, r, w, cmd)) + s.num + 6 < ParentRank(s)
    ensures s.pc.Send? ==> ParentRank(ParentApply(s, r, w, cmd)) + 2 < ParentRank(s)
  {
    if |s.channels| < s.num {
      CreationStep(s.num, |s.channels|, s.num + 12);
    }
  }

  lemma ParentDescends(s: State, r: nat, w: nat, cmd: int)
    requires Inv(s) && ParentEnabled(s, r, w)
    ensures Measure(ParentApply(s, r, w, cmd)) < Measure(s)
  {
    var s' := ParentApply(s, r, w, cmd);
    ParentRankDescends(s, r, w, cmd);
    if s.pc.Pipe? && |s.channels| < s.num {
      TotalSnoc(s.buffers, [], Doubled);
    } else if s.pc.Fork? {
      TotalSnoc(s.children, s'.children[|s.children|], ChildRank);
    } else if s.pc.Send? {
      TotalUpdate(s.buffers, s.pc.ch, s'.buffers[s.pc.ch], Doubled);
    }
  }

  // Whatever the interleaving, the whole program takes no more steps than this.
  lemma {:induction false} EveryRunIsFinite(num: nat, times: nat, pipeCap: nat, table: Table, ms: seq<Move>)
    requires num > 0 && pipeCap > 0 && NoPipes(table)
    requires Run(Init(num, times, pipeCap, table), ms).Some?
    ensures |ms| + Measure(Run(Init(num, times, pipeCap, table), ms).value) <= Measure(Init(num, times, pipeCap, table))
  {
    if ms != [] {
      var init, pre, m := Init(num, times, pipeCap, table), ms[..|ms| - 1], ms[|ms| - 1];
      EveryRunIsFinite(num, times, pipeCap, table, pre);
      RunInv(num, times, pipeCap, table, pre);
      match m
      case ParentStep(r, w, cmd) => ParentDescends(Run(init, pre).value, r, w, cmd);
      case ChildStep(k) => ChildDescends(Run(init, pre).value, k);
    }
  }

  // ---- round robin -------------------------------------------------------------------------------

  // The commands dispatched to a channel, in order.
  function ByChannel(log: seq<(nat, int)>, ch: nat): seq<int>
  {
    if log == [] then [] else
      var last := log[|log| - 1];
      ByChannel(log[..|log| - 1], ch) + if last.0 == ch then [last.1] else []
  }

  function Left(s: State): nat
  {
    match s.pc
    case Next(left) => left
    case Send(left, _, _) => left + 1
    case Close(_) => 0
    case Await(_) => 0
    case Done => 0
    case _ => s.times
  }

  // Dispatch k went to channel k mod num, and each pipe was sent its share of the log.
  ghost predicate InTurn(s: State)
  {
    && s.num > 0 && |s.log| + Left(s) == s.times
    && (forall k | 0 <= k < |s.log| :: s.log[k].0 == k % s.num)
    && s.next == (|s.log| + (if s.pc.Send? then 1 else 0)) % s.num
    && (s.pc.Send? ==> s.pc.ch == |s.log| % s.num)
    && (forall j | 0 <= j < |s.sent| :: s.sent[j] == ByChannel(s.log, j))
    && (!s.pc.Next? && !s.pc.Send? && Left(s) > 0 ==> s.log == [])
  }

  lemma ByChannelSnoc(log: seq<(nat, int)>, e: (nat, int), ch: nat)
    ensures ByChannel(log + [e], ch) == ByChannel(log, ch) + if e.0 == ch then [e.1] else []
  {
    assert (log + [e])[..|log|] == log;
  }

  lemma TurnsKept(s: State, r: nat, w: nat, cmd: int)
    requires Shape(s) && InTurn(s) && ParentEnabled(s, r, w)
    ensures InTurn(ParentApply(s, r, w, cmd))
  {
    var s' := ParentApply(s, r, w, cmd);
    if s.pc.Next? && s.pc.left > 0 {
      NextSlot(|s.log|, s.num);
    } else if s.pc.Send? {
      forall j | 0 <= j < |s'.sent|
        ensures s'.sent[j] == ByChannel(s'.log, j)
      {
        ByChannelSnoc(s.log, (s.pc.ch, s.pc.cmd), j);
      }
    }
  }

  lemma {:induction false} RunKeepsTurns(num: nat, times: nat, pipeCap: nat, table: Table, ms: seq<Move>)
    requires num > 0 && pipeCap > 0 && NoPipes(table)
    requires Run(Init(num, times, pipeCap, table), ms).Some?
    ensures InTurn(Run(Init(num, times, pipeCap, table), ms).value)
    ensures var s := Run(Init(num, times, pipeCap, table), ms).value;
            s.num == num && s.times == times
  {
    if ms == [] {
      ModUnique(0, 0, 0, num);
    } else {
      var init, pre, m := Init(num, times, pipeCap, table), ms[..|ms| - 1], ms[|ms| - 1];
      RunKeepsTurns(num, times, pipeCap, table, pre);
      RunInv(num, times, pipeCap, table, pre);
      if m.ParentStep? {
        TurnsKept(Run(init, pre).value, m.r, m.w, m.cmd);
      }
    }
  }

  // In every run the commands selected are dispatched, in order, to the channels in turn.
  lemma RunInTurn(num: nat, times: nat, pipeCap: nat, table: Table, ms: seq<Move>)
    requires num > 0 && pipeCap > 0 && NoPipes(table)
    requires Run(Init(num, times, pipeCap, table), ms).Some?
    ensures InTurn(Run(Init(num, times, pipeCap, table), ms).value)
    ensures var s := Run(Init(num, times, pipeCap, table), ms).value;
            && s.num == num && s.times == times
            && Commands(s.log) + Held(s.pc) == Selected(Init(num, times, pipeCap, table), ms)
  {
    RunKeepsTurns(num, times, pipeCap, table, ms);
    SentAsSelected(Init(num, times, pipeCap, table), ms);
  }

  // The load of a channel after N dispatches: N / n, plus one for the first N mod n channels.
  lemma {:induction false} LoadIs(log: seq<(nat, int)>, n: nat, ch: nat)
    requires n > 0 && ch < n && forall k | 0 <= k < |log| :: log[k].0 == k % n
    ensures |ByChannel(log, ch)| == |log| / n + if ch < |log| % n then 1 else 0
  {
    if log == [] {
      ModUnique(0, 0, 0, n);
      assert 0 / n == 0;
    } else {
      var k := |log| - 1;
      LoadIs(log[..k], n, ch);
      RoundStep(k, n);
    }
  }

  // After any dispatches the loads of two channels differ by at most one.
  lemma RoundRobinIsFair(log: seq<(nat, int)>, n: nat, a: nat, b: nat)
    requires n > 0 && a < n && b < n && forall k | 0 <= k < |log| :: log[k].0 == k % n
    ensures -1 <= |ByChannel(log, a)| - |ByChannel(log, b)| <= 1
  {
    LoadIs(log, n, a);
    LoadIs(log, n, b);
  }

  // The loads of the first m channels.
  function Loads(log: seq<(nat, int)>, m: nat): nat
  {
    if m == 0 then 0 else Loads(log, m - 1) + |ByChannel(log, m - 1)|
  }

  lemma {:induction false} LoadsSnoc(log: seq<(nat, int)>, e: (nat, int), m: nat)
    ensures Loads(log + [e], m) == Loads(log, m) + if e.0 < m then 1 else 0
  {
    if m > 0 {
      LoadsSnoc(log, e, m - 1);
      ByChannelSnoc(log, e, m - 1);
    }
  }

  lemma {:induction false} LoadsOfNothing(m: nat)
    ensures Loads([], m) == 0
  {
    if m > 0 {
      LoadsOfNothing(m - 1);
    }
  }

  // No dispatch is lost: the loads add up to their number.
  lemma {:induction false} LoadsAddUp(log: seq<(nat, int)>, n: nat)
    requires forall k | 0 <= k < |log| :: log[k].0 < n
    ensures Loads(log, n) == |log|
  {
    if log == [] {
      LoadsOfNothing(n);
    } else {
      var k := |log| - 1;
      LoadsAddUp(log[..k], n);
      LoadsSnoc(log[..k], log[k], n);
      assert log[..k] + [log[k]] == log;
    }
  }

  // The commands dispatched, whatever the channel.
  function Commands(log: seq<(nat, int)>): seq<int>
  {
    seq(|log|, i requires 0 <= i < |log| => log[i].1)
  }

  // When n channels take turns, channel k's command j is number j * n + k of all.
  function Nth(n: nat, k: nat, j: nat): nat
  {
    j * n + k
  }

  // got is channel k's share of the commands: every n-th from number k on, in order, and no more.
  ghost predicate IsShare(cmds: seq<int>, n: nat, k: nat, got: seq<int>)
  {
    forall j: nat :: (j < |got| <==> Nth(n, k, j) < |cmds|) && (j < |got| ==> got[j] == cmds[Nth(n, k, j)])
  }

  // The number q * n + ch belongs to channel ch alone.
  lemma NthIs(n: nat, k: nat, j: nat, q: nat, ch: nat)
    requires k < n && ch < n
    ensures Nth(n, k, j) == q * n + ch <==> k == ch && j == q
  {
    DivModUnique(j * n + k, j, k, n);
    DivModUnique(q * n + ch, q, ch, n);
  }

  // If q * n + k commands have been dispatched channel k has had q of them.
  lemma ShareSize(cmds: seq<int>, n: nat, k: nat, got: seq<int>, q: nat)
    requires k < n && IsShare(cmds, n, k, got) && |cmds| == q * n + k
    ensures |got| == q
  {
    assert Nth(n, k, q) == |cmds|;
    assert Nth(n, k, |got|) >= |cmds|;
    var d := q - |got|;
    assert d * n == q * n - |got| * n;
    Multiples(d, n);
  }

  lemma ShareSnoc(cmds: seq<int>, cmd: int, n: nat, k: nat, got: seq<int>, q: nat, ch: nat)
    requires k < n && ch < n && IsShare(cmds, n, k, got) && |cmds| == q * n + ch
    ensures IsShare(cmds + [cmd], n, k, if ch == k then got + [cmd] else got)
  {
    var got' := if ch == k then got + [cmd] else got;
    if ch == k {
      ShareSize(cmds, n, k, got, q);
    }
    forall j: nat
      ensures j < |got'| <==> Nth(n, k, j) < |cmds| + 1
      ensures j < |got'| ==> got'[j] == (cmds + [cmd])[Nth(n, k, j)]
    {
      NthIs(n, k, j, q, ch);
    }
  }

  lemma {:induction false} ByChannelIsShare(log: seq<(nat, int)>, n: nat, k: nat)
    requires k < n && forall i | 0 <= i < |log| :: log[i].0 == i % n
    ensures IsShare(Commands(log), n, k, ByChannel(log, k))
  {
    if log == [] {
      assert forall j: nat :: Nth(n, k, j) >= 0;
    } else {
      var m := |log| - 1;
      ByChannelIsShare(log[..m], n, k);
      assert Commands(log) == Commands(log[..m]) + [log[m].1];
      ShareSnoc(Commands(log[..m]), log[m].1, n, k, ByChannel(log[..m], k), m / n, m % n);
    }
  }

  // ---- the commands selected -------------------------------------------------------------------------

  // What SelectTask chose: one command for each iteration of the dispatch loop begun.
  function Selected(s: State, ms: seq<Move>): seq<int>
    requires Run(s, ms).Some?
  {
    if ms == [] then [] else
      Selected(s, ms[..|ms| - 1]) + SelectedBy(Run(s, ms[..|ms| - 1]).value, ms[|ms| - 1])
  }

  function SelectedBy(s: State, m: Move): seq<int>
  {
    if m.ParentStep? && s.pc.Next? && s.pc.left > 0 then [m.cmd] else []
  }

  function Held(pc: ParentPc): seq<int>
  {
    if pc.Send? then [pc.cmd] else []
  }

  lemma SelectionKept(s: State, m: Move)
    requires Enabled(s, m)
    ensures Commands(Apply(s, m).log) + Held(Apply(s, m).pc) == Commands(s.log) + Held(s.pc) + SelectedBy(s, m)
  {
  }

  // In every run the commands dispatched, and the one just being sent, are those selected, in the
  // order in which they were selected.
  lemma {:induction false} SentAsSelected(init: State, ms: seq<Move>)
    requires Run(init, ms).Some? && init.log == [] && init.pc.Pipe?
    ensures var s := Run(init, ms).value; Selected(init, ms) == Commands(s.log) + Held(s.pc)
  {
    if ms != [] {
      SentAsSelected(init, ms[..|ms| - 1]);
      SelectionKept(Run(init, ms[..|ms| - 1]).value, ms[|ms| - 1]);
    }
  }

  // ---- the end ------------------------------------------------------------------------------------

  // A run that cannot go on has finished: `times` commands went to the channels in turn, every
  // child has exited and been waited for, and each has executed what was sent to it, in order.
  lemma EveryRunFinishes(num: nat, times: nat, pipeCap: nat, table: Table, ms: seq<Move>)
    requires num > 0 && pipeCap > 0 && NoPipes(table)
    requires Run(Init(num, times, pipeCap, table), ms).Some?
    requires forall m :: !Enabled(Run(Init(num, times, pipeCap, table), ms).value, m)
    ensures var s := Run(Init(num, times, pipeCap, table), ms).value;
            && s.pc.Done? && |s.children| == num
            && |s.log| == times && (forall k | 0 <= k < times :: s.log[k].0 == k % num)
            && (forall k | 0 <= k < num :: s.children[k].pc.Exited? && s.children[k].got == ByChannel(s.log, k))
  {
    RunInv(num, times, pipeCap, table, ms);
    RunInTurn(num, times, pipeCap, table, ms);
    var s := Run(Init(num, times, pipeCap, table), ms).value;
    if !s.pc.Done? {
      NeverStuck(s);
    }
    forall k | 0 <= k < num
      ensures s.children[k].pc.Exited? && s.children[k].got == ByChannel(s.log, k)
    {
      assert Delivered(s.children[k], s.buffers[k], s.sent[k], k < Closed(s));
    }
  }

  // Then each child has executed exactly its share of the commands selected, in order.
  lemma EveryRunCompletes(num: nat, times: nat, pipeCap: nat, table: Table, ms: seq<Move>)
    requires num > 0 && pipeCap > 0 && NoPipes(table)
    requires Run(Init(num, times, pipeCap, table), ms).Some?
    requires forall m :: !Enabled(Run(Init(num, times, pipeCap, table), ms).value, m)
    ensures var s, cmds := Run(Init(num, times, pipeCap, table), ms).value, Selected(Init(num, times, pipeCap, table), ms);
            && s.pc.Done? && |s.children| == num && |cmds| == times
            && forall k | 0 <= k < num :: s.children[k].pc.Exited? && IsShare(cmds, num, k, s.children[k].got)
  {
    var s := Run(Init(num, times, pipeCap, table), ms).value;
    EveryRunFinishes(num, times, pipeCap, table, ms);
    RunInTurn(num, times, pipeCap, table, ms);
    forall k | 0 <= k < num
      ensures IsShare(Commands(s.log), num, k, s.children[k].got)
    {
      ByChannelIsShare(s.log, num, k);
    }
  }

  // ---- every list of commands can be carried out ----------------------------------------------------------

  lemma Descends(s: State, m: Move)
    requires Inv(s) && Enabled(s, m)
    ensures Measure(Apply(s, m)) < Measure(s)
  {
    match m
    case ParentStep(r, w, cmd) => ParentDescends(s, r, w, cmd);
    case ChildStep(k) => ChildDescends(s, k);
  }

  // A run that has selected the first of the commands can go on to its end with the others.
  lemma {:induction false} Complete(num: nat, pipeCap: nat, table: Table, cmds: seq<int>, ms: seq<Move>)
    returns (ms': seq<Move>)
    requires num > 0 && pipeCap > 0 && NoPipes(table)
    requires var init := Init(num, |cmds|, pipeCap, table); Run(init, ms).Some? && Selected(init, ms) <= cmds
    ensures var init := Init(num, |cmds|, pipeCap, table);
            && Run(init, ms').Some? && Selected(init, ms') <= cmds
            && forall m :: !Enabled(Run(init, ms').value, m)
    decreases Measure(Run(Init(num, |cmds|, pipeCap, table), ms).value)
  {
    var init := Init(num, |cmds|, pipeCap, table);
    var s := Run(init, ms).value;
    if m :| Enabled(s, m) {
      var step := NextStep(num, pipeCap, table, cmds, ms, m);
      RunInv(num, |cmds|, pipeCap, table, ms);
      Descends(s, step);
      assert (ms + [step])[..|ms|] == ms;
      ms' := Complete(num, pipeCap, table, cmds, ms + [step]);
    } else {
      ms' := ms;
    }
  }

  // The same step, selecting the next of the commands if it selects one.
  lemma NextStep(num: nat, pipeCap: nat, table: Table, cmds: seq<int>, ms: seq<Move>, m: Move) returns (step: Move)
    requires num > 0 && pipeCap > 0 && NoPipes(table)
    requires var init := Init(num, |cmds|, pipeCap, table);
             Run(init, ms).Some? && Selected(init, ms) <= cmds && Enabled(Run(init, ms).value, m)
    ensures var init := Init(num, |cmds|, pipeCap, table);
            Enabled(Run(init, ms).value, step) && Selected(init, ms) + SelectedBy(Run(init, ms).value, step) <= cmds
  {
    var init := Init(num, |cmds|, pipeCap, table);
    step := m;
    if SelectedBy(Run(init, ms).value, m) != [] {
      RunInTurn(num, |cmds|, pipeCap, table, ms);
      step := m.(cmd := cmds[|Selected(init, ms)|]);
    }
  }

  // For any commands there is a run that selects them, comes to its end, and has each child execute
  // its share of them.
  lemma CommandsGetExecuted(num: nat, pipeCap: nat, table: Table, cmds: seq<int>) returns (ms: seq<Move>)
    requires num > 0 && pipeCap > 0 && NoPipes(table)
    ensures var init := Init(num, |cmds|, pipeCap, table);
            && Run(init, ms).Some? && Selected(init, ms) == cmds && Run(init, ms).value.pc.Done?
            && |Run(init, ms).value.children| == num
            && forall k | 0 <= k < num :: IsShare(cmds, num, k, Run(init, ms).value.children[k].got)
  {
    ms := Complete(num, pipeCap, table, cmds, []);
    EveryRunCompletes(num, |cmds|, pipeCap, table, ms);
  }
}

/**
  What every interleaving of the parent and its children keeps: who holds which pipe end, and
  that each command sent is in its pipe, in its child's hands, or executed, in order.
*/
module ProcessProofs {
  import opened ProcessMachine

  // ---- the invariant ----------------------------------------------------------------------

  // Channels already closed by CleanUpChannel.
  function Closed(s: State): nat
  {
    match s.pc
    case Close(j) => j
    case Await(j) => j + 1
    case Done => |s.channels|
    case _ => 0
  }

  predicate PipeMade(pc: ParentPc) { pc.Fork? || pc.CloseRead? || pc.Record? }

  predicate Forked(pc: ParentPc) { pc.CloseRead? || pc.Record? }

  ghost predicate Shape(s: State)
  {
    && s.num > 0 && s.pipeCap > 0 && s.next < s.num
    && |s.buffers| == |s.sent| == |s.channels| + (if PipeMade(s.pc) then 1 else 0)
    && |s.children| == |s.channels| + (if Forked(s.pc) then 1 else 0)
    && (if s.pc.Pipe? then |s.channels| <= s.num
        else if PipeMade(s.pc) then |s.channels| < s.num else |s.channels| == s.num)
    && (forall j | 0 <= j < |s.channels| :: s.channels[j].id == j)
    && Closed(s) <= |s.channels|
    && match s.pc
       case Send(left, ch, _) => ch < |s.channels|
       case CloseRead(_, _, id) => id == |s.channels|
       case Record(_, id) => id == |s.channels|
       case _ => true
  }

  // The parent holds the write end of each channel not yet closed, under the channel's number,
  // and besides these only the ends of the pipe it is just setting up.
  ghost predicate ParentOwns(s: State)
  {
    && (forall j | Closed(s) <= j < |s.channels| :: WritesTo(s.parent, s.channels[j].wfd, j))
    && (forall fd | fd in s.parent && s.parent[fd].W? ::
          var p := s.parent[fd].pipe;
          if p < |s.channels| then Closed(s) <= p && fd == s.channels[p].wfd
          else p == |s.channels| && PipeMade(s.pc) && fd == s.pc.w)
    && (forall fd | fd in s.parent && s.parent[fd].R? ::
          s.parent[fd].pipe == |s.channels| && (s.pc.Fork? || s.pc.CloseRead?) && fd == s.pc.r)
    && (PipeMade(s.pc) ==> WritesTo(s.parent, s.pc.w, |s.channels|))
    && (s.pc.Fork? || s.pc.CloseRead? ==> s.pc.r in s.parent && s.parent[s.pc.r] == R(|s.channels|))
  }

  // Child k's table, by how far it has come: until it has closed what it inherited it holds write
  // ends of its own and earlier pipes, and no others; from then on none. The only read end it
  // ever holds is that of its own pipe.
  ghost predicate ChildOwns(c: Child, k: nat)
  {
    && |c.channels| == k
    && (forall fd | fd in c.table && c.table[fd].R? :: c.table[fd].pipe == k)
    && match c.pc
       case CloseInherited(i) =>
         && i <= k
         && (forall j | i <= j < k :: WritesTo(c.table, c.channels[j].wfd, j))
         && (forall fd | fd in c.table && c.table[fd].W? ::
               var p := c.table[fd].pipe; (i <= p < k && fd == c.channels[p].wfd) || (p == k && fd == c.w))
         && WritesTo(c.table, c.w, k) && c.r in c.table && c.table[c.r] == R(k)
       case CloseOwn =>
         && (forall fd | fd in c.table && c.table[fd].W? :: c.table[fd].pipe == k && fd == c.w)
         && WritesTo(c.table, c.w, k) && c.r in c.table && c.table[c.r] == R(k)
       case Dup => NoWriteEnd(c.table) && c.r in c.table && c.table[c.r] == R(k)
       case Read => NoWriteEnd(c.table) && ReadsFrom(c.table, k)
       case Execute(_) => NoWriteEnd(c.table) && ReadsFrom(c.table, k)
       case Exited => c.table == map[]
       case _ => NoWriteEnd(c.table)
  }

  ghost predicate NoWriteEnd(t: Table)
  {
    forall fd | fd in t :: !t[fd].W?
  }

  ghost predicate ChildrenOwn(s: State)
  {
    forall k | 0 <= k < |s.children| :: ChildOwns(s.children[k], k)
  }

  function InHand(pc: ChildPc): seq<int>
  {
    if pc.Execute? then [pc.cmd] else []
  }

  // A child has executed what it was sent, but for the command in its hands and those in its pipe;
  // once it has seen the end of its pipe, the pipe is closed and empty for good.
  ghost predicate Delivered(c: Child, buffer: seq<int>, sent: seq<int>, closed: bool)
  {
    && sent == c.got + InHand(c.pc) + buffer
    && (c.pc.CloseEnd? || c.pc.Exit? || c.pc.Exited? ==> closed && buffer == [])
  }

  ghost predicate Deliveries(s: State)
  {
    && |s.children| <= |s.buffers| == |s.sent|
    && (forall k | 0 <= k < |s.children| :: Delivered(s.children[k], s.buffers[k], s.sent[k], k < Closed(s)))
    && (forall k | |s.children| <= k < |s.buffers| :: s.sent[k] == [] && s.buffers[k] == [])
  }

  // Children before the one being waited for have exited.
  ghost predicate Reaped(s: State)
  {
    forall j | 0 <= j < |s.children| && j < (if s.pc.Await? then s.pc.j else Closed(s)) :: s.children[j].pc.Exited?
  }

  // ---- one child line ----------------------------------------------------------------------

  lemma ChildLineOwns(c: Child, k: nat, buffer: seq<int>)
    requires ChildOwns(c, k) && !c.pc.Exited?
    ensures ChildOwns(ChildLine(c, buffer).0, k)
    ensures forall p :: W(p) in ChildLine(c, buffer).0.table.Values ==> W(p) in c.table.Values
    ensures ChildLine(c, buffer).0.channels == c.channels
  {
    var c' := ChildLine(c, buffer).0;
    forall p | W(p) in c'.table.Values
      ensures W(p) in c.table.Values
    {
      var fd :| fd in c'.table && c'.table[fd] == W(p);
      assert c.pc.Dup? || (fd in c.table && c.table[fd] == W(p));
    }
  }

  lemma ChildLineDelivers(c: Child, buffer: seq<int>, sent: seq<int>, closed: bool)
    requires Delivered(c, buffer, sent, closed) && (c.pc.Dup? ==> c.r in c.table)
    requires c.pc.Read? && buffer == [] ==> closed
    ensures Delivered(ChildLine(c, buffer).0, ChildLine(c, buffer).1, sent, closed)
    ensures |ChildLine(c, buffer).1| <= |buffer|
  {
    if c.pc.Read? && buffer != [] {
      assert c.got + ([buffer[0]] + buffer[1..]) == c.got + [buffer[0]] + buffer[1..];
    }
  }

  // ---- the invariant is kept -----------------------------------------------------------------

  ghost predicate Inv(s: State)
  {
    Shape(s) && ParentOwns(s) && ChildrenOwn(s) && Deliveries(s) && Reaped(s)
  }

  lemma ParentOwnsKept(s: State, r: nat, w: nat, cmd: int)
    requires Shape(s) && ParentOwns(s) && ParentEnabled(s, r, w)
    ensures ParentOwns(ParentApply(s, r, w, cmd))
  {
    var s' := ParentApply(s, r, w, cmd);
    if s.pc.Close? && s.pc.j < |s.channels| {
      assert WritesTo(s.parent, s.channels[s.pc.j].wfd, s.pc.j);
    }
  }

  // fork: the child inherits every write end the parent holds.
  lemma ForkOwns(s: State)
    requires Shape(s) && ParentOwns(s) && s.pc.Fork?
    ensures ChildOwns(Child(s.parent, CloseInherited(0), s.channels, s.pc.r, s.pc.w, []), |s.children|)
  {
  }

  lemma ShapeKept(s: State, r: nat, w: nat, cmd: int)
    requires Shape(s) && ParentEnabled(s, r, w)
    ensures Shape(ParentApply(s, r, w, cmd))
  {
  }

  lemma ChildrenOwnKept(s: State, r: nat, w: nat, cmd: int)
    requires Shape(s) && ParentOwns(s) && ChildrenOwn(s) && ParentEnabled(s, r, w)
    ensures ChildrenOwn(ParentApply(s, r, w, cmd))
  {
    if s.pc.Fork? {
      ForkOwns(s);
    }
  }

  lemma ReapedKept(s: State, r: nat, w: nat, cmd: int)
    requires Shape(s) && Reaped(s) && ParentEnabled(s, r, w)
    ensures Reaped(ParentApply(s, r, w, cmd))
  {
  }

  lemma ParentKeeps(s: State, r: nat, w: nat, cmd: int)
    requires Inv(s) && ParentEnabled(s, r, w)
    ensures Inv(ParentApply(s, r, w, cmd))
  {
    ShapeKept(s, r, w, cmd);
    ParentOwnsKept(s, r, w, cmd);
    ChildrenOwnKept(s, r, w, cmd);
    DeliveriesKept(s, r, w, cmd);
    ReapedKept(s, r, w, cmd);
  }

  lemma DeliveriesKept(s: State, r: nat, w: nat, cmd: int)
    requires Shape(s) && Deliveries(s) && ParentEnabled(s, r, w)
    ensures Deliveries(ParentApply(s, r, w, cmd))
  {
    var s' := ParentApply(s, r, w, cmd);
    if s.pc.Send? {
      var ch, c := s.pc.ch, s.pc.cmd;
      var child := s.children[ch];
      assert child.got + InHand(child.pc) + (s.buffers[ch] + [c]) == child.got + InHand(child.pc) + s.buffers[ch] + [c];
    }
  }

  // Until the parent closes channel k its pipe has a writer, so child k cannot read its end.
  lemma OpenChannelHasWriter(s: State, k: nat)
    requires Shape(s) && ParentOwns(s) && Closed(s) <= k < |s.children|
    ensures HasWriter(s, k)
  {
    var fd := if k < |s.channels| then s.channels[k].wfd else s.pc.w;
    assert WritesTo(s.parent, fd, k);
  }

  lemma ChildDeliveriesKept(s: State, k: nat)
    requires Shape(s) && ParentOwns(s) && Deliveries(s) && ChildEnabled(s, k)
    ensures Deliveries(Apply(s, ChildStep(k)))
  {
    if k >= Closed(s) {
      OpenChannelHasWriter(s, k);
    }
    ChildLineDelivers(s.children[k], s.buffers[k], s.sent[k], k < Closed(s));
  }

  lemma ChildTablesKept(s: State, k: nat)
    requires Shape(s) && ChildrenOwn(s) && ChildEnabled(s, k)
    ensures ChildrenOwn(Apply(s, ChildStep(k)))
  {
    ChildLineOwns(s.children[k], k, s.buffers[k]);
  }

  lemma ChildKeeps(s: State, k: nat)
    requires Inv(s) && ChildEnabled(s, k)
    ensures Inv(Apply(s, ChildStep(k)))
  {
    ChildDeliveriesKept(s, k);
    ChildTablesKept(s, k);
  }

  lemma InitInv(num: nat, times: nat, pipeCap: nat, table: Table)
    requires num > 0 && pipeCap > 0 && NoPipes(table)
    ensures Inv(Init(num, times, pipeCap, table))
  {
  }

  lemma {:induction false} RunInv(num: nat, times: nat, pipeCap: nat, table: Table, ms: seq<Move>)
    requires num > 0 && pipeCap > 0 && NoPipes(table)
    requires Run(Init(num, times, pipeCap, table), ms).Some?
    ensures Inv(Run(Init(num, times, pipeCap, table), ms).value)
  {
    if ms == [] {
      InitInv(num, times, pipeCap, table);
    } else {
      RunInv(num, times, pipeCap, table, ms[..|ms| - 1]);
      var s, m := Run(Init(num, times, pipeCap, table), ms[..|ms| - 1]).value, ms[|ms| - 1];
      match m
      case ParentStep(r, w, cmd) => ParentKeeps(s, r, w, cmd);
      case ChildStep(k) => ChildKeeps(s, k);
    }
  }
}

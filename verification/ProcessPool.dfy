/**
  The process pool's own loops, with the tables they update. Each child runs to its next read as
  soon as it is forked, and to its end as soon as it is waited for; the machine has every other
  order.
*/
module ProcessPoolClass {
  import opened Modular
  import opened ProcessMachine
  import opened ProcessProofs
  import opened ProcessTheorems

  // The lowest descriptor not in use, as POSIX prescribes for pipe and dup.
  method LowestFree(used: Table) returns (fd: nat)
    ensures fd !in used && forall x: nat | x < fd :: x in used
  {
    ghost var top := FreeDescriptor(used.Keys);
    fd := 0;
    while fd in used
      invariant fd <= top && forall x: nat | x < fd :: x in used
      decreases top - fd
    {
      fd := fd + 1;
    }
  }

  ghost predicate Holds(parent: Table, channels: seq<Channel>, closed: nat)
  {
    && (forall j | closed <= j < |channels| :: WritesTo(parent, channels[j].wfd, j))
    && (forall fd | fd in parent && parent[fd].W? ::
          closed <= parent[fd].pipe < |channels| && fd == channels[parent[fd].pipe].wfd)
    && (forall fd | fd in parent :: !parent[fd].R?)
  }

  // One round of the creation loop: what fork copies, and what the parent is left with.
  lemma RoundHolds(parent: Table, channels: seq<Channel>, r: nat, w: nat)
    requires Holds(parent, channels, 0) && r !in parent && w !in parent && r != w
    ensures var i := |channels|;
            var both := parent[r := R(i)][w := W(i)];
            && ChildOwns(Child(both, CloseInherited(0), channels, r, w, []), i)
            && Holds(both - {r}, channels + [Channel(w, i)], 0)
  {
  }

  // Sent in turn from channel 0 on, each channel gets its share.
  lemma SharesSent(log: seq<(nat, int)>, tasks: seq<int>, n: nat, start: nat)
    requires n > 0 && |log| == |tasks|
    requires forall k | 0 <= k < |tasks| :: log[k] == ((start + k) % n, tasks[k])
    ensures start == 0 ==> forall j | 0 <= j < n :: IsShare(tasks, n, j, ByChannel(log, j))
  {
    assert Commands(log) == tasks;
    if start == 0 {
      forall j | 0 <= j < n
        ensures IsShare(tasks, n, j, ByChannel(log, j))
      {
        ByChannelIsShare(log, n, j);
      }
    }
  }

  class ProcessPool {
    var parent: Table
    var channels: seq<Channel>
    var next: nat
    var children: seq<Child>
    var buffers: seq<seq<int>>

    // The parent holds exactly the write ends of the channels from `closed` on.
    ghost predicate ParentHolds(closed: nat)
      reads this
    {
      Holds(parent, channels, closed)
    }

    ghost predicate ChildrenHold()
      reads this
    {
      && |children| == |buffers| == |channels|
      && (forall k | 0 <= k < |children| :: ChildOwns(children[k], k))
      && (forall k | 0 <= k < |channels| :: channels[k].id == k)
    }

    // Children from k on wait for a command.
    ghost predicate Reading(k: nat)
      reads this
    {
      forall j | k <= j < |children| :: children[j].pc.Read?
    }

    constructor (table: Table)
      ensures parent == table && channels == [] && children == [] && buffers == [] && next == 0
    {
      parent, channels, next, children, buffers := table, [], 0, [], [];
    }

    // num pipes and children; each child closes what it inherited. Afterwards the write end of
    // each pipe is open in the parent alone and its read end in its own child alone.
    method CreateChannelAndSub(num: nat)
      requires NoPipes(parent) && channels == [] && children == [] && buffers == []
      modifies this
      ensures |channels| == num && next == old(next)
      ensures ParentHolds(0) && ChildrenHold() && Reading(0)
      ensures forall k | 0 <= k < num :: children[k].got == [] && buffers[k] == []
    {
      for i := 0 to num
        invariant |channels| == i && next == old(next)
        invariant ParentHolds(0) && ChildrenHold() && Reading(0)
        invariant forall k | 0 <= k < i :: children[k].got == [] && buffers[k] == []
      {
        AddChannel();
      }
    }

    // One round of the creation loop.
    method AddChannel()
      requires ParentHolds(0) && ChildrenHold()
      modifies this
      ensures next == old(next) && |channels| == old(|channels|) + 1
      ensures ParentHolds(0) && ChildrenHold()
      ensures children[..|old(children)|] == old(children) && buffers == old(buffers) + [[]]
      ensures children[|old(children)|].pc.Read? && children[|old(children)|].got == []
    {
      ghost var before := parent;
      var i := |channels|;
      var r := LowestFree(parent);
      parent := parent[r := R(i)];
      var w := LowestFree(parent);
      parent := parent[w := W(i)];
      buffers := buffers + [[]];
      RoundHolds(before, channels, r, w);
      var child := SetUpChild(i, r, w);
      children := children + [child];
      parent := parent - {r};
      channels := channels + [Channel(w, i)];
    }

    // What the forked child does before its first read.
    method SetUpChild(k: nat, r: nat, w: nat) returns (child: Child)
      requires |channels| == k && ChildOwns(Child(parent, CloseInherited(0), channels, r, w, []), k)
      ensures ChildOwns(child, k) && child.pc.Read? && child.got == []
    {
      child := Child(parent, CloseInherited(0), channels, r, w, []);
      for j := 0 to |channels|
        invariant ChildOwns(child, k) && child.pc == CloseInherited(j) && child.got == []
        invariant child.channels == channels && child.r == r && child.w == w
      {
        ChildLineOwns(child, k, []);
        child := child.(table := child.table - {child.channels[j].wfd}, pc := CloseInherited(j + 1));
      }
      child := child.(pc := CloseOwn);
      assert ChildOwns(child, k);
      child := child.(table := child.table - {w}, pc := Dup);
      assert ChildOwns(child, k);
      child := child.(table := child.table[0 := child.table[r]], pc := Read);
    }

    method NextChannel(channelnum: nat) returns (channel: nat)
      requires next < channelnum
      modifies this`next
      ensures channel == old(next) && next == (old(next) + 1) % channelnum
    {
      channel := next;
      next := next + 1;
      next := next % channelnum;
    }

    // Sends the selected tasks round the channels; the k-th goes to channel (start + k) mod n.
    method CtrlProcess(tasks: seq<int>) returns (ghost log: seq<(nat, int)>)
      requires tasks != [] && next < |channels| && ParentHolds(0) && ChildrenHold()
      modifies this`next, this`buffers
      ensures |log| == |tasks| && next < |channels| && |buffers| == |channels|
      ensures forall k | 0 <= k < |tasks| :: log[k] == ((old(next) + k) % |channels|, tasks[k])
      ensures old(next) == 0 ==> forall j | 0 <= j < |channels| :: IsShare(tasks, |channels|, j, ByChannel(log, j))
      ensures forall j | 0 <= j < |channels| :: buffers[j] == old(buffers[j]) + ByChannel(log, j)
    {
      log := [];
      ModUnique(next, 0, next, |channels|);
      for k := 0 to |tasks|
        invariant |log| == k && next == (old(next) + k) % |channels| && |buffers| == |channels|
        invariant forall i | 0 <= i < k :: log[i] == ((old(next) + i) % |channels|, tasks[i])
        invariant forall j | 0 <= j < |channels| :: buffers[j] == old(buffers[j]) + ByChannel(log, j)
      {
        NextSlot(old(next) + k, |channels|);
        var ch := NextChannel(|channels|);
        buffers := buffers[ch := buffers[ch] + [tasks[k]]];
        forall j | 0 <= j < |channels|
          ensures ByChannel(log + [(ch, tasks[k])], j) == ByChannel(log, j) + if ch == j then [tasks[k]] else []
        {
          ByChannelSnoc(log, (ch, tasks[k]), j);
        }
        log := log + [(ch, tasks[k])];
      }
      SharesSent(log, tasks, |channels|, old(next));
    }

    // work2 and what follows it in child k, once no write end of its pipe is left anywhere:
    // without that the last read would block.
    method Work(k: nat)
      requires k < |children| == |buffers| && ChildOwns(children[k], k) && children[k].pc.Read?
      requires W(k) !in parent.Values && forall j | 0 <= j < |children| :: W(k) !in children[j].table.Values
      modifies this`children, this`buffers
      ensures |children| == |old(children)| && |buffers| == |old(buffers)|
      ensures children[k].pc.Exited? && ChildOwns(children[k], k)
      ensures children[k].got == old(children[k].got) + old(buffers[k]) && buffers[k] == []
      ensures forall j | 0 <= j < |children| && j != k :: children[j] == old(children[j]) && buffers[j] == old(buffers[j])
    {
      var child, buffer := children[k], buffers[k];
      while buffer != []
        invariant child.pc.Read? && ChildOwns(child, k)
        invariant child.got + buffer == old(children[k].got) + old(buffers[k])
        decreases |buffer|
      {
        var command := buffer[0];
        buffer := buffer[1..];
        child := child.(got := child.got + [command]);
      }
      child := child.(table := map[], pc := Exited);
      children := children[k := child];
      buffers := buffers[k := buffer];
    }

    // Closes each channel and waits for its child, in index order: every wait ends, and each
    // child has executed exactly what was in its pipe.
    method CleanUpChannel()
      requires ParentHolds(0) && ChildrenHold() && Reading(0)
      modifies this
      ensures channels == old(channels) && ChildrenHold()
      ensures forall fd | fd in parent :: !parent[fd].W? && !parent[fd].R?
      ensures forall k | 0 <= k < |channels| ::
                children[k].pc.Exited? && children[k].got == old(children[k].got) + old(buffers[k])
    {
      for j := 0 to |channels|
        invariant channels == old(channels) && ParentHolds(j) && ChildrenHold() && Reading(j)
        invariant forall k | 0 <= k < j ::
                    children[k].pc.Exited? && children[k].got == old(children[k].got) + old(buffers[k])
        invariant forall k | j <= k < |channels| :: children[k] == old(children[k]) && buffers[k] == old(buffers[k])
      {
        parent := parent - {channels[j].wfd};
        forall i | 0 <= i < |children|
          ensures W(j) !in children[i].table.Values
        {
          assert ChildOwns(children[i], i);
        }
        Work(channels[j].id);
      }
    }
  }
}

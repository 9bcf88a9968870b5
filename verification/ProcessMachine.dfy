/**
  The process pool as a machine: a parent that creates pipes and children, sends commands and
  cleans up, and its children, each with its own descriptor table; one system call or line per
  step, in any order. `pipe` may hand out any two free descriptors. A pipe holds at most `pipeCap`
  commands; whole commands are read and written.
*/
module ProcessMachine {
  import opened Tally

  // What a descriptor refers to.
  datatype End = Other | R(pipe: nat) | W(pipe: nat)

  type Table = map<nat, End>

  datatype Channel = Channel(wfd: nat, id: nat)

  datatype ParentPc =
    | Pipe                                     // for (...) pipe(pipefd)
    | Fork(r: nat, w: nat)                     // fork()
    | CloseRead(r: nat, w: nat, id: nat)       // close(pipefd[0])
    | Record(w: nat, id: nat)                  // channels->push_back(...)
    | Next(left: nat)                          // while (times--) NextChannel(...)
    | Send(left: nat, ch: nat, cmd: int)       // write(...)
    | Close(j: nat)                            // channel.CloseChannel()
    | Await(j: nat)                            // channel.Wait()
    | Done

  datatype ChildPc =
    | CloseInherited(i: nat)                   // channel.CloseChannel() for the parent's channels
    | CloseOwn                                 // close(pipefd[1])
    | Dup                                      // dup2(pipefd[0], 0)
    | Read                                     // read(0, ...)
    | Execute(cmd: int)                        // ExcuteTask(command)
    | CloseEnd                                 // close(pipefd[0])
    | Exit                                     // exit(0)
    | Exited

  // A child: its descriptor table, the copies of the parent's variables fork left it, and the
  // commands it has executed.
  datatype Child = Child(table: Table, pc: ChildPc, channels: seq<Channel>, r: nat, w: nat, got: seq<int>)

  // `sent` lists the commands written to each pipe, `log` all dispatches in order.
  datatype State = State(
    num: nat, times: nat, pipeCap: nat,
    parent: Table, pc: ParentPc, channels: seq<Channel>, next: nat,
    children: seq<Child>, buffers: seq<seq<int>>,
    sent: seq<seq<int>>, log: seq<(nat, int)>)

  // The parameters are the system's choices: the descriptors pipe returns, the task selected.
  datatype Move = ParentStep(r: nat, w: nat, cmd: int) | ChildStep(k: nat)

  // Some process has the write end of the pipe open.
  predicate HasWriter(s: State, p: nat)
  {
    W(p) in s.parent.Values || exists k | 0 <= k < |s.children| :: W(p) in s.children[k].table.Values
  }

  predicate ReadsFrom(t: Table, p: nat)
  {
    0 in t && t[0] == R(p)
  }

  predicate WritesTo(t: Table, fd: nat, p: nat)
  {
    fd in t && t[fd] == W(p)
  }

  predicate ParentEnabled(s: State, r: nat, w: nat)
  {
    match s.pc
    case Pipe => |s.channels| >= s.num || (r != w && r !in s.parent && w !in s.parent)
    case Next(left) => left == 0 || s.channels != []
    case Send(_, ch, _) => ch < |s.channels| && ch < |s.buffers| && ch < |s.sent|
                           && WritesTo(s.parent, s.channels[ch].wfd, ch) && |s.buffers[ch]| < s.pipeCap
    case Await(j) => j < |s.channels| && s.channels[j].id < |s.children| && s.children[s.channels[j].id].pc.Exited?
    case Done => false
    case _ => true
  }

  // A read waits for a command or for the last write end to be closed. (That descriptor 0 is then
  // the read end of pipe k is part of the condition; no child is ever stuck for want of it.)
  predicate ChildEnabled(s: State, k: nat)
  {
    k < |s.children| &&
    match s.children[k].pc
    case Dup => s.children[k].r in s.children[k].table
    case Read => k < |s.buffers| && ReadsFrom(s.children[k].table, k) && (s.buffers[k] != [] || !HasWriter(s, k))
    case Exited => false
    case _ => true
  }

  predicate Enabled(s: State, m: Move)
  {
    match m
    case ParentStep(r, w, _) => ParentEnabled(s, r, w)
    case ChildStep(k) => ChildEnabled(s, k)
  }

  function ParentApply(s: State, r: nat, w: nat, cmd: int): State
    requires ParentEnabled(s, r, w)
  {
    match s.pc
    case Pipe =>
      if |s.channels| >= s.num then s.(pc := Next(s.times)) else
        var p := |s.buffers|;
        s.(parent := s.parent[r := R(p)][w := W(p)], pc := Fork(r, w),
           buffers := s.buffers + [[]], sent := s.sent + [[]])
    case Fork(r, w) =>
      s.(pc := CloseRead(r, w, |s.children|),
         children := s.children + [Child(s.parent, CloseInherited(0), s.channels, r, w, [])])
    case CloseRead(r, w, id) => s.(parent := s.parent - {r}, pc := Record(w, id))
    case Record(w, id) => s.(channels := s.channels + [Channel(w, id)], pc := Pipe)
    case Next(left) =>
      if left == 0 then s.(pc := Close(0)) else
        s.(next := (s.next + 1) % |s.channels|, pc := Send(left - 1, s.next, cmd))
    case Send(left, ch, c) =>
      s.(pc := Next(left), buffers := s.buffers[ch := s.buffers[ch] + [c]],
         sent := s.sent[ch := s.sent[ch] + [c]], log := s.log + [(ch, c)])
    case Close(j) =>
      if j < |s.channels| then s.(parent := s.parent - {s.channels[j].wfd}, pc := Await(j)) else s.(pc := Done)
    case Await(j) => s.(pc := Close(j + 1))
  }

  // One line of child k, on its own table and what it reads.
  function ChildLine(c: Child, buffer: seq<int>): (Child, seq<int>)
    requires c.pc.Dup? ==> c.r in c.table
  {
    match c.pc
    case CloseInherited(i) =>
      if i < |c.channels| then (c.(table := c.table - {c.channels[i].wfd}, pc := CloseInherited(i + 1)), buffer)
      else (c.(pc := CloseOwn), buffer)
    case CloseOwn => (c.(table := c.table - {c.w}, pc := Dup), buffer)
    case Dup => (c.(table := c.table[0 := c.table[c.r]], pc := Read), buffer)
    case Read => if buffer != [] then (c.(pc := Execute(buffer[0])), buffer[1..]) else (c.(pc := CloseEnd), buffer)
    case Execute(cmd) => (c.(got := c.got + [cmd], pc := Read), buffer)
    case CloseEnd => (c.(table := c.table - {c.r}, pc := Exit), buffer)
    case Exit => (c.(table := map[], pc := Exited), buffer)
    case Exited => (c, buffer)
  }

  function Apply(s: State, m: Move): State
    requires Enabled(s, m)
  {
    match m
    case ParentStep(r, w, cmd) => ParentApply(s, r, w, cmd)
    case ChildStep(k) =>
      if k < |s.buffers| then
        var (child, buffer) := ChildLine(s.children[k], s.buffers[k]);
        s.(children := s.children[k := child], buffers := s.buffers[k := buffer])
      else s.(children := s.children[k := ChildLine(s.children[k], []).0])
  }

  // main before CreateChannelAndSub: a table without pipe ends.
  predicate NoPipes(t: Table)
  {
    forall fd | fd in t :: t[fd] == Other
  }

  function Init(num: nat, times: nat, pipeCap: nat, table: Table): State
  {
    State(num, times, pipeCap, table, Pipe, [], 0, [], [], [], [])
  }

  function Run(s: State, ms: seq<Move>): Option<State>
  {
    if ms == [] then Some(s) else
      var before := Run(s, ms[..|ms| - 1]);
      var m := ms[|ms| - 1];
      if before.Some? && Enabled(before.value, m) then Some(Apply(before.value, m)) else None
  }
}

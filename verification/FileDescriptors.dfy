/**
 * File descriptors: every process's table of slots, the file accesses they point to and the pipes below,
 * with both layers of reference counts.  A missing key is an empty slot; addresses come from the allocator.
 */
module FileDescriptors {

  type Pid = int
  type Address = int

  const MAX_FDS: nat := 16

  datatype Option<T> = None | Some(value: T)

  datatype Flags = Flags(read: bool, write: bool, nonblocking: bool)

  datatype Access = Access(pipe: Address, flags: Flags, refCount: int)

  datatype Counts = Counts(refCount: int, writerCount: int)

  /** A slot of a process's table, or the reference the keyboard driver keeps. */
  datatype Slot = Fd(pid: Pid, fd: int) | Keyboard

  /** eof: slots with an end of file requested; procs: processes that are not terminated. */
  datatype State = State(files: map<Address, Access>, pipes: map<Address, Counts>, slots: map<Slot, Address>,
                         eof: set<Slot>, procs: set<Pid>)

  /** A system call's effect and what it returns. */
  datatype Reply = Reply(state: State, value: int)

  // ----- accesses and pipes

  /** An address the allocator can answer: nothing live is there. */
  predicate Unused(s: State, a: Address) {
    a !in s.files && a !in s.pipes
  }

  function NewPipe(s: State, pipe: Address): State {
    s.(pipes := s.pipes[pipe := Counts(0, 0)])
  }

  function FreePipe(s: State, pipe: Address): State {
    s.(pipes := s.pipes - {pipe})
  }

  function NewFileAccess(s: State, fa: Address, pipe: Address, flags: Flags): State {
    if pipe !in s.pipes then s.(files := s.files[fa := Access(pipe, flags, 0)])
    else
      var c := s.pipes[pipe];
      s.(files := s.files[fa := Access(pipe, flags, 0)],
         pipes := s.pipes[pipe := Counts(c.refCount + 1, c.writerCount + if flags.write then 1 else 0)])
  }

  function RemovePipeWriter(s: State, pipe: Address): State {
    if pipe !in s.pipes then s
    else s.(pipes := s.pipes[pipe := s.pipes[pipe].(writerCount := s.pipes[pipe].writerCount - 1)])
  }

  function RemovePipeRef(s: State, pipe: Address): State {
    if pipe !in s.pipes then s
    else if s.pipes[pipe].refCount - 1 <= 0 then FreePipe(s, pipe)
    else s.(pipes := s.pipes[pipe := s.pipes[pipe].(refCount := s.pipes[pipe].refCount - 1)])
  }

  function FreeFileAccess(s: State, fa: Address): State {
    if fa !in s.files then s
    else
      var a := s.files[fa];
      var s1 := if a.flags.write then RemovePipeWriter(s, a.pipe) else s;
      var s2 := RemovePipeRef(s1, a.pipe);
      s2.(files := s2.files - {fa})
  }

  function AddFileRef(s: State, fa: Address): State {
    if fa !in s.files then s
    else s.(files := s.files[fa := s.files[fa].(refCount := s.files[fa].refCount + 1)])
  }

  function RemoveFileRef(s: State, fa: Address): State {
    if fa !in s.files then s
    else
      var n := s.files[fa].refCount - 1;
      var s' := s.(files := s.files[fa := s.files[fa].(refCount := n)]);
      if n <= 0 then FreeFileAccess(s', fa) else s'
  }

  // ----- one process's table

  predicate IsValidFd(fd: int) {
    0 <= fd < MAX_FDS
  }

  predicate IsOpen(s: State, p: Pid, fd: int) {
    IsValidFd(fd) && Fd(p, fd) in s.slots
  }

  /** Point an empty slot at an access. */
  function Fill(s: State, k: Slot, fa: Address): State {
    AddFileRef(s.(slots := s.slots[k := fa], eof := s.eof - {k}), fa)
  }

  function OpenFd(s: State, p: Pid, fa: Address, fd: int): Reply {
    if p !in s.procs || !IsValidFd(fd) || IsOpen(s, p, fd) then Reply(s, -1)
    else Reply(Fill(s, Fd(p, fd), fa), fd)
  }

  /** The first empty slot from i on, or MAX_FDS. */
  function FirstClosed(s: State, p: Pid, i: nat): (fd: nat)
    requires i <= MAX_FDS
    ensures i <= fd <= MAX_FDS
    ensures fd < MAX_FDS ==> Fd(p, fd) !in s.slots
    ensures forall j :: i <= j < fd ==> Fd(p, j) in s.slots
    decreases MAX_FDS - i
  {
    if i == MAX_FDS || Fd(p, i) !in s.slots then i else FirstClosed(s, p, i + 1)
  }

  function AddFd(s: State, p: Pid, fa: Address): Reply {
    if p !in s.procs || FirstClosed(s, p, 0) == MAX_FDS then Reply(s, -1)
    else OpenFd(s, p, fa, FirstClosed(s, p, 0))
  }

  function CloseFd(s: State, p: Pid, fd: int): Reply {
    if p !in s.procs || !IsOpen(s, p, fd) then Reply(s, -1)
    else
      var k := Fd(p, fd);
      Reply(RemoveFileRef(s.(slots := s.slots - {k}, eof := s.eof - {k}), s.slots[k]), 0)
  }

  function DupFd(s: State, p: Pid, oldFd: int, newFd: int): Reply {
    if p !in s.procs || !IsValidFd(newFd) then Reply(s, -1)
    else if oldFd == newFd then Reply(s, newFd)
    else if !IsOpen(s, p, oldFd) then Reply(CloseFd(s, p, newFd).state, newFd)
    else
      var fa := s.slots[Fd(p, oldFd)];
      var s' := if IsOpen(s, p, newFd) then CloseFd(s, p, newFd).state else s;
      Reply(Fill(s', Fd(p, newFd), fa), newFd)
  }

  /** reopenFd; mem is the allocator's answer for the clone. */
  function ReopenFd(s: State, p: Pid, fd: int, mem: Option<Address>): Reply {
    if p !in s.procs || !IsOpen(s, p, fd) || s.slots[Fd(p, fd)] !in s.files || mem.None? then Reply(s, -1)
    else
      var a := s.files[s.slots[Fd(p, fd)]];
      var added := AddFd(NewFileAccess(s, mem.value, a.pipe, a.flags), p, mem.value);
      if added.value < 0 then Reply(RemoveFileRef(added.state, mem.value), added.value) else added
  }

  function RequestEof(s: State, p: Pid, fd: int): Reply {
    if p !in s.procs || !IsOpen(s, p, fd) then Reply(s, -1) else Reply(s.(eof := s.eof + {Fd(p, fd)}), 0)
  }

  // ----- whole tables

  /** Close the slots of p from i on. */
  function CloseFrom(s: State, p: Pid, i: nat): State
    requires i <= MAX_FDS
    decreases MAX_FDS - i
  {
    if i == MAX_FDS then s
    else CloseFrom(if Fd(p, i) in s.slots then CloseFd(s, p, i).state else s, p, i + 1)
  }

  /** copyFdTable from slot i on. */
  function CopyFrom(s: State, target: Pid, source: Pid, i: nat): State
    requires i <= MAX_FDS
    decreases MAX_FDS - i
  {
    if i == MAX_FDS then s
    else
      var s1 := if Fd(target, i) in s.slots then CloseFd(s, target, i).state else s;
      var s2 := if Fd(source, i) in s1.slots then OpenFd(s1, target, s1.slots[Fd(source, i)], i).state else s1;
      CopyFrom(s2, target, source, i + 1)
  }

  /** What to do to one descriptor of a new process: close it (target -1) or make it a copy of target. */
  datatype Override = Override(affected: int, target: int)

  function ApplyOverrides(s: State, p: Pid, overrides: seq<Override>): State
    decreases |overrides|
  {
    if overrides == [] then s
    else
      var o := overrides[0];
      var s' := if o.target == -1 then CloseFd(s, p, o.affected).state else DupFd(s, p, o.target, o.affected).state;
      ApplyOverrides(s', p, overrides[1..])
  }

  /** A new process inherits its parent's descriptors and then has the overrides applied. */
  function Spawn(s: State, parent: Pid, child: Option<Pid>, overrides: seq<Override>): Reply {
    if child.None? || child.value in s.procs then Reply(s, -1)
    else
      var s1 := s.(procs := s.procs + {child.value});
      var s2 := CopyFrom(s1, child.value, parent, 0);
      Reply(ApplyOverrides(s2, child.value, overrides), child.value)
  }

  /** A terminated process keeps no descriptor. */
  function Terminate(s: State, p: Pid): State {
    if p !in s.procs then s
    else
      var s' := CloseFrom(s, p, 0);
      s'.(procs := s'.procs - {p})
  }

  // ----- sysPipe

  /** The allocator's answers for the pipe and its two ends. */
  datatype PipeMemory = PipeMemory(pipe: Option<Address>, readEnd: Option<Address>, writeEnd: Option<Address>)

  datatype PipeReply = PipeReply(state: State, value: int, readFd: int, writeFd: int)

  const READ_ONLY: Flags := Flags(true, false, false)
  const WRITE_ONLY: Flags := Flags(false, true, false)

  function MakeEnd(s: State, pipe: Address, flags: Flags, mem: Option<Address>): State {
    if mem.None? then s else NewFileAccess(s, mem.value, pipe, flags)
  }

  function FreeEnd(s: State, mem: Option<Address>): State {
    if mem.None? then s else FreeFileAccess(s, mem.value)
  }

  function SysPipe(s: State, p: Pid, mem: PipeMemory): PipeReply {
    if mem.pipe.None? then PipeReply(s, -1, -1, -1)
    else
      var pipe := mem.pipe.value;
      var s1 := MakeEnd(NewPipe(s, pipe), pipe, READ_ONLY, mem.readEnd);
      var s2 := MakeEnd(s1, pipe, WRITE_ONLY, mem.writeEnd);
      if mem.readEnd.None? || mem.writeEnd.None? then
        var s3 := FreeEnd(FreeEnd(s2, mem.readEnd), mem.writeEnd);
        PipeReply(if mem.readEnd.None? && mem.writeEnd.None? then FreePipe(s3, pipe) else s3, -1, -1, -1)
      else
        var r := AddFd(s2, p, mem.readEnd.value);
        if r.value < 0 then PipeReply(FreeEnd(FreeEnd(s2, mem.readEnd), mem.writeEnd), -1, -1, -1)
        else
          var w := AddFd(r.state, p, mem.writeEnd.value);
          if w.value < 0 then PipeReply(FreeEnd(CloseFd(r.state, p, r.value).state, mem.writeEnd), -1, -1, -1)
          else PipeReply(w.state, 0, r.value, w.value)
  }

  // ----- system calls and runs

  datatype Call =
    | Close(pid: Pid, fd: int)
    | Dup(pid: Pid, oldFd: int, newFd: int)
    | Reopen(pid: Pid, fd: int, mem: Option<Address>)
    | MakePipe(pid: Pid, memory: PipeMemory)
    | Create(pid: Pid, child: Option<Pid>, overrides: seq<Override>)
    | Exit(pid: Pid)
    | Eof(pid: Pid, fd: int)

  predicate UnusedAnswer(s: State, mem: Option<Address>) {
    mem.Some? ==> Unused(s, mem.value)
  }

  /** Three allocations in a row answer three different unused addresses. */
  predicate UnusedAnswers(s: State, m: PipeMemory) {
    && UnusedAnswer(s, m.pipe) && UnusedAnswer(s, m.readEnd) && UnusedAnswer(s, m.writeEnd)
    && (m.pipe.Some? ==> m.pipe != m.readEnd && m.pipe != m.writeEnd)
    && (m.readEnd.Some? ==> m.readEnd != m.writeEnd)
  }

  /** Calls are made by processes that are not terminated; the allocator answers unused addresses. */
  predicate CanCall(s: State, c: Call) {
    c.pid in s.procs &&
    match c
    case Reopen(_, _, mem) => UnusedAnswer(s, mem)
    case MakePipe(_, mem) => UnusedAnswers(s, mem)
    case _ => true
  }

  function Perform(s: State, c: Call): State {
    match c
    case Close(p, fd) => CloseFd(s, p, fd).state
    case Dup(p, oldFd, newFd) => DupFd(s, p, oldFd, newFd).state
    case Reopen(p, fd, mem) => ReopenFd(s, p, fd, mem).state
    case MakePipe(p, mem) => SysPipe(s, p, mem).state
    case Create(p, child, overrides) => Spawn(s, p, child, overrides).state
    case Exit(p) => Terminate(s, p)
    case Eof(p, fd) => RequestEof(s, p, fd).state
  }

  /** A call that cannot be made does not happen. */
  function Attempt(s: State, c: Call): State {
    if CanCall(s, c) then Perform(s, c) else s
  }

  /** A sequence of calls. */
  function PerformAll(s: State, calls: seq<Call>): State
    decreases |calls|
  {
    if calls == [] then s
    else PerformAll(Attempt(s, calls[0]), calls[1..])
  }

  /** The keyboard pipe: init reads it at descriptor 0 and the driver keeps the end that writes. */
  function Boot(init: Pid, pipe: Address, readEnd: Address, writeEnd: Address): State {
    var s := NewPipe(State(map[], map[], map[], {}, {init}), pipe);
    var s1 := NewFileAccess(NewFileAccess(s, readEnd, pipe, READ_ONLY), writeEnd, pipe, WRITE_ONLY);
    Fill(AddFd(s1, init, readEnd).state, Keyboard, writeEnd)
  }
}

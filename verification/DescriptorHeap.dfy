/** The kernel's file accesses, pipes and descriptor tables, changed in place; every method does what its function
    says. */
module DescriptorHeap {
  import opened FileDescriptors
  import opened FileTables

  class Kernel {
    var files: map<Address, Access>
    var pipes: map<Address, Counts>
    var slots: map<Slot, Address>
    var eof: set<Slot>
    var procs: set<Pid>

    function Abs(): State
      reads this
    {
      State(files, pipes, slots, eof, procs)
    }

    constructor (s: State)
      ensures Abs() == s
    {
      files, pipes, slots, eof, procs := s.files, s.pipes, s.slots, s.eof, s.procs;
    }

    // ----- accesses

    method AddPipeRef(pipe: Address)
      requires pipe in pipes
      modifies this
      ensures var c := old(pipes)[pipe];
        Abs() == old(Abs()).(pipes := old(pipes)[pipe := c.(refCount := c.refCount + 1)])
    {
      pipes := pipes[pipe := pipes[pipe].(refCount := pipes[pipe].refCount + 1)];
    }

    method AddPipeWriter(pipe: Address)
      requires pipe in pipes
      modifies this
      ensures var c := old(pipes)[pipe];
        Abs() == old(Abs()).(pipes := old(pipes)[pipe := c.(writerCount := c.writerCount + 1)])
    {
      pipes := pipes[pipe := pipes[pipe].(writerCount := pipes[pipe].writerCount + 1)];
    }

    method NewFileAccess(fa: Address, pipe: Address, flags: Flags)
      modifies this
      ensures Abs() == FileDescriptors.NewFileAccess(old(Abs()), fa, pipe, flags)
    {
      files := files[fa := Access(pipe, flags, 0)];
      if pipe in pipes {
        AddPipeRef(pipe);
        if flags.write {
          AddPipeWriter(pipe);
        }
      }
    }

    method RemovePipeWriter(pipe: Address)
      modifies this
      ensures Abs() == FileDescriptors.RemovePipeWriter(old(Abs()), pipe)
    {
      if pipe in pipes {
        pipes := pipes[pipe := pipes[pipe].(writerCount := pipes[pipe].writerCount - 1)];
      }
    }

    method RemovePipeRef(pipe: Address)
      modifies this
      ensures Abs() == FileDescriptors.RemovePipeRef(old(Abs()), pipe)
    {
      if pipe in pipes {
        ghost var was := pipes;
        pipes := pipes[pipe := pipes[pipe].(refCount := pipes[pipe].refCount - 1)];
        if pipes[pipe].refCount <= 0 {
          pipes := pipes - {pipe};
          assert pipes == was - {pipe};
        }
      }
    }

    method FreeFileAccess(fa: Address)
      modifies this
      ensures Abs() == FileDescriptors.FreeFileAccess(old(Abs()), fa)
    {
      if fa !in files {
        return;
      }
      var pipe := files[fa].pipe;
      if files[fa].flags.write {
        RemovePipeWriter(pipe);
      }
      RemovePipeRef(pipe);
      files := files - {fa};
    }

    method AddFileRef(fa: Address)
      modifies this
      ensures Abs() == FileDescriptors.AddFileRef(old(Abs()), fa)
    {
      if fa in files {
        files := files[fa := files[fa].(refCount := files[fa].refCount + 1)];
      }
    }

    method RemoveFileRef(fa: Address)
      modifies this
      ensures Abs() == FileDescriptors.RemoveFileRef(old(Abs()), fa)
    {
      if fa in files {
        files := files[fa := files[fa].(refCount := files[fa].refCount - 1)];
        if files[fa].refCount <= 0 {
          FreeFileAccess(fa);
        }
      }
    }

    // ----- one table

    method OpenFd(p: Pid, fa: Address, fd: int) returns (r: int)
      modifies this
      ensures Reply(Abs(), r) == FileDescriptors.OpenFd(old(Abs()), p, fa, fd)
    {
      if p !in procs || !IsValidFd(fd) || IsOpen(Abs(), p, fd) {
        return -1;
      }
      slots := slots[Fd(p, fd) := fa];
      eof := eof - {Fd(p, fd)};
      AddFileRef(fa);
      return fd;
    }

    method AddFd(p: Pid, fa: Address) returns (r: int)
      modifies this
      ensures Reply(Abs(), r) == FileDescriptors.AddFd(old(Abs()), p, fa)
    {
      if p !in procs {
        return -1;
      }
      for i := 0 to MAX_FDS
        invariant Abs() == old(Abs()) && FirstClosed(Abs(), p, 0) == FirstClosed(Abs(), p, i)
      {
        if Fd(p, i) !in slots {
          r := OpenFd(p, fa, i);
          return;
        }
      }
      return -1;
    }

    method CloseFd(p: Pid, fd: int) returns (r: int)
      modifies this
      ensures Reply(Abs(), r) == FileDescriptors.CloseFd(old(Abs()), p, fd)
    {
      if p !in procs || !IsOpen(Abs(), p, fd) {
        return -1;
      }
      var fa := slots[Fd(p, fd)];
      slots := slots - {Fd(p, fd)};
      eof := eof - {Fd(p, fd)};
      RemoveFileRef(fa);
      return 0;
    }

    method DupFd(p: Pid, oldFd: int, newFd: int) returns (r: int)
      modifies this
      ensures Reply(Abs(), r) == FileDescriptors.DupFd(old(Abs()), p, oldFd, newFd)
    {
      if p !in procs || !IsValidFd(newFd) {
        return -1;
      }
      if oldFd == newFd {
        return newFd;
      }
      if !IsOpen(Abs(), p, oldFd) {
        var closed := CloseFd(p, newFd);
        return newFd;
      }
      var fa := slots[Fd(p, oldFd)];
      if IsOpen(Abs(), p, newFd) {
        var closed := CloseFd(p, newFd);
      }
      slots := slots[Fd(p, newFd) := fa];
      eof := eof - {Fd(p, newFd)};
      AddFileRef(fa);
      return newFd;
    }

    method ReopenFd(p: Pid, fd: int, mem: Option<Address>) returns (r: int)
      modifies this
      ensures Reply(Abs(), r) == FileDescriptors.ReopenFd(old(Abs()), p, fd, mem)
    {
      if p !in procs || !IsOpen(Abs(), p, fd) || slots[Fd(p, fd)] !in files || mem.None? {
        return -1;
      }
      var a := files[slots[Fd(p, fd)]];
      NewFileAccess(mem.value, a.pipe, a.flags);
      r := AddFd(p, mem.value);
      if r < 0 {
        RemoveFileRef(mem.value);
      }
    }

    // ----- whole tables

    method CloseAllFDs(p: Pid)
      modifies this
      ensures Abs() == CloseFrom(old(Abs()), p, 0)
    {
      for i := 0 to MAX_FDS
        invariant CloseFrom(Abs(), p, i) == CloseFrom(old(Abs()), p, 0)
      {
        if Fd(p, i) in slots {
          var r := CloseFd(p, i);
        }
      }
    }

    method CopyFdTable(target: Pid, source: Pid)
      modifies this
      ensures Abs() == CopyFrom(old(Abs()), target, source, 0)
    {
      for i := 0 to MAX_FDS
        invariant CopyFrom(Abs(), target, source, i) == CopyFrom(old(Abs()), target, source, 0)
      {
        ghost var before := Abs();
        if Fd(target, i) in slots {
          var r := CloseFd(target, i);
        }
        if Fd(source, i) in slots {
          var r := OpenFd(target, slots[Fd(source, i)], i);
        }
        assert Abs() == CopySlot(before, target, source, i);
      }
    }

    method StartNewProcessWithFds(parent: Pid, child: Option<Pid>, overrides: seq<Override>) returns (r: int)
      modifies this
      ensures Reply(Abs(), r) == Spawn(old(Abs()), parent, child, overrides)
    {
      if child.None? || child.value in procs {
        return -1;
      }
      r := child.value;
      procs := procs + {r};
      CopyFdTable(r, parent);
      ghost var copied := Abs();
      for i := 0 to |overrides|
        invariant ApplyOverrides(Abs(), r, overrides[i..]) == ApplyOverrides(copied, r, overrides)
      {
        var o := overrides[i];
        ghost var before := Abs();
        assert overrides[i..][0] == o && overrides[i..][1..] == overrides[i + 1..];
        if o.target == -1 {
          var closed := CloseFd(r, o.affected);
        } else {
          var duplicated := DupFd(r, o.target, o.affected);
        }
        assert Abs() == ApplyOverride(before, r, o);
      }
      assert overrides[|overrides|..] == [];
    }

    method TerminateProcess(p: Pid)
      modifies this
      ensures Abs() == Terminate(old(Abs()), p)
    {
      if p in procs {
        CloseAllFDs(p);
        procs := procs - {p};
      }
    }

    method RequestEof(p: Pid, fd: int) returns (r: int)
      modifies this
      ensures Reply(Abs(), r) == FileDescriptors.RequestEof(old(Abs()), p, fd)
    {
      if p !in procs || !IsOpen(Abs(), p, fd) {
        return -1;
      }
      eof := eof + {Fd(p, fd)};
      return 0;
    }

    method SysPipe(p: Pid, mem: PipeMemory) returns (r: int, readFd: int, writeFd: int)
      modifies this
      ensures PipeReply(Abs(), r, readFd, writeFd) == FileDescriptors.SysPipe(old(Abs()), p, mem)
    {
      r, readFd, writeFd := -1, -1, -1;
      if mem.pipe.None? {
        return;
      }
      var pipe := mem.pipe.value;
      pipes := pipes[pipe := Counts(0, 0)];
      if mem.readEnd.Some? {
        NewFileAccess(mem.readEnd.value, pipe, READ_ONLY);
      }
      if mem.writeEnd.Some? {
        NewFileAccess(mem.writeEnd.value, pipe, WRITE_ONLY);
      }
      if mem.readEnd.None? || mem.writeEnd.None? {
        if mem.readEnd.Some? {
          FreeFileAccess(mem.readEnd.value);
        }
        if mem.writeEnd.Some? {
          FreeFileAccess(mem.writeEnd.value);
        }
        if mem.readEnd.None? && mem.writeEnd.None? {
          pipes := pipes - {pipe};
        }
        return;
      }
      var a := AddFd(p, mem.readEnd.value);
      if a < 0 {
        FreeFileAccess(mem.readEnd.value);
        FreeFileAccess(mem.writeEnd.value);
        return;
      }
      var b := AddFd(p, mem.writeEnd.value);
      if b < 0 {
        var closed := CloseFd(p, a);
        FreeFileAccess(mem.writeEnd.value);
        return;
      }
      return 0, a, b;
    }

    /** Calls made by other processes meanwhile. */
    method PerformAll(calls: seq<Call>)
      modifies this
      ensures Abs() == FileDescriptors.PerformAll(old(Abs()), calls)
    {
      ghost var s := Abs();
      for i := 0 to |calls|
        invariant FileDescriptors.PerformAll(Abs(), calls[i..]) == FileDescriptors.PerformAll(s, calls)
      {
        assert calls[i..][0] == calls[i] && calls[i..][1..] == calls[i + 1..];
        if CanCall(Abs(), calls[i]) {
          Do(calls[i]);
        }
      }
      assert calls[|calls|..] == [];
    }

    method Do(c: Call)
      modifies this
      ensures Abs() == Perform(old(Abs()), c)
    {
      match c
      case Close(p, fd) => var r := CloseFd(p, fd);
      case Dup(p, oldFd, newFd) => var r := DupFd(p, oldFd, newFd);
      case Reopen(p, fd, mem) => var r := ReopenFd(p, fd, mem);
      case MakePipe(p, mem) => var r, a, b := SysPipe(p, mem);
      case Create(p, child, overrides) => var r := StartNewProcessWithFds(p, child, overrides);
      case Exit(p) => TerminateProcess(p);
      case Eof(p, fd) => var r := RequestEof(p, fd);
    }
  }
}

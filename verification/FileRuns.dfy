/** Runs of system calls by any processes in any order. */
module FileRuns {
  import opened FileDescriptors
  import opened FileInvariant
  import opened FileCalls
  import opened FilePipes
  import opened FileTables

  lemma EofKeepsGood(s: State, p: Pid, fd: int)
    requires Good(s)
    ensures var t := RequestEof(s, p, fd).state;
      Good(t) && Inherits(s, t) && t.slots == s.slots && t.procs == s.procs
  {
    var t := RequestEof(s, p, fd).state;
    SameHolders(s, t);
    SameAccesses(s, t);
  }

  lemma CallKeepsGood(s: State, c: Call)
    requires Good(s) && CanCall(s, c)
    ensures Good(Perform(s, c))
  {
    match c
    case Close(p, fd) => CloseKeepsSound(s, p, fd, {});
    case Dup(p, oldFd, newFd) => DupKeepsGood(s, p, oldFd, newFd);
    case Reopen(p, fd, mem) => ReopenKeepsGood(s, p, fd, mem);
    case MakePipe(p, mem) =>
      if PipeFits(s, p, mem) {
        PipeKeepsGood(s, p, mem);
      } else {
        FailedPipeChangesNothing(s, p, mem);
      }
    case Create(p, child, overrides) => SpawnKeepsGood(s, p, child, overrides);
    case Exit(p) => TerminateKeepsGood(s, p);
    case Eof(p, fd) => EofKeepsGood(s, p, fd);
  }

  lemma {:induction false} RunKeepsGood(s: State, calls: seq<Call>)
    requires Good(s)
    ensures Good(PerformAll(s, calls))
    decreases |calls|
  {
    if calls != [] {
      if CanCall(s, calls[0]) {
        CallKeepsGood(s, calls[0]);
      }
      RunKeepsGood(Attempt(s, calls[0]), calls[1..]);
    }
  }

  lemma BootIsGood(init: Pid, pipe: Address, readEnd: Address, writeEnd: Address)
    requires pipe != readEnd && pipe != writeEnd && readEnd != writeEnd
    ensures var s := Boot(init, pipe, readEnd, writeEnd);
      Good(s) && s.slots == map[Fd(init, 0) := readEnd, Keyboard := writeEnd]
  {
    var s0 := State(map[], map[], map[], {}, {init});
    var m := PipeMemory(Some(pipe), Some(readEnd), Some(writeEnd));
    BothEndsInHand(s0, m);
    var t := NewFileAccess(NewFileAccess(NewPipe(s0, pipe), readEnd, pipe, READ_ONLY), writeEnd, pipe, WRITE_ONLY);
    AddReadEnd(s0, t, init, readEnd, writeEnd);
    var a := AddFd(t, init, readEnd).state;
    FillKeepsSound(a, Keyboard, writeEnd, {writeEnd});
    assert {writeEnd} - {writeEnd} == {};
  }

  /** After any calls since boot every count is exact: an access has as many references as slots hold it (the keyboard
      driver's included), a pipe as many as its accesses and as many writers as its writable ones, and all are
      positive. */
  lemma EveryRunIsExact(init: Pid, pipe: Address, readEnd: Address, writeEnd: Address, calls: seq<Call>)
    requires pipe != readEnd && pipe != writeEnd && readEnd != writeEnd
    ensures var s := PerformAll(Boot(init, pipe, readEnd, writeEnd), calls);
      && (forall k :: k in s.slots ==> s.slots[k] in s.files)
      && (forall fa :: fa in s.files ==> s.files[fa].pipe in s.pipes && s.files[fa].refCount == |Holders(s, fa)| > 0)
      && (forall q :: q in s.pipes ==> s.pipes[q].refCount == |AccessesOf(s, q)| > 0)
      && (forall q :: q in s.pipes ==> s.pipes[q].writerCount == |WritersOf(s, q)|)
  {
    BootIsGood(init, pipe, readEnd, writeEnd);
    RunKeepsGood(Boot(init, pipe, readEnd, writeEnd), calls);
  }

  // ----- what one call undoes of another

  /** Closing a reopened descriptor restores every table and count. */
  lemma ReopenThenCloseIsIdentity(s: State, p: Pid, fd: int, mem: Option<Address>)
    requires Good(s) && p in s.procs && UnusedAnswer(s, mem)
    ensures var r := ReopenFd(s, p, fd, mem);
      r.value >= 0 ==> CloseFd(r.state, p, r.value).state == s
  {
    ReopenKeepsGood(s, p, fd, mem);
    var r := ReopenFd(s, p, fd, mem);
    if r.value >= 0 {
      CloseKeepsSound(r.state, p, r.value, {});
      var t := CloseFd(r.state, p, r.value).state;
      assert t.slots == s.slots && t.eof == s.eof by {
        assert Fd(p, r.value) !in s.slots && Fd(p, r.value) !in s.eof;
      }
      BackAgain(s, t);
    }
  }

  /** Closing both ends of a new pipe restores every table and count. */
  lemma PipeThenClosesIsIdentity(s: State, p: Pid, m: PipeMemory)
    requires Good(s) && p in s.procs && UnusedAnswers(s, m)
    ensures var r := SysPipe(s, p, m);
      r.value == 0 ==> CloseFd(CloseFd(r.state, p, r.readFd).state, p, r.writeFd).state == s
  {
    if PipeFits(s, p, m) {
      PipeKeepsGood(s, p, m);
      var r := SysPipe(s, p, m);
      CloseTwo(s, r.state, p, r.readFd, r.writeFd, m);
    } else {
      FailedPipeChangesNothing(s, p, m);
    }
  }

  lemma CloseTwo(s: State, t: State, p: Pid, a: nat, b: nat, m: PipeMemory)
    requires Good(s) && Good(t) && m.pipe.Some? && m.readEnd.Some? && m.writeEnd.Some? && PipeMade(s, t, p, a, b, m)
    ensures CloseFd(CloseFd(t, p, a).state, p, b).state == s
  {
    CloseBoth(t, p, a, b);
    var u := CloseFd(CloseFd(t, p, a).state, p, b).state;
    assert Fd(p, a) !in s.eof && Fd(p, b) !in s.eof;
    AddTwoTakeTwo(s.slots, Fd(p, a), m.readEnd.value, Fd(p, b), m.writeEnd.value);
    assert u.eof == s.eof;
    BackAgain(s, u);
  }

  lemma AddTwoTakeTwo(m: map<Slot, Address>, k: Slot, v: Address, k': Slot, v': Address)
    requires k !in m && k' !in m
    ensures m[k := v][k' := v'] - {k} - {k'} == m
  {
  }

  lemma CloseBoth(t: State, p: Pid, a: int, b: int)
    requires Good(t)
    ensures var u := CloseFd(CloseFd(t, p, a).state, p, b).state;
      && Good(u) && Inherits(t, u) && u.procs == t.procs
      && u.slots == t.slots - {Fd(p, a)} - {Fd(p, b)} && u.eof == t.eof - {Fd(p, a)} - {Fd(p, b)}
  {
    CloseKeepsSound(t, p, a, {});
    var t1 := CloseFd(t, p, a).state;
    CloseKeepsSound(t1, p, b, {});
    InheritsThrough(t, t1, CloseFd(t1, p, b).state);
  }

  /** Whatever a new process was given, its termination takes back: every table and count is as before. */
  lemma SpawnThenTerminateIsIdentity(s: State, parent: Pid, child: Pid, overrides: seq<Override>)
    requires Good(s) && parent in s.procs && child !in s.procs
    ensures var t := Terminate(Spawn(s, parent, Some(child), overrides).state, child);
      t.files == s.files && t.pipes == s.pipes && t.slots == s.slots && t.procs == s.procs
  {
    var r := Spawn(s, parent, Some(child), overrides).state;
    SpawnKeepsGood(s, parent, Some(child), overrides);
    TerminateKeepsGood(r, child);
    var t := Terminate(r, child);
    SlotsAreBack(s, r, t, child);
    InheritsThrough(s, r, t);
    assert forall k :: k in s.slots ==> t.slots[k] in t.files;
    CountsAreDetermined(s, t);
  }

  lemma SlotsAreBack(s: State, r: State, t: State, child: Pid)
    requires Good(s) && child !in s.procs && OnlyTableOf(child, s, r)
    requires forall k :: k in t.slots <==> k in r.slots && !(k.Fd? && k.pid == child)
    requires forall k :: k in t.slots ==> t.slots[k] == r.slots[k]
    ensures t.slots == s.slots
  {
    assert forall k :: k in s.slots ==> SlotOk(s, k);
    assert forall k :: k in t.slots.Keys <==> k in s.slots.Keys;
  }

  // ----- a call changes nothing of other processes

  ghost predicate OwnedBy(k: Slot, p: Pid) {
    k.Fd? && k.pid == p
  }

  ghost predicate KeepsSlot(s: State, t: State, k: Slot)
    requires k in s.slots
  {
    k in t.slots && t.slots[k] == s.slots[k] && s.slots[k] in s.files && s.slots[k] in t.files
        && SameAccess(s, t, s.slots[k])
  }

  /** A process's table, and what its descriptors lead to, is changed by its own calls only. */
  lemma CallIsLocal(s: State, c: Call, k: Slot)
    requires Good(s) && CanCall(s, c) && !OwnedBy(k, c.pid) && (k.Fd? ==> k.pid in s.procs)
    ensures k in s.slots ==> KeepsSlot(s, Perform(s, c), k)
    ensures k in Perform(s, c).slots ==> k in s.slots
  {
    CallKeepsGood(s, c);
    var t := Perform(s, c);
    match c
    case Close(p, fd) => CloseKeepsSound(s, p, fd, {});
    case Dup(p, oldFd, newFd) => DupKeepsGood(s, p, oldFd, newFd);
    case Reopen(p, fd, mem) => ReopenKeepsGood(s, p, fd, mem);
    case MakePipe(p, mem) =>
      if PipeFits(s, p, mem) {
        PipeKeepsGood(s, p, mem);
      } else {
        FailedPipeChangesNothing(s, p, mem);
      }
    case Create(p, child, overrides) => SpawnKeepsGood(s, p, child, overrides);
    case Exit(p) => TerminateKeepsGood(s, p);
    case Eof(p, fd) => EofKeepsGood(s, p, fd);
  }
}

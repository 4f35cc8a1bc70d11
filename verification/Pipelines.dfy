/** Who can still write to a pipe, and when its readers see the end of file. */
module Pipelines {
  import opened FileDescriptors
  import opened FileInvariant
  import opened FileCalls
  import opened FilePipes
  import opened FileTables
  import opened FileRuns

  /** The slot gives write access to the pipe. */
  predicate Writes(s: State, k: Slot, pipe: Address) {
    k in s.slots && s.slots[k] in s.files && s.files[s.slots[k]].pipe == pipe && s.files[s.slots[k]].flags.write
  }

  ghost predicate OnlyWriter(s: State, p: Pid, pipe: Address) {
    forall k :: Writes(s, k, pipe) ==> OwnedBy(k, p)
  }

  /** A pipe's writer count is zero exactly when no slot of any process gives write access to it. */
  lemma EndOfFileExactly(s: State, pipe: Address)
    requires Good(s) && pipe in s.pipes
    ensures s.pipes[pipe].writerCount == 0 <==> forall k :: !Writes(s, k, pipe)
  {
    var writers := WritersOf(s, pipe);
    if k :| Writes(s, k, pipe) {
      assert s.slots[k] in writers;
    }
    if |writers| > 0 {
      NotEmpty(writers);
      var fa :| fa in writers;
      var k := HasHolder(s, fa);
      assert Writes(s, k, pipe);
    }
  }

  /** Whatever a new process holds after the overrides, it was given by its parent. */
  lemma {:induction false} OverrideOrigin(s: State, p: Pid, overrides: seq<Override>, k: Slot) returns (k0: Slot)
    requires Good(s) && p in s.procs && OwnedBy(k, p) && k in ApplyOverrides(s, p, overrides).slots
    ensures OwnedBy(k0, p) && k0 in s.slots && s.slots[k0] == ApplyOverrides(s, p, overrides).slots[k]
    decreases |overrides|
  {
    if overrides == [] {
      k0 := k;
    } else {
      var o, s1 := overrides[0], ApplyOverride(s, p, overrides[0]);
      OverrideKeepsGood(s, p, o);
      k0 := OverrideOrigin(s1, p, overrides[1..], k);
      if k0 == Fd(p, o.affected) && o.target != -1 && IsValidFd(o.affected) && o.affected != o.target {
        k0 := Fd(p, o.target);
      }
    }
  }

  lemma SpawnOrigin(s: State, p: Pid, child: Pid, overrides: seq<Override>, k: Slot) returns (k0: Slot)
    requires Good(s) && p in s.procs && child !in s.procs && OwnedBy(k, child)
    requires k in Spawn(s, p, Some(child), overrides).state.slots
    ensures OwnedBy(k0, p) && k0 in s.slots && s.slots[k0] == Spawn(s, p, Some(child), overrides).state.slots[k]
  {
    Inherited(s, p, child);
    SpawnKeepsGood(s, p, Some(child), overrides);
    var t := Spawn(s, p, Some(child), []).state;
    var k1 := OverrideOrigin(t, child, overrides, k);
    assert SlotOk(t, k1);
    k0 := Fd(p, k1.fd);
  }

  /** The call makes a pipe at this address, which only happens when none is there any more. */
  predicate Remakes(s: State, c: Call, pipe: Address) {
    CanCall(s, c) && c.MakePipe? && c.memory.pipe == Some(pipe)
  }

  /** A process without write access to a pipe gives it to nobody. */
  lemma NoNewWriter(s: State, c: Call, pipe: Address, k: Slot)
    requires Good(s) && CanCall(s, c) && !Remakes(s, c, pipe)
    requires forall k0 :: Writes(s, k0, pipe) ==> !OwnedBy(k0, c.pid)
    requires Writes(Perform(s, c), k, pipe)
    ensures Writes(s, k, pipe)
  {
    match c
    case Close(p, fd) => CloseKeepsSound(s, p, fd, {});
    case Dup(p, oldFd, newFd) => DupNoNewWriter(s, p, oldFd, newFd, pipe, k);
    case Reopen(p, fd, mem) => ReopenNoNewWriter(s, p, fd, mem, pipe, k);
    case MakePipe(p, mem) => MakePipeNoNewWriter(s, p, mem, pipe, k);
    case Create(p, child, overrides) => CreateNoNewWriter(s, p, child, overrides, pipe, k);
    case Exit(p) => TerminateKeepsGood(s, p);
    case Eof(p, fd) =>
  }

  lemma DupNoNewWriter(s: State, p: Pid, oldFd: int, newFd: int, pipe: Address, k: Slot)
    requires Good(s) && p in s.procs && !Writes(s, Fd(p, oldFd), pipe)
    requires Writes(DupFd(s, p, oldFd, newFd).state, k, pipe)
    ensures Writes(s, k, pipe)
  {
    DupKeepsGood(s, p, oldFd, newFd);
  }

  lemma ReopenNoNewWriter(s: State, p: Pid, fd: int, mem: Option<Address>, pipe: Address, k: Slot)
    requires Good(s) && p in s.procs && UnusedAnswer(s, mem) && !Writes(s, Fd(p, fd), pipe)
    requires Writes(ReopenFd(s, p, fd, mem).state, k, pipe)
    ensures Writes(s, k, pipe)
  {
    ReopenKeepsGood(s, p, fd, mem);
  }

  lemma MakePipeNoNewWriter(s: State, p: Pid, m: PipeMemory, pipe: Address, k: Slot)
    requires Good(s) && p in s.procs && UnusedAnswers(s, m) && m.pipe != Some(pipe)
    requires Writes(SysPipe(s, p, m).state, k, pipe)
    ensures Writes(s, k, pipe)
  {
    if PipeFits(s, p, m) {
      PipeKeepsGood(s, p, m);
      var t := SysPipe(s, p, m).state;
      assert m.pipe.value != pipe;
      assert t.slots[k] != m.readEnd.value && t.slots[k] != m.writeEnd.value;
      assert SameAccess(t, s, t.slots[k]);
    } else {
      FailedPipeChangesNothing(s, p, m);
    }
  }

  lemma CreateNoNewWriter(s: State, p: Pid, child: Option<Pid>, overrides: seq<Override>, pipe: Address, k: Slot)
    requires Good(s) && p in s.procs && Writes(Spawn(s, p, child, overrides).state, k, pipe)
    requires forall k0 :: Writes(s, k0, pipe) ==> !OwnedBy(k0, p)
    ensures Writes(s, k, pipe)
  {
    SpawnKeepsGood(s, p, child, overrides);
    if child.Some? && child.value !in s.procs {
      var t := Spawn(s, p, child, overrides).state;
      assert SameAccess(s, t, t.slots[k]);
      if OwnedBy(k, child.value) {
        var k0 := SpawnOrigin(s, p, child.value, overrides, k);
        assert Writes(s, k0, pipe);
      }
    }
  }

  lemma CallKeepsOthersAlive(s: State, c: Call, p: Pid)
    requires Good(s) && CanCall(s, c) && p in s.procs && c.pid != p
    ensures p in Perform(s, c).procs
  {
    CallProcesses(s, c);
  }

  function NewChild(s: State, c: Call): set<Pid> {
    if c.Create? && c.child.Some? && c.child.value !in s.procs then {c.child.value} else {}
  }

  /** Only Create adds a process and only Exit takes its caller away. */
  lemma CallProcesses(s: State, c: Call)
    requires Good(s) && CanCall(s, c)
    ensures Perform(s, c).procs == s.procs + NewChild(s, c) - if c.Exit? then {c.pid} else {}
  {
    match c
    case Close(p, fd) => CloseKeepsSound(s, p, fd, {});
    case Dup(p, oldFd, newFd) => DupKeepsGood(s, p, oldFd, newFd);
    case Reopen(p, fd, mem) => ReopenKeepsGood(s, p, fd, mem);
    case MakePipe(p, mem) =>
      if PipeFits(s, p, mem) {
        PipeKeepsGood(s, p, mem);
      } else {
        FailedPipeChangesNothing(s, p, mem);
      }
    case Create(p, child, overrides) => SpawnKeepsGood(s, p, child, overrides);
    case Exit(p) => TerminateKeepsGood(s, p);
    case Eof(p, fd) =>
  }

  // ----- families: a process, the processes it creates, those they create, and so on, as long as they live

  function FamilyStep(s: State, c: Call, family: set<Pid>): set<Pid> {
    if !CanCall(s, c) then family
    else if c.Exit? then family - {c.pid}
    else if c.pid in family then family + NewChild(s, c)
    else family
  }

  /** The living members of the family after the calls. */
  function FamilyAfter(s: State, calls: seq<Call>, family: set<Pid>): set<Pid>
    decreases |calls|
  {
    if calls == [] then family
    else FamilyAfter(Attempt(s, calls[0]), calls[1..], FamilyStep(s, calls[0], family))
  }

  predicate NoneBy(calls: seq<Call>, p: Pid) {
    forall i :: 0 <= i < |calls| ==> calls[i].pid != p
  }

  predicate NoCreateBy(calls: seq<Call>, p: Pid) {
    forall i :: 0 <= i < |calls| ==> calls[i].Create? ==> calls[i].pid != p
  }

  /** A process that creates none has no family but itself, and without any call of its own it stays. */
  lemma {:induction false} ChildlessFamily(s: State, calls: seq<Call>, p: Pid, family: set<Pid>)
    requires family <= {p} && NoCreateBy(calls, p)
    ensures FamilyAfter(s, calls, family) <= {p}
    ensures NoneBy(calls, p) ==> FamilyAfter(s, calls, family) == family
    decreases |calls|
  {
    if calls != [] {
      var t, f := Attempt(s, calls[0]), FamilyStep(s, calls[0], family);
      assert f <= {p};
      assert calls[0].pid != p ==> f == family;
      ChildlessFamily(t, calls[1..], p, f);
    }
  }

  // ----- who can write, in every run

  /** Write access to the pipe is only at the given slots and with the family. */
  ghost predicate WritersIn(s: State, family: set<Pid>, slots: set<Slot>, pipe: Address) {
    forall k :: Writes(s, k, pipe) ==> k in slots || (k.Fd? && k.pid in family)
  }

  ghost predicate NotOwned(slots: set<Slot>, p: Pid) {
    forall k :: k in slots ==> !OwnedBy(k, p)
  }

  lemma CallKeepsWriters(s: State, c: Call, family: set<Pid>, slots: set<Slot>, pipe: Address)
    requires Good(s) && CanCall(s, c) && !Remakes(s, c, pipe)
    requires WritersIn(s, family, slots, pipe) && NotOwned(slots, c.pid)
    ensures WritersIn(Perform(s, c), FamilyStep(s, c, family), slots, pipe)
  {
    var t := Perform(s, c);
    CallKeepsGood(s, c);
    CallProcesses(s, c);
    forall k | Writes(t, k, pipe)
      ensures k in slots || (k.Fd? && k.pid in FamilyStep(s, c, family))
    {
      if c.pid !in family {
        NoNewWriter(s, c, pipe, k);
      } else {
        MemberWrites(s, c, family, slots, pipe, k);
      }
    }
  }

  /** What a member of the family does gives write access at most to itself and to its new child. */
  lemma MemberWrites(s: State, c: Call, family: set<Pid>, slots: set<Slot>, pipe: Address, k: Slot)
    requires Good(s) && CanCall(s, c) && c.pid in family && WritersIn(s, family, slots, pipe)
    requires Writes(Perform(s, c), k, pipe)
    ensures k in slots || (k.Fd? && k.pid in FamilyStep(s, c, family))
  {
    var t := Perform(s, c);
    CallKeepsGood(s, c);
    CallProcesses(s, c);
    assert SlotOk(t, k);
    if !OwnedBy(k, c.pid) && (k.Fd? ==> k.pid in s.procs) {
      CallIsLocal(s, c, k);
      assert Writes(s, k, pipe);
    }
  }

  /** The pipe's address is not given to another pipe during the calls. */
  predicate NeverRemade(s: State, calls: seq<Call>, pipe: Address)
    decreases |calls|
  {
    calls == [] ||
    (!Remakes(s, calls[0], pipe) && NeverRemade(Attempt(s, calls[0]), calls[1..], pipe))
  }

  /** As long as a process that makes no call has the pipe open, it is not remade. */
  lemma {:induction false} HeldIsNotRemade(s: State, calls: seq<Call>, k: Slot, pipe: Address)
    requires Good(s) && k.Fd? && NoneBy(calls, k.pid)
    requires k in s.slots && s.files[s.slots[k]].pipe == pipe
    ensures NeverRemade(s, calls, pipe)
    decreases |calls|
  {
    if calls != [] {
      assert SlotOk(s, k);
      if CanCall(s, calls[0]) {
        CallKeepsGood(s, calls[0]);
        CallIsLocal(s, calls[0], k);
        assert KeepsSlot(s, Perform(s, calls[0]), k);
      }
      HeldIsNotRemade(Attempt(s, calls[0]), calls[1..], k, pipe);
    }
  }

  /** In every run only the living members of the family, and the slots of processes that make no call, can write. */
  lemma {:induction false} RunKeepsWriters(s: State, calls: seq<Call>, family: set<Pid>, slots: set<Slot>,
                                           pipe: Address)
    requires Good(s) && WritersIn(s, family, slots, pipe) && NeverRemade(s, calls, pipe) && family <= s.procs
    requires forall i :: 0 <= i < |calls| ==> NotOwned(slots, calls[i].pid)
    ensures Good(PerformAll(s, calls)) && FamilyAfter(s, calls, family) <= PerformAll(s, calls).procs
    ensures WritersIn(PerformAll(s, calls), FamilyAfter(s, calls, family), slots, pipe)
    decreases |calls|
  {
    if calls != [] {
      var t := Attempt(s, calls[0]);
      if CanCall(s, calls[0]) {
        CallKeepsGood(s, calls[0]);
        CallProcesses(s, calls[0]);
        CallKeepsWriters(s, calls[0], family, slots, pipe);
      }
      RunKeepsWriters(t, calls[1..], FamilyStep(s, calls[0], family), slots, pipe);
    }
  }

  /** Once no writer's family member is left, the writer count is zero. */
  lemma NoFamilyNoWriters(s: State, pipe: Address)
    requires Good(s) && WritersIn(s, {}, {}, pipe)
    ensures (forall k :: !Writes(s, k, pipe)) && (pipe in s.pipes ==> s.pipes[pipe].writerCount == 0)
  {
    if pipe in s.pipes {
      EndOfFileExactly(s, pipe);
    }
  }

  /** Whatever everybody does, the sole writer included as long as it creates no process, its termination
      leaves the pipe without writers. */
  lemma TerminationEndsTheStream(s: State, calls: seq<Call>, p: Pid, pipe: Address)
    requires Good(s) && OnlyWriter(s, p, pipe) && p in s.procs && NoCreateBy(calls, p) && NeverRemade(s, calls, pipe)
    ensures var u := PerformAll(s, calls);
      var t := Terminate(u, p);
      && OnlyWriter(u, p, pipe) && Good(t)
      && (forall k :: !Writes(t, k, pipe)) && (pipe in t.pipes ==> t.pipes[pipe].writerCount == 0)
  {
    RunKeepsWriters(s, calls, {p}, {}, pipe);
    ChildlessFamily(s, calls, p, {p});
    TerminatedWriter(PerformAll(s, calls), p, pipe);
  }

  lemma TerminatedWriter(u: State, p: Pid, pipe: Address)
    requires Good(u) && OnlyWriter(u, p, pipe)
    ensures var t := Terminate(u, p);
      Good(t) && (forall k :: !Writes(t, k, pipe)) && (pipe in t.pipes ==> t.pipes[pipe].writerCount == 0)
  {
    var t := Terminate(u, p);
    if p in u.procs {
      TerminateKeepsGood(u, p);
    }
    forall k
      ensures !Writes(t, k, pipe)
    {
      OthersWrote(u, p, pipe, k);
    }
    NoFamilyNoWriters(t, pipe);
  }

  /** Who can write after the termination of p could before, and is not p. */
  lemma OthersWrote(u: State, p: Pid, pipe: Address, k: Slot)
    requires Good(u)
    ensures Writes(Terminate(u, p), k, pipe) ==> Writes(u, k, pipe) && !OwnedBy(k, p)
  {
    var t := Terminate(u, p);
    assert k in u.slots ==> SlotOk(u, k);
    if p in u.procs {
      TerminateKeepsGood(u, p);
      assert k in t.slots ==> SameAccess(u, t, t.slots[k]);
    }
  }
}

/** The shell's descriptor table while it launches a line, and the ends of its pipe. */
module Wiring {
  import opened FileDescriptors
  import opened FileInvariant
  import opened FileCalls
  import opened FilePipes
  import opened FileTables
  import opened FileRuns
  import opened Pipelines

  const STDIN: int := 0
  const STDOUT: int := 1
  const STDERR: int := 2

  /** p's table in s is what it was in s0, plus the descriptors in extra. */
  ghost predicate TableIs(s0: State, s: State, p: Pid, extra: set<int>) {
    && Good(s) && p in s.procs
    && (forall fd :: fd in extra ==> Fd(p, fd) in s.slots && Fd(p, fd) !in s0.slots)
    && (forall fd :: fd !in extra ==> (Fd(p, fd) in s.slots <==> Fd(p, fd) in s0.slots))
    && (forall fd :: Fd(p, fd) in s0.slots ==> KeepsSlot(s0, s, Fd(p, fd)))
  }

  /** p's table is the same in both states. */
  ghost predicate SameTable(s: State, t: State, p: Pid) {
    Good(t) && p in t.procs && forall fd ::
      (Fd(p, fd) in t.slots <==> Fd(p, fd) in s.slots) && (Fd(p, fd) in s.slots ==> KeepsSlot(s, t, Fd(p, fd)))
  }

  lemma SameTableKeeps(s0: State, s: State, t: State, p: Pid, extra: set<int>)
    requires TableIs(s0, s, p, extra) && SameTable(s, t, p)
    ensures TableIs(s0, t, p, extra)
  {
    forall fd | Fd(p, fd) in s0.slots
      ensures KeepsSlot(s0, t, Fd(p, fd))
    {
      assert KeepsSlot(s0, s, Fd(p, fd));
      assert KeepsSlot(s, t, Fd(p, fd));
    }
  }

  lemma CallKeepsTable(s: State, c: Call, p: Pid)
    requires Good(s) && p in s.procs && CanCall(s, c) && c.pid != p
    ensures SameTable(s, Perform(s, c), p)
  {
    CallKeepsGood(s, c);
    CallKeepsOthersAlive(s, c, p);
    forall fd
      ensures (Fd(p, fd) in Perform(s, c).slots <==> Fd(p, fd) in s.slots)
      ensures Fd(p, fd) in s.slots ==> KeepsSlot(s, Perform(s, c), Fd(p, fd))
    {
      CallIsLocal(s, c, Fd(p, fd));
    }
  }

  lemma SameTableTransitive(s: State, t: State, u: State, p: Pid)
    requires SameTable(s, t, p) && SameTable(t, u, p)
    ensures SameTable(s, u, p)
  {
    forall fd | Fd(p, fd) in s.slots
      ensures KeepsSlot(s, u, Fd(p, fd))
    {
      assert KeepsSlot(s, t, Fd(p, fd)) && KeepsSlot(t, u, Fd(p, fd));
    }
  }

  lemma SameTableReflexive(s: State, p: Pid)
    requires Good(s) && p in s.procs
    ensures SameTable(s, s, p)
  {
  }

  /** However the other processes run, p's table stays. */
  lemma {:induction false} OthersKeepTable(s: State, calls: seq<Call>, p: Pid)
    requires Good(s) && p in s.procs && NoneBy(calls, p)
    ensures SameTable(s, PerformAll(s, calls), p)
    decreases |calls|
  {
    if calls == [] {
      SameTableReflexive(s, p);
    } else {
      var t := Attempt(s, calls[0]);
      if CanCall(s, calls[0]) {
        CallKeepsTable(s, calls[0], p);
      } else {
        SameTableReflexive(s, p);
      }
      OthersKeepTable(t, calls[1..], p);
      SameTableTransitive(s, t, PerformAll(t, calls[1..]), p);
    }
  }

  lemma SpawnKeepsTable(s: State, p: Pid, child: Option<Pid>, overrides: seq<Override>)
    requires Good(s) && p in s.procs
    ensures SameTable(s, Spawn(s, p, child, overrides).state, p)
  {
    SpawnKeepsGood(s, p, child, overrides);
    var t := Spawn(s, p, child, overrides).state;
    assert forall fd :: Fd(p, fd) in t.slots ==> SameAccess(s, t, t.slots[Fd(p, fd)]);
  }

  lemma KillKeepsTable(s: State, p: Pid, victim: Pid)
    requires Good(s) && p in s.procs && victim != p
    ensures SameTable(s, Terminate(s, victim), p)
  {
    if victim in s.procs {
      CallKeepsTable(s, Exit(victim), p);
    } else {
      SameTableReflexive(s, p);
    }
  }

  // ----- the shell's own calls

  lemma ReopenExtends(s0: State, s: State, p: Pid, fd: int, mem: Option<Address>)
    requires TableIs(s0, s, p, {}) && UnusedAnswer(s, mem)
    ensures var r := ReopenFd(s, p, fd, mem);
      TableIs(s0, r.state, p, if r.value >= 0 then {r.value} else {})
  {
    ReopenKeepsGood(s, p, fd, mem);
    var r := ReopenFd(s, p, fd, mem);
    if r.value >= 0 {
      forall k | Fd(p, k) in s0.slots
        ensures KeepsSlot(s0, r.state, Fd(p, k))
      {
        assert KeepsSlot(s0, s, Fd(p, k));
        assert SameAccess(r.state, s, s.slots[Fd(p, k)]);
      }
    }
  }

  lemma PipeExtends(s0: State, s: State, p: Pid, extra: set<int>, m: PipeMemory)
    requires TableIs(s0, s, p, extra) && UnusedAnswers(s, m)
    ensures var r := SysPipe(s, p, m);
      if r.value < 0 then r.state == s
      else
        && TableIs(s0, r.state, p, extra + {r.readFd, r.writeFd})
        && r.readFd < r.writeFd && r.readFd !in extra && r.writeFd !in extra
  {
    if PipeFits(s, p, m) {
      PipeKeepsGood(s, p, m);
      var r := SysPipe(s, p, m);
      MadeExtends(s0, s, r.state, p, extra, r.readFd, r.writeFd, m);
    } else {
      FailedPipeChangesNothing(s, p, m);
    }
  }

  lemma MadeExtends(s0: State, s: State, t: State, p: Pid, extra: set<int>, a: nat, b: nat, m: PipeMemory)
    requires TableIs(s0, s, p, extra) && Good(t)
    requires m.pipe.Some? && m.readEnd.Some? && m.writeEnd.Some? && PipeMade(s, t, p, a, b, m)
    ensures TableIs(s0, t, p, extra + {a, b})
  {
    forall k | Fd(p, k) in s0.slots
      ensures KeepsSlot(s0, t, Fd(p, k))
    {
      assert KeepsSlot(s0, s, Fd(p, k));
      assert SameAccess(t, s, s.slots[Fd(p, k)]);
    }
  }

  lemma CloseShrinks(s0: State, s: State, p: Pid, extra: set<int>, fd: int)
    requires TableIs(s0, s, p, extra) && fd in extra
    ensures TableIs(s0, CloseFd(s, p, fd).state, p, extra - {fd})
  {
    CloseKeepsSound(s, p, fd, {});
    var t := CloseFd(s, p, fd).state;
    forall k | Fd(p, k) in s0.slots
      ensures KeepsSlot(s0, t, Fd(p, k))
    {
      assert KeepsSlot(s0, s, Fd(p, k));
      assert k != fd && t.slots[Fd(p, k)] in t.files;
      assert SameAccess(s, t, s.slots[Fd(p, k)]);
    }
  }

  // ----- the pipe of a two-stage line

  /** The shell holds the writing end at b, and apart from that only the family of stage one may write. */
  ghost predicate WriteEnd(s: State, shell: Pid, family: set<Pid>, b: int, pipe: Address) {
    && Good(s) && shell in s.procs && 2 < b && Fd(shell, b) in s.slots && shell !in family && family <= s.procs
    && s.files[s.slots[Fd(shell, b)]].pipe == pipe && s.files[s.slots[Fd(shell, b)]].flags == WRITE_ONLY
    && WritersIn(s, family, {Fd(shell, b)}, pipe)
  }

  /** ... and the reading end at a. */
  ghost predicate Wired(s: State, shell: Pid, family: set<Pid>, a: int, b: int, pipe: Address) {
    && WriteEnd(s, shell, family, b, pipe) && 2 < a < b && Fd(shell, a) in s.slots
    && s.files[s.slots[Fd(shell, a)]].pipe == pipe && s.files[s.slots[Fd(shell, a)]].flags == READ_ONLY
  }

  lemma NewPipeIsWired(s: State, shell: Pid, m: PipeMemory)
    requires Good(s) && shell in s.procs && UnusedAnswers(s, m) && PipeFits(s, shell, m)
    requires Fd(shell, STDIN) in s.slots && Fd(shell, STDOUT) in s.slots && Fd(shell, STDERR) in s.slots
    ensures var r := SysPipe(s, shell, m);
      Wired(r.state, shell, {}, r.readFd, r.writeFd, m.pipe.value)
  {
    PipeKeepsGood(s, shell, m);
    var r := SysPipe(s, shell, m);
    assert FirstClosed(s, shell, 0) > 2;
    forall k | Writes(r.state, k, m.pipe.value)
      ensures k == Fd(shell, r.writeFd)
    {
      OnlyNewEndWrites(s, r.state, shell, r.readFd, r.writeFd, m, k);
    }
  }

  lemma OnlyNewEndWrites(s: State, t: State, shell: Pid, a: nat, b: nat, m: PipeMemory, k: Slot)
    requires Good(s) && UnusedAnswers(s, m) && m.pipe.Some? && m.readEnd.Some? && m.writeEnd.Some?
    requires PipeMade(s, t, shell, a, b, m) && Writes(t, k, m.pipe.value)
    ensures k == Fd(shell, b)
  {
    if k in s.slots {
      assert SameAccess(t, s, s.slots[k]);
    }
  }

  lemma {:induction false} FamilyLeavesOut(s: State, calls: seq<Call>, family: set<Pid>, p: Pid)
    requires Good(s) && p in s.procs && p !in family && NoneBy(calls, p)
    ensures p !in FamilyAfter(s, calls, family)
    decreases |calls|
  {
    if calls != [] {
      var t := Attempt(s, calls[0]);
      if CanCall(s, calls[0]) {
        CallKeepsGood(s, calls[0]);
        CallProcesses(s, calls[0]);
      }
      FamilyLeavesOut(t, calls[1..], FamilyStep(s, calls[0], family), p);
    }
  }

  lemma OthersKeepWriteEnd(s: State, calls: seq<Call>, shell: Pid, family: set<Pid>, b: int, pipe: Address)
    requires WriteEnd(s, shell, family, b, pipe) && NoneBy(calls, shell)
    ensures WriteEnd(PerformAll(s, calls), shell, FamilyAfter(s, calls, family), b, pipe)
  {
    HeldIsNotRemade(s, calls, Fd(shell, b), pipe);
    RunKeepsWriters(s, calls, family, {Fd(shell, b)}, pipe);
    FamilyLeavesOut(s, calls, family, shell);
    OthersKeepTable(s, calls, shell);
    assert KeepsSlot(s, PerformAll(s, calls), Fd(shell, b));
  }

  lemma OthersKeepWired(s: State, calls: seq<Call>, shell: Pid, family: set<Pid>, a: int, b: int, pipe: Address)
    requires Wired(s, shell, family, a, b, pipe) && NoneBy(calls, shell)
    ensures Wired(PerformAll(s, calls), shell, FamilyAfter(s, calls, family), a, b, pipe)
  {
    OthersKeepWriteEnd(s, calls, shell, family, b, pipe);
    OthersKeepTable(s, calls, shell);
    assert KeepsSlot(s, PerformAll(s, calls), Fd(shell, a));
  }

  lemma ClosingReadEnd(s: State, shell: Pid, family: set<Pid>, a: int, b: int, pipe: Address)
    requires Wired(s, shell, family, a, b, pipe)
    ensures WriteEnd(CloseFd(s, shell, a).state, shell, family, b, pipe)
  {
    CloseKeepsSound(s, shell, a, {});
    var t := CloseFd(s, shell, a).state;
    assert forall k :: k in t.slots ==> SameAccess(s, t, t.slots[k]);
    assert forall k :: Writes(t, k, pipe) ==> Writes(s, k, pipe);
  }

  /** Closing the shell's writing end leaves only the family of stage one. */
  lemma ClosingLeavesFamily(s: State, shell: Pid, family: set<Pid>, b: int, pipe: Address)
    requires WriteEnd(s, shell, family, b, pipe)
    ensures var t := CloseFd(s, shell, b).state;
      Good(t) && family <= t.procs && WritersIn(t, family, {}, pipe)
  {
    CloseKeepsSound(s, shell, b, {});
    var t := CloseFd(s, shell, b).state;
    assert forall k :: k in t.slots ==> SameAccess(s, t, t.slots[k]);
    assert forall k :: Writes(t, k, pipe) ==> Writes(s, k, pipe);
  }
}

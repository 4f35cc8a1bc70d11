/** The descriptors of one stage of a line, exactly. */
module Stages {
  import opened FileDescriptors
  import opened FileInvariant
  import opened FileTables
  import opened FileRuns
  import opened Pipelines
  import opened Wiring

  function Closings(fds: seq<int>): (o: seq<Override>)
    ensures |o| == |fds| && forall i :: 0 <= i < |o| ==> o[i] == Override(fds[i], -1)
  {
    seq(|fds|, i requires 0 <= i < |fds| => Override(fds[i], -1))
  }

  function InputOverride(stdinFd: int): seq<Override> {
    if stdinFd == -1 then [Override(STDIN, -1)] else if stdinFd != STDIN then [Override(STDIN, stdinFd)] else []
  }

  function OutputOverride(stdoutFd: int): seq<Override> {
    if stdoutFd != STDOUT then [Override(STDOUT, stdoutFd)] else []
  }

  /** What runStage asks of the kernel for the new process. */
  function StageOverrides(stdinFd: int, stdoutFd: int, closeFds: seq<int>): seq<Override> {
    InputOverride(stdinFd) + OutputOverride(stdoutFd) + Closings(closeFds)
  }

  lemma {:induction false} OverridesAppend(s: State, p: Pid, x: seq<Override>, y: seq<Override>)
    ensures ApplyOverrides(s, p, x + y) == ApplyOverrides(ApplyOverrides(s, p, x), p, y)
    decreases |x|
  {
    if x == [] {
      assert x + y == y;
    } else {
      assert (x + y)[0] == x[0] && (x + y)[1..] == x[1..] + y;
      OverridesAppend(ApplyOverride(s, p, x[0]), p, x[1..], y);
    }
  }

  lemma OneOverride(s: State, p: Pid, o: Override)
    requires Good(s) && p in s.procs
    ensures var t := ApplyOverrides(s, p, [o]);
      Good(t) && p in t.procs && t.slots == OverrideSlots(s, p, o)
  {
    OverrideKeepsGood(s, p, o);
    assert [o][1..] == [];
    assert ApplyOverrides(s, p, [o]) == ApplyOverride(s, p, o);
  }

  lemma {:induction false} ClosingsClose(s: State, p: Pid, fds: seq<int>)
    requires Good(s) && p in s.procs
    ensures var t := ApplyOverrides(s, p, Closings(fds));
      && (forall fd :: IsValidFd(fd) ==> (Fd(p, fd) in t.slots <==> Fd(p, fd) in s.slots && fd !in fds))
      && (forall fd :: IsValidFd(fd) && Fd(p, fd) in t.slots ==> t.slots[Fd(p, fd)] == s.slots[Fd(p, fd)])
    decreases |fds|
  {
    if fds != [] {
      var o := Override(fds[0], -1);
      assert Closings(fds)[0] == o && Closings(fds)[1..] == Closings(fds[1..]);
      OverrideKeepsGood(s, p, o);
      ClosingsClose(ApplyOverride(s, p, o), p, fds[1..]);
      assert forall fd :: fd in fds <==> fd == fds[0] || fd in fds[1..];
    } else {
      assert Closings(fds) == [];
    }
  }

  /** What descriptor fd of a stage refers to, in terms of the shell's table. */
  function StageSlot(s: State, shell: Pid, stdinFd: int, stdoutFd: int, closeFds: seq<int>, fd: int): Option<Address> {
    var source := if fd == STDIN then stdinFd else if fd == STDOUT then stdoutFd else fd;
    if fd !in closeFds && IsValidFd(source) && Fd(shell, source) in s.slots
    then Some(s.slots[Fd(shell, source)]) else None
  }

  function SlotOf(s: State, p: Pid, fd: int): Option<Address> {
    if Fd(p, fd) in s.slots then Some(s.slots[Fd(p, fd)]) else None
  }

  /** A stage has the shell's descriptors with its input and output put in place and the given ones closed. */
  lemma StageTable(s: State, shell: Pid, child: Pid, stdinFd: int, stdoutFd: int, closeFds: seq<int>, fd: int)
    requires Good(s) && shell in s.procs && child !in s.procs && IsValidFd(fd)
    requires stdoutFd != STDIN && IsValidFd(stdoutFd) && (IsValidFd(stdinFd) || stdinFd == -1)
    ensures var t := Spawn(s, shell, Some(child), StageOverrides(stdinFd, stdoutFd, closeFds)).state;
      SlotOf(t, child, fd) == StageSlot(s, shell, stdinFd, stdoutFd, closeFds, fd)
  {
    InheritedTable(s, shell, child);
    OverridesPlaced(s, Spawn(s, shell, Some(child), []).state, shell, child, stdinFd, stdoutFd, closeFds, fd);
    SpawnIsOverrides(s, shell, child, StageOverrides(stdinFd, stdoutFd, closeFds));
  }

  lemma SpawnIsOverrides(s: State, shell: Pid, child: Pid, o: seq<Override>)
    requires child !in s.procs
    ensures Spawn(s, shell, Some(child), o).state == ApplyOverrides(Spawn(s, shell, Some(child), []).state, child, o)
  {
  }

  lemma InheritedTable(s: State, shell: Pid, child: Pid)
    requires Good(s) && shell in s.procs && child !in s.procs
    ensures var t := Spawn(s, shell, Some(child), []).state;
      Good(t) && child in t.procs && forall k :: IsValidFd(k) ==> SlotOf(t, child, k) == SlotOf(s, shell, k)
  {
    Inherited(s, shell, child);
  }

  lemma OverridesPlaced(s: State, t0: State, shell: Pid, child: Pid, stdinFd: int, stdoutFd: int, closeFds: seq<int>,
                        fd: int)
    requires Good(t0) && child in t0.procs && IsValidFd(fd)
    requires stdoutFd != STDIN && IsValidFd(stdoutFd) && (IsValidFd(stdinFd) || stdinFd == -1)
    requires forall k :: IsValidFd(k) ==> SlotOf(t0, child, k) == SlotOf(s, shell, k)
    ensures var t := ApplyOverrides(t0, child, StageOverrides(stdinFd, stdoutFd, closeFds));
      SlotOf(t, child, fd) == StageSlot(s, shell, stdinFd, stdoutFd, closeFds, fd)
  {
    var xy := InputOverride(stdinFd) + OutputOverride(stdoutFd);
    OverridesAppend(t0, child, xy, Closings(closeFds));
    BothPlaced(s, t0, shell, child, stdinFd, stdoutFd);
    ClosingsClose(ApplyOverrides(t0, child, xy), child, closeFds);
  }

  lemma BothPlaced(s: State, t0: State, shell: Pid, child: Pid, stdinFd: int, stdoutFd: int)
    requires Good(t0) && child in t0.procs
    requires stdoutFd != STDIN && IsValidFd(stdoutFd) && (IsValidFd(stdinFd) || stdinFd == -1)
    requires forall k :: IsValidFd(k) ==> SlotOf(t0, child, k) == SlotOf(s, shell, k)
    ensures var t := ApplyOverrides(t0, child, InputOverride(stdinFd) + OutputOverride(stdoutFd));
      && Good(t) && child in t.procs
      && forall fd :: IsValidFd(fd) ==> SlotOf(t, child, fd) == StageSlot(s, shell, stdinFd, stdoutFd, [], fd)
  {
    var x, y := InputOverride(stdinFd), OutputOverride(stdoutFd);
    OverridesAppend(t0, child, x, y);
    var t1 := ApplyOverrides(t0, child, x);
    InputPlaced(s, t0, shell, child, stdinFd);
    OutputPlaced(t1, child, stdoutFd);
    OverridesKeepGood(t1, child, y);
  }

  lemma InputPlaced(s: State, t0: State, shell: Pid, child: Pid, stdinFd: int)
    requires Good(t0) && child in t0.procs && (IsValidFd(stdinFd) || stdinFd == -1)
    requires forall fd :: IsValidFd(fd) ==> SlotOf(t0, child, fd) == SlotOf(s, shell, fd)
    ensures var t := ApplyOverrides(t0, child, InputOverride(stdinFd));
      && Good(t) && child in t.procs
      && (forall fd :: IsValidFd(fd) && fd != STDIN ==> SlotOf(t, child, fd) == SlotOf(s, shell, fd))
      && SlotOf(t, child, STDIN) == if stdinFd == -1 then None else SlotOf(s, shell, stdinFd)
  {
    if stdinFd != STDIN {
      OneOverride(t0, child, Override(STDIN, stdinFd));
    }
  }

  lemma OutputPlaced(t1: State, child: Pid, stdoutFd: int)
    requires Good(t1) && child in t1.procs && IsValidFd(stdoutFd)
    ensures var t := ApplyOverrides(t1, child, OutputOverride(stdoutFd));
      && (forall fd :: IsValidFd(fd) && fd != STDOUT ==> SlotOf(t, child, fd) == SlotOf(t1, child, fd))
      && SlotOf(t, child, STDOUT) == SlotOf(t1, child, stdoutFd)
  {
    if stdoutFd != STDOUT {
      OneOverride(t1, child, Override(STDOUT, stdoutFd));
    }
  }

  // ----- the two stages of a pipeline

  /** Stage one gets the writing end as its output; the shell's own ends are as before. */
  lemma FirstStageWired(s: State, shell: Pid, child: Pid, a: int, b: int, pipe: Address, stdinFd: int,
                        closeFds: seq<int>)
    requires Wired(s, shell, {}, a, b, pipe) && child !in s.procs && (IsValidFd(stdinFd) || stdinFd == -1)
    requires STDOUT !in closeFds
    ensures var t := Spawn(s, shell, Some(child), StageOverrides(stdinFd, b, closeFds)).state;
      Wired(t, shell, {child}, a, b, pipe) && Writes(t, Fd(child, STDOUT), pipe)
  {
    var o := StageOverrides(stdinFd, b, closeFds);
    var t := Spawn(s, shell, Some(child), o).state;
    SpawnKeepsGood(s, shell, Some(child), o);
    SpawnKeepsEnds(s, t, shell, child, a, b);
    FirstStageOutput(s, shell, child, b, stdinFd, closeFds);
    assert SameAccess(s, t, t.slots[Fd(shell, b)]);
    SpawnGivesToChild(s, t, shell, child, b, pipe);
  }

  lemma FirstStageOutput(s: State, shell: Pid, child: Pid, b: int, stdinFd: int, closeFds: seq<int>)
    requires Good(s) && shell in s.procs && child !in s.procs && 2 < b && Fd(shell, b) in s.slots
    requires (IsValidFd(stdinFd) || stdinFd == -1) && STDOUT !in closeFds
    ensures var t := Spawn(s, shell, Some(child), StageOverrides(stdinFd, b, closeFds)).state;
      Fd(child, STDOUT) in t.slots && t.slots[Fd(child, STDOUT)] == s.slots[Fd(shell, b)]
  {
    assert SlotOk(s, Fd(shell, b));
    StageTable(s, shell, child, stdinFd, b, closeFds, STDOUT);
  }

  /** Write access that was not there before is the new process's. */
  lemma SpawnGivesToChild(s: State, t: State, shell: Pid, child: Pid, b: int, pipe: Address)
    requires Good(s) && WritersIn(s, {}, {Fd(shell, b)}, pipe) && Inherits(s, t) && OnlyTableOf(child, s, t)
    ensures WritersIn(t, {child}, {Fd(shell, b)}, pipe)
  {
    forall k | Writes(t, k, pipe)
      ensures k == Fd(shell, b) || OwnedBy(k, child)
    {
      assert SameAccess(s, t, t.slots[k]);
      assert !OwnedBy(k, child) ==> Writes(s, k, pipe);
    }
  }

  lemma SpawnKeepsEnds(s: State, t: State, shell: Pid, child: Pid, a: int, b: int)
    requires Good(s) && Good(t) && child !in s.procs && shell in s.procs && OnlyTableOf(child, s, t) && Inherits(s, t)
    requires Fd(shell, a) in s.slots && Fd(shell, b) in s.slots
    ensures KeepsSlot(s, t, Fd(shell, a)) && KeepsSlot(s, t, Fd(shell, b))
  {
    assert SameAccess(s, t, t.slots[Fd(shell, a)]) && SameAccess(s, t, t.slots[Fd(shell, b)]);
  }

  /** Stage two reads the pipe at its input and cannot write to it. */
  lemma SecondStageWired(s: State, shell: Pid, family: set<Pid>, child: Pid, a: int, b: int, pipe: Address,
                         closeFds: seq<int>)
    requires Wired(s, shell, family, a, b, pipe) && child !in s.procs && b in closeFds && STDIN !in closeFds
    ensures var t := Spawn(s, shell, Some(child), StageOverrides(a, STDOUT, closeFds)).state;
      Wired(t, shell, family, a, b, pipe) && ReadsFrom(t, child, pipe)
  {
    var o := StageOverrides(a, STDOUT, closeFds);
    var t := Spawn(s, shell, Some(child), o).state;
    SpawnKeepsGood(s, shell, Some(child), o);
    assert SlotOk(s, Fd(shell, a));
    StageTable(s, shell, child, a, STDOUT, closeFds, STDIN);
    SpawnKeepsEnds(s, t, shell, child, a, b);
    forall k | Writes(t, k, pipe)
      ensures Writes(s, k, pipe)
    {
      assert SameAccess(s, t, t.slots[k]);
      if OwnedBy(k, child) {
        assert SlotOk(t, k);
        StageTable(s, shell, child, a, STDOUT, closeFds, k.fd);
        SecondCannotWrite(s, t, shell, family, a, b, pipe, closeFds, k);
      }
    }
  }

  /** Descriptor STDIN of p reads the pipe. */
  predicate ReadsFrom(s: State, p: Pid, pipe: Address) {
    Fd(p, STDIN) in s.slots && s.slots[Fd(p, STDIN)] in s.files
    && s.files[s.slots[Fd(p, STDIN)]].pipe == pipe && s.files[s.slots[Fd(p, STDIN)]].flags == READ_ONLY
  }

  /** What descriptor k of stage two refers to comes from a descriptor of the shell other than b. */
  function SourceOf(k: Slot, a: int): int
    requires k.Fd?
  {
    if k.fd == STDIN then a else k.fd
  }

  lemma WritesFromSource(s: State, t: State, shell: Pid, a: int, closeFds: seq<int>, pipe: Address, k: Slot)
    requires Good(s) && Inherits(s, t) && k.Fd? && k in t.slots && a > 2
    requires Some(t.slots[k]) == StageSlot(s, shell, a, STDOUT, closeFds, k.fd)
    ensures Writes(t, k, pipe) ==> Writes(s, Fd(shell, SourceOf(k, a)), pipe)
    ensures k.fd !in closeFds
  {
    assert Writes(t, k, pipe) ==> SameAccess(s, t, t.slots[k]);
  }

  lemma SecondCannotWrite(s: State, t: State, shell: Pid, family: set<Pid>, a: int, b: int, pipe: Address,
                          closeFds: seq<int>, k: Slot)
    requires Wired(s, shell, family, a, b, pipe) && b in closeFds && Inherits(s, t)
    requires k.Fd? && k in t.slots && Some(t.slots[k]) == StageSlot(s, shell, a, STDOUT, closeFds, k.fd)
    ensures !Writes(t, k, pipe)
  {
    WritesFromSource(s, t, shell, a, closeFds, pipe, k);
    assert !Writes(s, Fd(shell, a), pipe);
  }
}

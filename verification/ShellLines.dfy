/** What a line does for its processes: when its stages start, what they hold when the line is done, and that a stage
    left alone is killed. */
module ShellLines {
  import opened FileDescriptors
  import opened FileInvariant
  import opened FileCalls
  import opened FilePipes
  import opened FileTables
  import opened FileRuns
  import opened Pipelines
  import opened Wiring
  import opened Stages
  import opened Shell

  // ----- when stages start

  /** The process table has a free PID for the stage. */
  predicate Startable(s: State, child: Option<Pid>) {
    child.Some? && child.value !in s.procs
  }

  /** A stage starts exactly when its command is known and there is a free PID, which becomes its PID; otherwise nothing
      happens. */
  lemma StageStarts(s: State, shell: Pid, usable: bool, stdinFd: int, stdoutFd: int, closeFds: seq<int>,
                    child: Option<Pid>)
    requires Good(s) && shell in s.procs && (child.Some? ==> child.value >= 0)
    ensures var r := RunStage(s, shell, usable, stdinFd, stdoutFd, closeFds, child);
      && Good(r.state) && shell in r.state.procs
      && if usable && Startable(s, child) then r.value == child.value && r.state.procs == s.procs + {child.value}
         else r == Reply(s, -1)
  {
    if usable {
      SpawnKeepsGood(s, shell, child, StageOverrides(stdinFd, stdoutFd, closeFds));
    }
  }

  /** The state in which stage one is started, and the answer. */
  function FirstAnswer(s: State, shell: Pid, childStdin: int, firstStdin: int, line: Line, env: Env): Reply
    requires line.Double?
  {
    var r := SysPipe(s, shell, AllocatedPipe(s, env.pipe));
    var s1 := PerformAll(r.state, Others(env, 2));
    RunStage(s1, shell, line.usable1, firstStdin, r.writeFd, CloseOnFirst(r.readFd, childStdin, firstStdin), env.first)
  }

  lemma SecondStarts(one: Reply, shell: Pid, a: int, b: int, childStdin: int, line: Line, env: Env)
    requires line.Double? && Good(one.state) && shell in one.state.procs && shell >= 0 && EnvOk(env, shell)
    ensures var l := AfterFirst(one, shell, a, b, childStdin, line, env);
      && l.pid1 == (if one.value >= 0 then one.value else -1) && l.pid2 != shell
      && (l.pid2 >= 0 <==>
            one.value >= 0 && line.usable2 && Startable(PerformAll(one.state, Others(env, 3)), env.second))
      && (l.pid2 >= 0 ==> env.second == Some(l.pid2))
  {
    if one.value >= 0 {
      OthersKeepTable(one.state, Others(env, 3), shell);
      StageStarts(PerformAll(one.state, Others(env, 3)), shell, line.usable2, a, STDOUT, CloseOnSecond(b, childStdin),
                  env.second);
    }
  }

  /** Stage one starts exactly when the pipe fits, its command is known and a PID is free; stage two exactly when stage
      one has started, its command is known and a PID is free then. */
  lemma LaunchStarts(s: State, shell: Pid, childStdin: int, firstStdin: int, line: Line, env: Env)
    requires line.Double? && Good(s) && shell in s.procs && shell >= 0 && EnvOk(env, shell)
    ensures var l := Launch(s, shell, childStdin, firstStdin, line, env);
      var s1 := PerformAll(SysPipe(s, shell, AllocatedPipe(s, env.pipe)).state, Others(env, 2));
      var s2 := PerformAll(FirstAnswer(s, shell, childStdin, firstStdin, line, env).state, Others(env, 3));
      && (l.pid1 >= 0 <==>
            PipeFits(s, shell, AllocatedPipe(s, env.pipe)) && line.usable1 && Startable(s1, env.first))
      && (l.pid2 >= 0 <==> l.pid1 >= 0 && line.usable2 && Startable(s2, env.second))
      && (l.pid1 >= 0 ==> env.first == Some(l.pid1)) && (l.pid2 >= 0 ==> env.second == Some(l.pid2))
      && l.pid1 != shell && l.pid2 != shell
  {
    var m := AllocatedPipe(s, env.pipe);
    var r := SysPipe(s, shell, m);
    if PipeFits(s, shell, m) {
      PipeKeepsGood(s, shell, m);
      OthersKeepTable(r.state, Others(env, 2), shell);
      var s1 := PerformAll(r.state, Others(env, 2));
      StageStarts(s1, shell, line.usable1, firstStdin, r.writeFd, CloseOnFirst(r.readFd, childStdin, firstStdin),
                  env.first);
      SecondStarts(FirstAnswer(s, shell, childStdin, firstStdin, line, env), shell, r.readFd, r.writeFd, childStdin,
                   line, env);
    } else {
      FailedPipeChangesNothing(s, shell, m);
    }
  }

  // ----- the end of a line

  /** What the shell does last leaves every other process that makes no call as it is. */
  lemma LineEndKeepsTable(s: State, shell: Pid, childStdin: int, env: Env, p: Pid)
    requires Good(s) && shell in s.procs && p in s.procs && p != shell && EnvOk(env, shell) && Quiet(env, p)
    ensures SameTable(s, CloseInput(PerformAll(s, Others(env, 6)), shell, childStdin), p)
  {
    var u := PerformAll(s, Others(env, 6));
    OthersKeepTable(s, Others(env, 6), p);
    OthersKeepTable(s, Others(env, 6), shell);
    if childStdin >= 0 {
      CallKeepsTable(u, Close(shell, childStdin), p);
      SameTableTransitive(s, u, CloseFd(u, shell, childStdin).state, p);
    }
  }

  /** The only stage of a line, if it can start, is there when the line is done and, unless it has made a call itself,
      has the shell's descriptors, with its own copy of the input, or no input in the background. */
  lemma SingleLineRuns(s: State, shell: Pid, childStdin: int, line: Line, env: Env, fd: int)
    requires line.Single? && Good(s) && shell in s.procs && EnvOk(env, shell) && IsValidFd(fd)
    requires childStdin == -1 || (childStdin > 2 && IsValidFd(childStdin))
    requires line.usable && Startable(s, env.first) && Quiet(env, env.first.value)
    ensures var t, child := RunSingle(s, shell, childStdin, line, env), env.first.value;
      && child in t.procs
      && SlotOf(t, child, fd) ==
           if fd == STDIN
           then (if line.background then None else SlotOf(s, shell, if childStdin < 0 then STDIN else childStdin))
           else if fd == childStdin then None
           else SlotOf(s, shell, fd)
  {
    var child, closing := env.first.value, if childStdin >= 0 then [childStdin] else [];
    var stdinFd := FirstStdin(line.background, childStdin);
    var one := RunStage(s, shell, line.usable, stdinFd, STDOUT, closing, env.first);
    StageStarts(s, shell, line.usable, stdinFd, STDOUT, closing, env.first);
    SingleStageDescriptors(s, shell, child, line.background, childStdin, fd);
    LineEndKeepsTable(one.state, shell, childStdin, env, child);
    var t := RunSingle(s, shell, childStdin, line, env);
    assert SameTable(one.state, t, child);
    assert Fd(child, fd) in one.state.slots ==> KeepsSlot(one.state, t, Fd(child, fd));
  }

  /** The state in which the only stage of a line is started, with the shell's copy of its input. */
  function Copied(s: State, shell: Pid, env: Env): Reply {
    var s1 := PerformAll(s, Others(env, 0));
    ReopenFd(s1, shell, STDIN, Allocated(s1, env.stdinCopy))
  }

  /** The slot of t leads where the slot of s does: to the same pipe with the same flags. */
  ghost predicate SameEnd(s: State, k: Slot, t: State, k': Slot) {
    && k in s.slots && k' in t.slots && s.slots[k] in s.files && t.slots[k'] in t.files
    && t.files[t.slots[k']].pipe == s.files[s.slots[k]].pipe
    && t.files[t.slots[k']].flags == s.files[s.slots[k]].flags
  }

  /** ... so the whole line gives the only stage what the shell had before the line: the same accesses, and as input an
      access of its own to the same pipe, or none in the background. */
  lemma SingleLineInherits(s: State, shell: Pid, line: Line, env: Env)
    requires line.Single? && Good(s) && shell in s.procs && EnvOk(env, shell)
    requires Fd(shell, STDIN) in s.slots && Fd(shell, STDOUT) in s.slots && Fd(shell, STDERR) in s.slots
    requires line.usable && Startable(PerformAll(Copied(s, shell, env).state, Others(env, 1)), env.first)
    requires Quiet(env, env.first.value)
    ensures var t, child := RunLine(s, shell, line, env), env.first.value;
      && child in t.procs
      && (forall fd :: IsValidFd(fd) && fd != STDIN && Fd(shell, fd) in s.slots ==>
            SlotOf(t, child, fd) == SlotOf(s, shell, fd))
      && (line.background ==> Fd(child, STDIN) !in t.slots)
      && (!line.background ==> SameEnd(s, Fd(shell, STDIN), t, Fd(child, STDIN)))
  {
    var re, child := Copied(s, shell, env), env.first.value;
    var s2, t := PerformAll(re.state, Others(env, 1)), RunLine(s, shell, line, env);
    CopyKeepsTable(s, shell, env);
    forall fd | IsValidFd(fd) && fd != STDIN && Fd(shell, fd) in s.slots
      ensures SlotOf(t, child, fd) == SlotOf(s, shell, fd)
    {
      SingleLineRuns(s2, shell, re.value, line, env, fd);
      assert KeepsSlot(s, s2, Fd(shell, fd));
    }
    SingleLineRuns(s2, shell, re.value, line, env, STDIN);
    SingleStageKeepsAccess(s2, shell, re.value, line, env);
  }

  /** After the copy the shell has its old table and the copy, which leads where its input does. */
  lemma CopyKeepsTable(s: State, shell: Pid, env: Env)
    requires Good(s) && shell in s.procs && EnvOk(env, shell)
    requires Fd(shell, STDIN) in s.slots && Fd(shell, STDOUT) in s.slots && Fd(shell, STDERR) in s.slots
    ensures var re := Copied(s, shell, env);
      var s2 := PerformAll(re.state, Others(env, 1));
      && Good(s2) && shell in s2.procs && (re.value == -1 || (2 < re.value && IsValidFd(re.value)))
      && (forall fd :: Fd(shell, fd) in s.slots ==> fd != re.value && KeepsSlot(s, s2, Fd(shell, fd)))
      && SameEnd(s, Fd(shell, STDIN), s2, Fd(shell, if re.value < 0 then STDIN else re.value))
  {
    var s1 := PerformAll(s, Others(env, 0));
    OthersKeepTable(s, Others(env, 0), shell);
    SameTableReflexive(s, shell);
    assert TableIs(s, s, shell, {});
    MeanwhileKeepsTable(s, s, shell, {}, env, 0);
    var mem := Allocated(s1, env.stdinCopy);
    var re := ReopenFd(s1, shell, STDIN, mem);
    InputCopied(s1, shell, env.stdinCopy);
    ReopenKeepsGood(s1, shell, STDIN, mem);
    ReopenExtends(s, s1, shell, STDIN, mem);
    MeanwhileKeepsTable(s, re.state, shell, Extra(re.value), env, 1);
    OthersKeepTable(re.state, Others(env, 1), shell);
    var s2 := PerformAll(re.state, Others(env, 1));
    assert KeepsSlot(s, s1, Fd(shell, STDIN)) && KeepsSlot(s, s2, Fd(shell, STDIN));
    if re.value >= 0 {
      assert KeepsSlot(re.state, s2, Fd(shell, re.value));
    }
  }

  lemma SingleStageKeepsAccess(s: State, shell: Pid, childStdin: int, line: Line, env: Env)
    requires line.Single? && Good(s) && shell in s.procs && EnvOk(env, shell)
    requires childStdin == -1 || (childStdin > 2 && IsValidFd(childStdin))
    requires line.usable && Startable(s, env.first) && Quiet(env, env.first.value)
    ensures var t, child := RunSingle(s, shell, childStdin, line, env), env.first.value;
      var k := Fd(shell, if childStdin < 0 then STDIN else childStdin);
      !line.background && k in s.slots && s.slots[k] in s.files ==> SameEnd(s, k, t, Fd(child, STDIN))
  {
    var child, closing := env.first.value, if childStdin >= 0 then [childStdin] else [];
    var stdinFd := FirstStdin(line.background, childStdin);
    var one := RunStage(s, shell, line.usable, stdinFd, STDOUT, closing, env.first);
    StageStarts(s, shell, line.usable, stdinFd, STDOUT, closing, env.first);
    SpawnKeepsGood(s, shell, env.first, StageOverrides(stdinFd, STDOUT, closing));
    SingleStageDescriptors(s, shell, child, line.background, childStdin, STDIN);
    LineEndKeepsTable(one.state, shell, childStdin, env, child);
    var t := RunSingle(s, shell, childStdin, line, env);
    assert SameTable(one.state, t, child);
    assert Fd(child, STDIN) in one.state.slots ==> KeepsSlot(one.state, t, Fd(child, STDIN));
  }

  predicate NobodyCreates(calls: seq<Call>, p: Pid) {
    forall i :: 0 <= i < |calls| && calls[i].Create? ==> calls[i].child != Some(p)
  }

  lemma {:induction false} NobodyRevives(s: State, calls: seq<Call>, p: Pid)
    requires Good(s) && p !in s.procs && NobodyCreates(calls, p)
    ensures Good(PerformAll(s, calls)) && p !in PerformAll(s, calls).procs
    decreases |calls|
  {
    if calls != [] {
      if CanCall(s, calls[0]) {
        CallKeepsGood(s, calls[0]);
        CallProcesses(s, calls[0]);
      }
      NobodyRevives(Attempt(s, calls[0]), calls[1..], p);
    }
  }

  /** The line is its launch, the kill of a stage one left alone, what others do meanwhile, and closing the input. */
  lemma LaunchedFromLine(s: State, shell: Pid, line: Line, env: Env) returns (childStdin: int)
    requires line.Double? && Good(s) && shell in s.procs && shell >= 0 && EnvOk(env, shell)
    ensures var l := LineLaunch(s, shell, line, env);
      && Good(l.state) && shell in l.state.procs && l.pid1 != shell && l.pid2 != shell
      && RunLine(s, shell, line, env) == CloseInput(
           PerformAll(if l.pid1 >= 0 && l.pid2 < 0 then Terminate(l.state, l.pid1) else l.state, Others(env, 6)),
           shell, childStdin)
  {
    var s1 := PerformAll(s, Others(env, 0));
    OthersKeepTable(s, Others(env, 0), shell);
    assert TableIs(s1, s1, shell, {});
    var re := ReopenFd(s1, shell, STDIN, Allocated(s1, env.stdinCopy));
    ReopenExtends(s1, s1, shell, STDIN, Allocated(s1, env.stdinCopy));
    MeanwhileKeepsTable(s1, re.state, shell, Extra(re.value), env, 1);
    childStdin := re.value;
    var s2 := PerformAll(re.state, Others(env, 1));
    LaunchKeepsTable(s1, s2, shell, childStdin, FirstStdin(line.background, childStdin), line, env);
    LaunchStarts(s2, shell, childStdin, FirstStdin(line.background, childStdin), line, env);
  }

  lemma StagesOutlive(l: Launched, shell: Pid, childStdin: int, env: Env, pipe: Address)
    requires Good(l.state) && shell in l.state.procs && l.pid1 != shell && l.pid2 != shell && EnvOk(env, shell)
    requires Quiet(env, l.pid1) && Quiet(env, l.pid2)
    requires Writes(l.state, Fd(l.pid1, STDOUT), pipe) && ReadsFrom(l.state, l.pid2, pipe)
    ensures var t := CloseInput(PerformAll(l.state, Others(env, 6)), shell, childStdin);
      Writes(t, Fd(l.pid1, STDOUT), pipe) && ReadsFrom(t, l.pid2, pipe)
  {
    var t := CloseInput(PerformAll(l.state, Others(env, 6)), shell, childStdin);
    assert SlotOk(l.state, Fd(l.pid1, STDOUT)) && SlotOk(l.state, Fd(l.pid2, STDIN));
    LineEndKeepsTable(l.state, shell, childStdin, env, l.pid1);
    LineEndKeepsTable(l.state, shell, childStdin, env, l.pid2);
    StillWrites(l.state, t, l.pid1, pipe);
    ReadsKept(l.state, t, l.pid2, pipe);
  }

  lemma FirstIsKilled(s: State, shell: Pid, childStdin: int, env: Env, p: Pid)
    requires Good(s) && shell in s.procs && p != shell && EnvOk(env, shell) && NobodyCreates(Others(env, 6), p)
    ensures p !in CloseInput(PerformAll(Terminate(s, p), Others(env, 6)), shell, childStdin).procs
  {
    if p in s.procs {
      TerminateKeepsGood(s, p);
    }
    NobodyRevives(Terminate(s, p), Others(env, 6), p);
    CloseKeepsSound(PerformAll(Terminate(s, p), Others(env, 6)), shell, childStdin, {});
  }

  /** When both stages of a line have started, they are there when the line is done and, unless they make calls
      themselves, write to the pipe and read from it; when only stage one has, it is killed. */
  lemma DoubleLineRuns(s: State, shell: Pid, line: Line, env: Env)
    requires line.Double? && Good(s) && shell in s.procs && shell >= 0 && EnvOk(env, shell)
    requires Fd(shell, STDIN) in s.slots && Fd(shell, STDOUT) in s.slots && Fd(shell, STDERR) in s.slots
    ensures var l, t := LineLaunch(s, shell, line, env), RunLine(s, shell, line, env);
      l.pid1 >= 0 ==>
        && env.pipe.pipe.Some?
        && (l.pid2 >= 0 && Quiet(env, l.pid1) && Quiet(env, l.pid2) ==>
              && Writes(t, Fd(l.pid1, STDOUT), env.pipe.pipe.value) && ReadsFrom(t, l.pid2, env.pipe.pipe.value))
        && (l.pid2 < 0 && NobodyCreates(Others(env, 6), l.pid1) ==> l.pid1 !in t.procs)
  {
    OnlyStageOneWrites(s, shell, line, env);
    var l := LineLaunch(s, shell, line, env);
    if l.pid1 >= 0 {
      var childStdin := LaunchedFromLine(s, shell, line, env);
      if l.pid2 >= 0 && Quiet(env, l.pid1) && Quiet(env, l.pid2) {
        StagesOutlive(l, shell, childStdin, env, env.pipe.pipe.value);
      } else if l.pid2 < 0 && NobodyCreates(Others(env, 6), l.pid1) {
        FirstIsKilled(l.state, shell, childStdin, env, l.pid1);
      }
    }
  }
}

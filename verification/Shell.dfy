/** How the shell runs a line: descriptors duplicated, a pipe wired between two stages, everything closed again. */
module Shell {
  import opened FileDescriptors
  import opened FileInvariant
  import opened FileCalls
  import opened FilePipes
  import opened FileTables
  import opened FileRuns
  import opened Pipelines
  import opened Wiring
  import opened Stages
  import DescriptorHeap

  /** A parsed line; a stage is usable if it names a known command. */
  datatype Line =
    | TooManyStages
    | Single(background: bool, usable: bool)
    | Double(background: bool, usable1: bool, usable2: bool)

  /** The answers of the allocator and of the process table, and the calls other processes make in between. */
  datatype Env = Env(stdinCopy: Option<Address>, pipe: PipeMemory, first: Option<Pid>, second: Option<Pid>,
                     others: seq<seq<Call>>)

  function Others(env: Env, i: nat): seq<Call> {
    if i < |env.others| then env.others[i] else []
  }

  /** The shell makes no other calls meanwhile, and pids are not negative. */
  predicate EnvOk(env: Env, shell: Pid) {
    && (forall i :: 0 <= i < |env.others| ==> NoneBy(env.others[i], shell))
    && (env.first.Some? ==> env.first.value >= 0) && (env.second.Some? ==> env.second.value >= 0)
  }

  /** p makes no call meanwhile. */
  predicate Quiet(env: Env, p: Pid) {
    forall i :: 0 <= i < |env.others| ==> NoneBy(env.others[i], p)
  }

  /** p creates no process meanwhile. */
  predicate Childless(env: Env, p: Pid) {
    forall i :: 0 <= i < |env.others| ==> NoCreateBy(env.others[i], p)
  }

  /** The allocator never answers an address in use. */
  function Allocated(s: State, mem: Option<Address>): (r: Option<Address>)
    ensures UnusedAnswer(s, r)
  {
    if UnusedAnswer(s, mem) then mem else None
  }

  function AllocatedPipe(s: State, m: PipeMemory): (r: PipeMemory)
    ensures UnusedAnswers(s, r)
  {
    if UnusedAnswers(s, m) then m else PipeMemory(None, None, None)
  }

  // ----- one stage

  function RunStage(s: State, shell: Pid, usable: bool, stdinFd: int, stdoutFd: int, closeFds: seq<int>,
                    child: Option<Pid>): Reply {
    if !usable then Reply(s, -1) else Spawn(s, shell, child, StageOverrides(stdinFd, stdoutFd, closeFds))
  }

  lemma StageKeepsTable(s0: State, s: State, shell: Pid, extra: set<int>, usable: bool, stdinFd: int, stdoutFd: int,
                        closeFds: seq<int>, child: Option<Pid>)
    requires TableIs(s0, s, shell, extra)
    ensures var r := RunStage(s, shell, usable, stdinFd, stdoutFd, closeFds, child);
      TableIs(s0, r.state, shell, extra) && (r.value == -1 || (usable && child == Some(r.value) && r.value !in s.procs))
  {
    if usable {
      SpawnKeepsTable(s, shell, child, StageOverrides(stdinFd, stdoutFd, closeFds));
      SameTableKeeps(s0, s, Spawn(s, shell, child, StageOverrides(stdinFd, stdoutFd, closeFds)).state, shell, extra);
    }
  }

  lemma MeanwhileKeepsTable(s0: State, s: State, shell: Pid, extra: set<int>, env: Env, i: nat)
    requires TableIs(s0, s, shell, extra) && EnvOk(env, shell)
    ensures TableIs(s0, PerformAll(s, Others(env, i)), shell, extra)
  {
    OthersKeepTable(s, Others(env, i), shell);
    SameTableKeeps(s0, s, PerformAll(s, Others(env, i)), shell, extra);
  }

  // ----- two stages

  /** What the launch of two stages leaves, the pids of the stages (-1 for one that did not start), and the living
      family of stage one: itself, the processes it created, those they created, and so on. */
  datatype Launched = Launched(state: State, pid1: int, pid2: int, family: set<Pid>)

  function CloseEnds(s: State, shell: Pid, a: int, b: int, env: Env): State {
    CloseFd(PerformAll(CloseFd(s, shell, a).state, Others(env, 5)), shell, b).state
  }

  function CloseOnFirst(a: int, childStdin: int, firstStdin: int): seq<int> {
    [a] + if childStdin >= 0 && childStdin != firstStdin then [childStdin] else []
  }

  function CloseOnSecond(b: int, childStdin: int): seq<int> {
    [b] + if childStdin >= 0 then [childStdin] else []
  }

  /** From sys_pipe to the shell closing its two ends. */
  function Launch(s: State, shell: Pid, childStdin: int, firstStdin: int, line: Line, env: Env): Launched
    requires line.Double?
  {
    var r := SysPipe(s, shell, AllocatedPipe(s, env.pipe));
    if r.value < 0 then Launched(r.state, -1, -1, {})
    else LaunchStages(r.state, shell, r.readFd, r.writeFd, childStdin, firstStdin, line, env)
  }

  function LaunchStages(s: State, shell: Pid, a: int, b: int, childStdin: int, firstStdin: int, line: Line,
                        env: Env): Launched
    requires line.Double?
  {
    var s1 := PerformAll(s, Others(env, 2));
    var one := RunStage(s1, shell, line.usable1, firstStdin, b, CloseOnFirst(a, childStdin, firstStdin), env.first);
    AfterFirst(one, shell, a, b, childStdin, line, env)
  }

  /** ... from the answer for stage one on. */
  function AfterFirst(one: Reply, shell: Pid, a: int, b: int, childStdin: int, line: Line, env: Env): Launched
    requires line.Double?
  {
    var s2 := PerformAll(one.state, Others(env, 3));
    if one.value < 0 then Launched(CloseEnds(s2, shell, a, b, env), -1, -1, {})
    else
      var two := RunStage(s2, shell, line.usable2, a, STDOUT, CloseOnSecond(b, childStdin), env.second);
      var s3 := PerformAll(two.state, Others(env, 4));
      var family2 := FamilyAfter(one.state, Others(env, 3), {one.value});
      var family3 := FamilyAfter(two.state, Others(env, 4), family2);
      Launched(CloseEnds(s3, shell, a, b, env), one.value, two.value, CloseFamily(s3, shell, a, family3, env))
  }

  function CloseFamily(s: State, shell: Pid, a: int, family: set<Pid>, env: Env): set<Pid> {
    FamilyAfter(CloseFd(s, shell, a).state, Others(env, 5), family)
  }

  function Extra(childStdin: int): set<int> {
    if childStdin >= 0 then {childStdin} else {}
  }

  lemma CloseEndsKeepsTable(s0: State, s: State, shell: Pid, a: int, b: int, childStdin: int, env: Env)
    requires TableIs(s0, s, shell, Extra(childStdin) + {a, b}) && EnvOk(env, shell)
    requires a < b && a !in Extra(childStdin) && b !in Extra(childStdin)
    ensures TableIs(s0, CloseEnds(s, shell, a, b, env), shell, Extra(childStdin))
  {
    CloseShrinks(s0, s, shell, Extra(childStdin) + {a, b}, a);
    assert Extra(childStdin) + {a, b} - {a} == Extra(childStdin) + {b};
    var t := CloseFd(s, shell, a).state;
    MeanwhileKeepsTable(s0, t, shell, Extra(childStdin) + {b}, env, 5);
    CloseShrinks(s0, PerformAll(t, Others(env, 5)), shell, Extra(childStdin) + {b}, b);
    assert Extra(childStdin) + {b} - {b} == Extra(childStdin);
  }

  lemma LaunchStagesKeepsTable(s0: State, s: State, shell: Pid, a: int, b: int, childStdin: int, firstStdin: int,
                               line: Line, env: Env)
    requires line.Double? && TableIs(s0, s, shell, Extra(childStdin) + {a, b}) && EnvOk(env, shell)
    requires a < b && a !in Extra(childStdin) && b !in Extra(childStdin)
    ensures var l := LaunchStages(s, shell, a, b, childStdin, firstStdin, line, env);
      TableIs(s0, l.state, shell, Extra(childStdin)) && (l.pid1 >= 0 ==> l.pid1 != shell)
  {
    var extra := Extra(childStdin) + {a, b};
    var s1 := PerformAll(s, Others(env, 2));
    MeanwhileKeepsTable(s0, s, shell, extra, env, 2);
    var closing1 := CloseOnFirst(a, childStdin, firstStdin);
    StageKeepsTable(s0, s1, shell, extra, line.usable1, firstStdin, b, closing1, env.first);
    var one := RunStage(s1, shell, line.usable1, firstStdin, b, closing1, env.first);
    MeanwhileKeepsTable(s0, one.state, shell, extra, env, 3);
    var s2 := PerformAll(one.state, Others(env, 3));
    if one.value < 0 {
      CloseEndsKeepsTable(s0, s2, shell, a, b, childStdin, env);
    } else {
      var closing2 := CloseOnSecond(b, childStdin);
      StageKeepsTable(s0, s2, shell, extra, line.usable2, a, STDOUT, closing2, env.second);
      var two := RunStage(s2, shell, line.usable2, a, STDOUT, closing2, env.second);
      MeanwhileKeepsTable(s0, two.state, shell, extra, env, 4);
      CloseEndsKeepsTable(s0, PerformAll(two.state, Others(env, 4)), shell, a, b, childStdin, env);
    }
  }

  // ----- the wiring of the two stages

  lemma ReadsKept(s: State, t: State, p: Pid, pipe: Address)
    requires ReadsFrom(s, p, pipe) && SameTable(s, t, p)
    ensures ReadsFrom(t, p, pipe)
  {
    assert KeepsSlot(s, t, Fd(p, STDIN));
  }

  lemma StillWrites(s: State, t: State, p: Pid, pipe: Address)
    requires Writes(s, Fd(p, STDOUT), pipe) && SameTable(s, t, p)
    ensures Writes(t, Fd(p, STDOUT), pipe)
  {
    assert KeepsSlot(s, t, Fd(p, STDOUT));
  }

  /** The shell closing its two ends leaves the table of a process that makes no call. */
  lemma CloseEndsKeepsOther(s: State, shell: Pid, a: int, b: int, env: Env, p: Pid)
    requires Good(s) && shell in s.procs && p in s.procs && p != shell && EnvOk(env, shell) && Quiet(env, p)
    ensures SameTable(s, CloseEnds(s, shell, a, b, env), p)
  {
    CallKeepsTable(s, Close(shell, a), p);
    var t := CloseFd(s, shell, a).state;
    CallKeepsOthersAlive(s, Close(shell, a), p);
    CloseKeepsSound(s, shell, a, {});
    OthersKeepTable(t, Others(env, 5), p);
    OthersKeepTable(t, Others(env, 5), shell);
    var u := PerformAll(t, Others(env, 5));
    CallKeepsTable(u, Close(shell, b), p);
    SameTableTransitive(s, t, u, p);
    SameTableTransitive(s, u, CloseFd(u, shell, b).state, p);
  }

  lemma CloseEndsLeavesFamily(s: State, shell: Pid, family: set<Pid>, a: int, b: int, env: Env, pipe: Address)
    requires Wired(s, shell, family, a, b, pipe) && EnvOk(env, shell)
    ensures var t, f := CloseEnds(s, shell, a, b, env), CloseFamily(s, shell, a, family, env);
      Good(t) && f <= t.procs && WritersIn(t, f, {}, pipe)
  {
    ClosingReadEnd(s, shell, family, a, b, pipe);
    var t := CloseFd(s, shell, a).state;
    OthersKeepWriteEnd(t, Others(env, 5), shell, family, b, pipe);
    ClosingLeavesFamily(PerformAll(t, Others(env, 5)), shell, CloseFamily(s, shell, a, family, env), b, pipe);
  }

  /** From the start of stage two on: only the family of stage one is left with write access at the end, stage two
      reads if it makes no call, and a process that made none has its table. */
  lemma SecondLaunched(s2: State, shell: Pid, family: set<Pid>, a: int, b: int, childStdin: int, line: Line, env: Env,
                       pipe: Address)
    requires line.Double? && Wired(s2, shell, family, a, b, pipe) && EnvOk(env, shell)
    requires childStdin == -1 || childStdin > 2
    ensures var two := RunStage(s2, shell, line.usable2, a, STDOUT, CloseOnSecond(b, childStdin), env.second);
      var s3 := PerformAll(two.state, Others(env, 4));
      var t := CloseEnds(s3, shell, a, b, env);
      var f := CloseFamily(s3, shell, a, FamilyAfter(two.state, Others(env, 4), family), env);
      && Good(t) && f <= t.procs && WritersIn(t, f, {}, pipe)
      && (two.value >= 0 && Quiet(env, two.value) ==> ReadsFrom(t, two.value, pipe))
      && (forall p :: p in s2.procs && p != shell && Quiet(env, p) ==> SameTable(s2, t, p))
  {
    var closing := CloseOnSecond(b, childStdin);
    var two := RunStage(s2, shell, line.usable2, a, STDOUT, closing, env.second);
    assert closing[0] == b;
    SecondStarted(s2, shell, family, a, b, closing, line, env, pipe);
    OthersKeepWired(two.state, Others(env, 4), shell, family, a, b, pipe);
    var s3 := PerformAll(two.state, Others(env, 4));
    CloseEndsLeavesFamily(s3, shell, FamilyAfter(two.state, Others(env, 4), family), a, b, env, pipe);
    if two.value >= 0 && Quiet(env, two.value) {
      RestKeepsOther(two.state, shell, a, b, env, two.value);
      ReadsKept(two.state, CloseEnds(s3, shell, a, b, env), two.value, pipe);
    }
    forall p | p in s2.procs && p != shell && Quiet(env, p)
      ensures SameTable(s2, CloseEnds(s3, shell, a, b, env), p)
    {
      StageKeepsOther(s2, shell, line.usable2, a, STDOUT, closing, env.second, p);
      RestKeepsOther(two.state, shell, a, b, env, p);
      SameTableTransitive(s2, two.state, CloseEnds(s3, shell, a, b, env), p);
    }
  }

  lemma SecondStarted(s2: State, shell: Pid, family: set<Pid>, a: int, b: int, closing: seq<int>, line: Line, env: Env,
                      pipe: Address)
    requires line.Double? && Wired(s2, shell, family, a, b, pipe) && EnvOk(env, shell)
    requires b in closing && STDIN !in closing
    ensures var two := RunStage(s2, shell, line.usable2, a, STDOUT, closing, env.second);
      && Wired(two.state, shell, family, a, b, pipe)
      && (two.value >= 0 ==>
            two.value in two.state.procs && two.value != shell && ReadsFrom(two.state, two.value, pipe))
  {
    if line.usable2 {
      SpawnKeepsGood(s2, shell, env.second, StageOverrides(a, STDOUT, closing));
      if env.second.Some? && env.second.value !in s2.procs {
        SecondStageWired(s2, shell, family, env.second.value, a, b, pipe, closing);
      }
    }
  }

  lemma StageKeepsOther(s: State, shell: Pid, usable: bool, stdinFd: int, stdoutFd: int, closeFds: seq<int>,
                        child: Option<Pid>, p: Pid)
    requires Good(s) && shell in s.procs && p in s.procs && p != shell
    ensures SameTable(s, RunStage(s, shell, usable, stdinFd, stdoutFd, closeFds, child).state, p)
  {
    SameTableReflexive(s, p);
    if usable {
      CallKeepsTable(s, Create(shell, child, StageOverrides(stdinFd, stdoutFd, closeFds)), p);
    }
  }

  lemma RestKeepsOther(s: State, shell: Pid, a: int, b: int, env: Env, p: Pid)
    requires Good(s) && shell in s.procs && p in s.procs && p != shell && EnvOk(env, shell) && Quiet(env, p)
    ensures SameTable(s, CloseEnds(PerformAll(s, Others(env, 4)), shell, a, b, env), p)
  {
    var u := PerformAll(s, Others(env, 4));
    OthersKeepTable(s, Others(env, 4), p);
    OthersKeepTable(s, Others(env, 4), shell);
    CloseEndsKeepsOther(u, shell, a, b, env, p);
    SameTableTransitive(s, u, CloseEnds(u, shell, a, b, env), p);
  }

  /** What holds of the pipe when two stages have been launched. */
  ghost predicate StagesWired(l: Launched, env: Env, pipe: Address) {
    && Good(l.state) && l.family <= l.state.procs && WritersIn(l.state, l.family, {}, pipe)
    && (l.pid1 >= 0 && Quiet(env, l.pid1) ==> Writes(l.state, Fd(l.pid1, STDOUT), pipe))
    && (l.pid1 >= 0 && l.pid2 >= 0 && Quiet(env, l.pid2) ==> ReadsFrom(l.state, l.pid2, pipe))
  }

  lemma StagesAreWired(s: State, shell: Pid, a: int, b: int, childStdin: int, firstStdin: int, line: Line, env: Env,
                       pipe: Address)
    requires line.Double? && Wired(s, shell, {}, a, b, pipe) && EnvOk(env, shell)
    requires (childStdin == -1 || childStdin > 2) && (firstStdin == -1 || IsValidFd(firstStdin))
    ensures StagesWired(LaunchStages(s, shell, a, b, childStdin, firstStdin, line, env), env, pipe)
  {
    OthersKeepWired(s, Others(env, 2), shell, {}, a, b, pipe);
    EmptyFamily(s, Others(env, 2));
    var s1 := PerformAll(s, Others(env, 2));
    var closing1 := CloseOnFirst(a, childStdin, firstStdin);
    var one := RunStage(s1, shell, line.usable1, firstStdin, b, closing1, env.first);
    FirstStarted(s1, shell, a, b, firstStdin, closing1, line, env, pipe);
    if one.value < 0 {
      FirstFailed(s1, shell, a, b, childStdin, line, env, pipe);
    } else {
      FirstLaunched(one.state, shell, one.value, a, b, childStdin, line, env, pipe);
    }
  }

  lemma FirstStarted(s1: State, shell: Pid, a: int, b: int, firstStdin: int, closing: seq<int>, line: Line, env: Env,
                     pipe: Address)
    requires line.Double? && Wired(s1, shell, {}, a, b, pipe) && EnvOk(env, shell)
    requires (firstStdin == -1 || IsValidFd(firstStdin)) && STDOUT !in closing
    ensures var one := RunStage(s1, shell, line.usable1, firstStdin, b, closing, env.first);
      if one.value < 0 then one == Reply(s1, -1)
      else Wired(one.state, shell, {one.value}, a, b, pipe) && Writes(one.state, Fd(one.value, STDOUT), pipe)
  {
    if line.usable1 && env.first.Some? && env.first.value !in s1.procs {
      FirstStageWired(s1, shell, env.first.value, a, b, pipe, firstStdin, closing);
    }
  }

  lemma {:induction false} EmptyFamily(s: State, calls: seq<Call>)
    ensures FamilyAfter(s, calls, {}) == {}
    decreases |calls|
  {
    if calls != [] {
      assert FamilyStep(s, calls[0], {}) == {};
      EmptyFamily(Attempt(s, calls[0]), calls[1..]);
    }
  }

  /** Without a first stage nobody is left who can write. */
  lemma FirstFailed(s1: State, shell: Pid, a: int, b: int, childStdin: int, line: Line, env: Env, pipe: Address)
    requires line.Double? && Wired(s1, shell, {}, a, b, pipe) && EnvOk(env, shell)
    ensures StagesWired(AfterFirst(Reply(s1, -1), shell, a, b, childStdin, line, env), env, pipe)
  {
    OthersKeepWired(s1, Others(env, 3), shell, {}, a, b, pipe);
    EmptyFamily(s1, Others(env, 3));
    var s2 := PerformAll(s1, Others(env, 3));
    CloseEndsLeavesFamily(s2, shell, {}, a, b, env, pipe);
    EmptyFamily(CloseFd(s2, shell, a).state, Others(env, 5));
  }

  lemma FirstLaunched(s: State, shell: Pid, first: Pid, a: int, b: int, childStdin: int, line: Line, env: Env,
                      pipe: Address)
    requires line.Double? && Wired(s, shell, {first}, a, b, pipe) && EnvOk(env, shell) && first >= 0
    requires Writes(s, Fd(first, STDOUT), pipe) && (childStdin == -1 || childStdin > 2)
    ensures StagesWired(AfterFirst(Reply(s, first), shell, a, b, childStdin, line, env), env, pipe)
  {
    OthersKeepWired(s, Others(env, 3), shell, {first}, a, b, pipe);
    var s2, family2 := PerformAll(s, Others(env, 3)), FamilyAfter(s, Others(env, 3), {first});
    SecondLaunched(s2, shell, family2, a, b, childStdin, line, env, pipe);
    if Quiet(env, first) {
      OthersKeepTable(s, Others(env, 3), first);
      StillWrites(s, s2, first, pipe);
      var two := RunStage(s2, shell, line.usable2, a, STDOUT, CloseOnSecond(b, childStdin), env.second);
      StillWrites(s2, CloseEnds(PerformAll(two.state, Others(env, 4)), shell, a, b, env), first, pipe);
    }
  }

  /** A stage one that creates no process has no other family, and if it makes no call it is still there. */
  lemma LaunchedFamily(s: State, shell: Pid, childStdin: int, firstStdin: int, line: Line, env: Env)
    requires line.Double?
    ensures var l := Launch(s, shell, childStdin, firstStdin, line, env);
      && (l.pid1 < 0 ==> l.family == {})
      && (l.pid1 >= 0 && Childless(env, l.pid1) ==> l.family <= {l.pid1})
  {
    var r := SysPipe(s, shell, AllocatedPipe(s, env.pipe));
    if r.value >= 0 {
      var a, b := r.readFd, r.writeFd;
      var s1 := PerformAll(r.state, Others(env, 2));
      var one := RunStage(s1, shell, line.usable1, firstStdin, b, CloseOnFirst(a, childStdin, firstStdin), env.first);
      var s2 := PerformAll(one.state, Others(env, 3));
      var two := RunStage(s2, shell, line.usable2, a, STDOUT, CloseOnSecond(b, childStdin), env.second);
      var s3, p := PerformAll(two.state, Others(env, 4)), one.value;
      if p >= 0 && Childless(env, p) {
        ChildlessFamily(one.state, Others(env, 3), p, {p});
        var family2 := FamilyAfter(one.state, Others(env, 3), {p});
        ChildlessFamily(two.state, Others(env, 4), p, family2);
        ChildlessFamily(CloseFd(s3, shell, a).state, Others(env, 5), p,
                        FamilyAfter(two.state, Others(env, 4), family2));
      }
    }
  }

  // ----- the whole line

  function FirstStdin(background: bool, childStdin: int): int {
    if background then -1 else if childStdin < 0 then STDIN else childStdin
  }

  function CloseInput(s: State, shell: Pid, childStdin: int): State {
    if childStdin >= 0 then CloseFd(s, shell, childStdin).state else s
  }

  function RunSingle(s: State, shell: Pid, childStdin: int, line: Line, env: Env): State
    requires line.Single?
  {
    var one := RunStage(s, shell, line.usable, FirstStdin(line.background, childStdin), STDOUT,
                        if childStdin >= 0 then [childStdin] else [], env.first);
    CloseInput(PerformAll(one.state, Others(env, 6)), shell, childStdin)
  }

  function RunDouble(s: State, shell: Pid, childStdin: int, line: Line, env: Env): State
    requires line.Double?
  {
    var l := Launch(s, shell, childStdin, FirstStdin(line.background, childStdin), line, env);
    var killed := if l.pid1 >= 0 && l.pid2 < 0 then Terminate(l.state, l.pid1) else l.state;
    CloseInput(PerformAll(killed, Others(env, 6)), shell, childStdin)
  }

  function RunLine(s: State, shell: Pid, line: Line, env: Env): State {
    if line.TooManyStages? then s
    else
      var s1 := PerformAll(s, Others(env, 0));
      var re := ReopenFd(s1, shell, STDIN, Allocated(s1, env.stdinCopy));
      var s2 := PerformAll(re.state, Others(env, 1));
      if line.Single? then RunSingle(s2, shell, re.value, line, env) else RunDouble(s2, shell, re.value, line, env)
  }

  lemma CloseInputRestores(s0: State, s: State, shell: Pid, childStdin: int)
    requires TableIs(s0, s, shell, Extra(childStdin))
    ensures TableIs(s0, CloseInput(s, shell, childStdin), shell, {})
  {
    if childStdin >= 0 {
      CloseShrinks(s0, s, shell, {childStdin}, childStdin);
      assert {childStdin} - {childStdin} == {};
    }
  }

  lemma RunSingleRestores(s0: State, s: State, shell: Pid, childStdin: int, line: Line, env: Env)
    requires line.Single? && TableIs(s0, s, shell, Extra(childStdin)) && EnvOk(env, shell)
    ensures TableIs(s0, RunSingle(s, shell, childStdin, line, env), shell, {})
  {
    var stdinFd, closing := FirstStdin(line.background, childStdin), if childStdin >= 0 then [childStdin] else [];
    StageKeepsTable(s0, s, shell, Extra(childStdin), line.usable, stdinFd, STDOUT, closing, env.first);
    var one := RunStage(s, shell, line.usable, stdinFd, STDOUT, closing, env.first);
    MeanwhileKeepsTable(s0, one.state, shell, Extra(childStdin), env, 6);
    CloseInputRestores(s0, PerformAll(one.state, Others(env, 6)), shell, childStdin);
  }

  lemma LaunchKeepsTable(s0: State, s: State, shell: Pid, childStdin: int, firstStdin: int, line: Line, env: Env)
    requires line.Double? && TableIs(s0, s, shell, Extra(childStdin)) && EnvOk(env, shell)
    ensures var l := Launch(s, shell, childStdin, firstStdin, line, env);
      TableIs(s0, l.state, shell, Extra(childStdin)) && (l.pid1 >= 0 ==> l.pid1 != shell)
  {
    var m := AllocatedPipe(s, env.pipe);
    PipeExtends(s0, s, shell, Extra(childStdin), m);
    var r := SysPipe(s, shell, m);
    if r.value >= 0 {
      LaunchStagesKeepsTable(s0, r.state, shell, r.readFd, r.writeFd, childStdin, firstStdin, line, env);
    }
  }

  lemma RunDoubleRestores(s0: State, s: State, shell: Pid, childStdin: int, line: Line, env: Env)
    requires line.Double? && TableIs(s0, s, shell, Extra(childStdin)) && EnvOk(env, shell)
    ensures TableIs(s0, RunDouble(s, shell, childStdin, line, env), shell, {})
  {
    var stdinFd := FirstStdin(line.background, childStdin);
    LaunchKeepsTable(s0, s, shell, childStdin, stdinFd, line, env);
    var l := Launch(s, shell, childStdin, stdinFd, line, env);
    var killed := l.state;
    if l.pid1 >= 0 && l.pid2 < 0 {
      KillKeepsTable(l.state, shell, l.pid1);
      killed := Terminate(l.state, l.pid1);
      SameTableKeeps(s0, l.state, killed, shell, Extra(childStdin));
    }
    MeanwhileKeepsTable(s0, killed, shell, Extra(childStdin), env, 6);
    CloseInputRestores(s0, PerformAll(killed, Others(env, 6)), shell, childStdin);
  }

  /** The launch inside a two-stage line: after the copy of the input was made. */
  function LineLaunch(s: State, shell: Pid, line: Line, env: Env): Launched
    requires line.Double?
  {
    var s1 := PerformAll(s, Others(env, 0));
    var re := ReopenFd(s1, shell, STDIN, Allocated(s1, env.stdinCopy));
    Launch(PerformAll(re.state, Others(env, 1)), shell, re.value, FirstStdin(line.background, re.value), line, env)
  }

  /** After a two-stage launch from a shell with descriptors 0 to 2 open, whatever everybody did meanwhile, only stage
      one and the living processes that descend from it can write to the pipe: nobody else if it created none.
      It still writes at its output, and stage two reads at its input, as long as they make no call. */
  lemma OnlyStageOneWrites(s: State, shell: Pid, line: Line, env: Env)
    requires line.Double? && Good(s) && shell in s.procs && EnvOk(env, shell)
    requires Fd(shell, STDIN) in s.slots && Fd(shell, STDOUT) in s.slots && Fd(shell, STDERR) in s.slots
    ensures var l := LineLaunch(s, shell, line, env);
      l.pid1 >= 0 ==>
        && env.pipe.pipe.Some? && StagesWired(l, env, env.pipe.pipe.value)
        && (Childless(env, l.pid1) ==> l.family <= {l.pid1})
  {
    var s1 := PerformAll(s, Others(env, 0));
    OthersKeepTable(s, Others(env, 0), shell);
    var re := ReopenFd(s1, shell, STDIN, Allocated(s1, env.stdinCopy));
    InputCopied(s1, shell, env.stdinCopy);
    OthersKeepTable(re.state, Others(env, 1), shell);
    var s2 := PerformAll(re.state, Others(env, 1));
    LaunchIsWired(s2, shell, re.value, FirstStdin(line.background, re.value), line, env);
    LaunchedFamily(s2, shell, re.value, FirstStdin(line.background, re.value), line, env);
  }

  lemma InputCopied(s: State, shell: Pid, mem: Option<Address>)
    requires Good(s) && shell in s.procs
    requires Fd(shell, STDIN) in s.slots && Fd(shell, STDOUT) in s.slots && Fd(shell, STDERR) in s.slots
    ensures var r := ReopenFd(s, shell, STDIN, Allocated(s, mem));
      && Good(r.state) && shell in r.state.procs && (r.value == -1 || 2 < r.value < MAX_FDS)
      && Fd(shell, STDIN) in r.state.slots && Fd(shell, STDOUT) in r.state.slots && Fd(shell, STDERR) in r.state.slots
  {
    ReopenKeepsGood(s, shell, STDIN, Allocated(s, mem));
    assert FirstClosed(s, shell, 0) > 2;
  }

  lemma LaunchIsWired(s: State, shell: Pid, childStdin: int, firstStdin: int, line: Line, env: Env)
    requires line.Double? && Good(s) && shell in s.procs && EnvOk(env, shell)
    requires Fd(shell, STDIN) in s.slots && Fd(shell, STDOUT) in s.slots && Fd(shell, STDERR) in s.slots
    requires (childStdin == -1 || childStdin > 2) && (firstStdin == -1 || IsValidFd(firstStdin))
    ensures var l := Launch(s, shell, childStdin, firstStdin, line, env);
      l.pid1 >= 0 ==> env.pipe.pipe.Some? && StagesWired(l, env, env.pipe.pipe.value)
  {
    var m := AllocatedPipe(s, env.pipe);
    if PipeFits(s, shell, m) {
      PipeKeepsGood(s, shell, m);
      NewPipeIsWired(s, shell, m);
      var r := SysPipe(s, shell, m);
      StagesAreWired(r.state, shell, r.readFd, r.writeFd, childStdin, firstStdin, line, env, m.pipe.value);
    } else {
      FailedPipeChangesNothing(s, shell, m);
    }
  }

  /** ... so in every run from there on the pipe has no writer once the family of stage one is gone; and if stage one
      creates no process, its termination alone ends the stream. */
  lemma PipelineReachesEndOfFile(s: State, shell: Pid, line: Line, env: Env, later: seq<Call>)
    requires line.Double? && Good(s) && shell in s.procs && EnvOk(env, shell)
    requires Fd(shell, STDIN) in s.slots && Fd(shell, STDOUT) in s.slots && Fd(shell, STDERR) in s.slots
    requires env.pipe.pipe.Some? && NeverRemade(LineLaunch(s, shell, line, env).state, later, env.pipe.pipe.value)
    ensures var l, pipe := LineLaunch(s, shell, line, env), env.pipe.pipe.value;
      l.pid1 >= 0 ==>
        var u := PerformAll(l.state, later);
        && WritersIn(u, FamilyAfter(l.state, later, l.family), {}, pipe)
        && (FamilyAfter(l.state, later, l.family) == {} ==> NoWriters(u, pipe))
        && (Childless(env, l.pid1) && NoCreateBy(later, l.pid1) ==>
              NoWriters(Terminate(u, l.pid1), pipe) && (l.pid1 !in u.procs ==> NoWriters(u, pipe)))
  {
    OnlyStageOneWrites(s, shell, line, env);
    var l, pipe := LineLaunch(s, shell, line, env), env.pipe.pipe.value;
    if l.pid1 >= 0 {
      var u := PerformAll(l.state, later);
      RunKeepsWriters(l.state, later, l.family, {}, pipe);
      if FamilyAfter(l.state, later, l.family) == {} {
        NoFamilyNoWriters(u, pipe);
      }
      if Childless(env, l.pid1) && NoCreateBy(later, l.pid1) {
        ChildlessFamily(l.state, later, l.pid1, l.family);
        StageOneGone(u, l.pid1, FamilyAfter(l.state, later, l.family), pipe);
      }
    }
  }

  lemma StageOneGone(u: State, p: Pid, family: set<Pid>, pipe: Address)
    requires Good(u) && family <= u.procs && family <= {p} && WritersIn(u, family, {}, pipe)
    ensures NoWriters(Terminate(u, p), pipe) && (p !in u.procs ==> NoWriters(u, pipe))
  {
    TerminatedWriter(u, p, pipe);
    if p !in u.procs {
      assert family == {};
      NoFamilyNoWriters(u, pipe);
    }
  }

  /** When runLine returns from a line both of whose stages started, the same holds: the launch is part of it. */
  lemma LineLeavesFamily(s: State, shell: Pid, line: Line, env: Env)
    requires line.Double? && Good(s) && shell in s.procs && EnvOk(env, shell) && env.pipe.pipe.Some?
    requires Fd(shell, STDIN) in s.slots && Fd(shell, STDOUT) in s.slots && Fd(shell, STDERR) in s.slots
    requires NeverRemade(LineLaunch(s, shell, line, env).state, Others(env, 6), env.pipe.pipe.value)
    ensures var l := LineLaunch(s, shell, line, env);
      l.pid1 >= 0 && l.pid2 >= 0 ==>
        WritersIn(RunLine(s, shell, line, env), FamilyAfter(l.state, Others(env, 6), l.family), {}, env.pipe.pipe.value)
  {
    var l, pipe := LineLaunch(s, shell, line, env), env.pipe.pipe.value;
    OnlyStageOneWrites(s, shell, line, env);
    if l.pid1 >= 0 && l.pid2 >= 0 {
      RunKeepsWriters(l.state, Others(env, 6), l.family, {}, pipe);
      var childStdin := LineIsLaunchAndClose(s, shell, line, env);
      ClosingAddsNoWriter(PerformAll(l.state, Others(env, 6)), shell, childStdin,
                          FamilyAfter(l.state, Others(env, 6), l.family), pipe);
    }
  }

  lemma LineIsLaunchAndClose(s: State, shell: Pid, line: Line, env: Env) returns (childStdin: int)
    requires line.Double?
    ensures var l := LineLaunch(s, shell, line, env);
      l.pid1 >= 0 && l.pid2 >= 0 ==>
        RunLine(s, shell, line, env) == CloseInput(PerformAll(l.state, Others(env, 6)), shell, childStdin)
  {
    var s1 := PerformAll(s, Others(env, 0));
    childStdin := ReopenFd(s1, shell, STDIN, Allocated(s1, env.stdinCopy)).value;
  }

  lemma ClosingAddsNoWriter(u: State, shell: Pid, childStdin: int, family: set<Pid>, pipe: Address)
    requires Good(u) && WritersIn(u, family, {}, pipe)
    ensures WritersIn(CloseInput(u, shell, childStdin), family, {}, pipe)
  {
    CloseKeepsSound(u, shell, childStdin, {});
    var t := CloseInput(u, shell, childStdin);
    forall k | Writes(t, k, pipe)
      ensures Writes(u, k, pipe)
    {
      assert SameAccess(u, t, t.slots[k]);
    }
  }

  ghost predicate NoWriters(s: State, pipe: Address) {
    (forall k :: !Writes(s, k, pipe)) && (pipe in s.pipes ==> s.pipes[pipe].writerCount == 0)
  }

  /** On every path, whatever fails and however others run in between, the shell's table ends as it began. */
  lemma RunLineRestoresTable(s: State, shell: Pid, line: Line, env: Env)
    requires Good(s) && shell in s.procs && EnvOk(env, shell)
    ensures SameTable(s, RunLine(s, shell, line, env), shell)
  {
    SameTableReflexive(s, shell);
    if !line.TooManyStages? {
      assert TableIs(s, s, shell, {});
      MeanwhileKeepsTable(s, s, shell, {}, env, 0);
      var s1 := PerformAll(s, Others(env, 0));
      ReopenExtends(s, s1, shell, STDIN, Allocated(s1, env.stdinCopy));
      var re := ReopenFd(s1, shell, STDIN, Allocated(s1, env.stdinCopy));
      MeanwhileKeepsTable(s, re.state, shell, Extra(re.value), env, 1);
      var s2 := PerformAll(re.state, Others(env, 1));
      if line.Single? {
        RunSingleRestores(s, s2, shell, re.value, line, env);
      } else {
        RunDoubleRestores(s, s2, shell, re.value, line, env);
      }
    }
  }

  // ----- what each stage is given

  /** The only stage of a line: the shell's descriptors, its input a copy of its own or, in the background, none. */
  lemma SingleStageDescriptors(s: State, shell: Pid, child: Pid, background: bool, childStdin: int, fd: int)
    requires Good(s) && shell in s.procs && child !in s.procs && IsValidFd(fd)
    requires childStdin == -1 || (childStdin > 2 && IsValidFd(childStdin))
    ensures var closing := if childStdin >= 0 then [childStdin] else [];
      var t := Spawn(s, shell, Some(child), StageOverrides(FirstStdin(background, childStdin), STDOUT, closing)).state;
      SlotOf(t, child, fd) ==
        if fd == STDIN
        then (if background then None else SlotOf(s, shell, if childStdin < 0 then STDIN else childStdin))
        else if fd == childStdin then None
        else SlotOf(s, shell, fd)
  {
    var closing := if childStdin >= 0 then [childStdin] else [];
    StageTable(s, shell, child, FirstStdin(background, childStdin), STDOUT, closing, fd);
  }

  /** Stage one writes to the pipe at its output and at b, and cannot read it; in the background it has no input. */
  lemma FirstStageDescriptors(s: State, shell: Pid, child: Pid, background: bool, childStdin: int, a: int, b: int,
                              fd: int)
    requires Good(s) && shell in s.procs && child !in s.procs && IsValidFd(fd)
    requires childStdin == -1 || (childStdin > 2 && IsValidFd(childStdin))
    requires 2 < a < b < MAX_FDS && a != childStdin && b != childStdin
    ensures var stdinFd := FirstStdin(background, childStdin);
      var t := Spawn(s, shell, Some(child), StageOverrides(stdinFd, b, CloseOnFirst(a, childStdin, stdinFd))).state;
      SlotOf(t, child, fd) ==
        if fd == STDIN
        then (if background then None else SlotOf(s, shell, if childStdin < 0 then STDIN else childStdin))
        else if fd == STDOUT then SlotOf(s, shell, b)
        else if fd == a || (fd == childStdin && background) then None
        else SlotOf(s, shell, fd)
  {
    var stdinFd := FirstStdin(background, childStdin);
    StageTable(s, shell, child, stdinFd, b, CloseOnFirst(a, childStdin, stdinFd), fd);
  }

  /** Stage two reads the pipe at its input and at a, and has neither the writing end nor the copy of the shell's
      input. */
  lemma SecondStageDescriptors(s: State, shell: Pid, child: Pid, childStdin: int, a: int, b: int, fd: int)
    requires Good(s) && shell in s.procs && child !in s.procs && IsValidFd(fd)
    requires childStdin == -1 || (childStdin > 2 && IsValidFd(childStdin))
    requires 2 < a < b < MAX_FDS && a != childStdin && b != childStdin
    ensures var t := Spawn(s, shell, Some(child), StageOverrides(a, STDOUT, CloseOnSecond(b, childStdin))).state;
      SlotOf(t, child, fd) ==
        if fd == STDIN then SlotOf(s, shell, a)
        else if fd == b || fd == childStdin then None
        else SlotOf(s, shell, fd)
  {
    StageTable(s, shell, child, a, STDOUT, CloseOnSecond(b, childStdin), fd);
  }

  // ----- as the shell runs it, one system call after the other

  /** The override array of runStage, never longer than its seven places. */
  method FillOverrides(stdinFd: int, stdoutFd: int, closeFds: seq<int>) returns (overrides: array<Override>, n: nat)
    requires |closeFds| <= 2
    ensures fresh(overrides) && n <= overrides.Length == 7
        && overrides[..n] == StageOverrides(stdinFd, stdoutFd, closeFds)
  {
    overrides := new Override[7];
    n := 0;
    if stdinFd == -1 {
      overrides[n] := Override(STDIN, -1);
      n := n + 1;
    } else if stdinFd != STDIN {
      overrides[n] := Override(STDIN, stdinFd);
      n := n + 1;
    }
    if stdoutFd != STDOUT {
      overrides[n] := Override(STDOUT, stdoutFd);
      n := n + 1;
    }
    ghost var placed := InputOverride(stdinFd) + OutputOverride(stdoutFd);
    assert overrides[..n] == placed;
    for i := 0 to |closeFds|
      invariant n == |placed| + i <= 7 && fresh(overrides)
      invariant overrides[..n] == placed + Closings(closeFds)[..i]
    {
      overrides[n] := Override(closeFds[i], -1);
      n := n + 1;
    }
    assert Closings(closeFds)[..|closeFds|] == Closings(closeFds);
  }

  method RunStageCalls(k: DescriptorHeap.Kernel, shell: Pid, usable: bool, stdinFd: int, stdoutFd: int,
                       closeFds: seq<int>, child: Option<Pid>)
    returns (pid: int)
    requires |closeFds| <= 2 && (child.Some? ==> child.value >= 0)
    modifies k
    ensures Reply(k.Abs(), pid) == RunStage(old(k.Abs()), shell, usable, stdinFd, stdoutFd, closeFds, child)
  {
    if !usable {
      return -1;
    }
    var overrides, n := FillOverrides(stdinFd, stdoutFd, closeFds);
    pid := k.StartNewProcessWithFds(shell, child, overrides[..n]);
    if pid < 0 {
      return -1;
    }
  }

  method LaunchCalls(k: DescriptorHeap.Kernel, shell: Pid, childStdin: int, firstStdin: int, line: Line, env: Env)
    returns (pid1: int, pid2: int)
    requires line.Double? && EnvOk(env, shell)
    modifies k
    ensures var l := Launch(old(k.Abs()), shell, childStdin, firstStdin, line, env);
      k.Abs() == l.state && pid1 == l.pid1 && pid2 == l.pid2
  {
    var r, a, b := k.SysPipe(shell, AllocatedPipe(k.Abs(), env.pipe));
    if r < 0 {
      return -1, -1;
    }
    k.PerformAll(Others(env, 2));
    pid1 := RunStageCalls(k, shell, line.usable1, firstStdin, b, CloseOnFirst(a, childStdin, firstStdin), env.first);
    pid2 := -1;
    k.PerformAll(Others(env, 3));
    if pid1 >= 0 {
      pid2 := RunStageCalls(k, shell, line.usable2, a, STDOUT, CloseOnSecond(b, childStdin), env.second);
      k.PerformAll(Others(env, 4));
    }
    var closed := k.CloseFd(shell, a);
    k.PerformAll(Others(env, 5));
    closed := k.CloseFd(shell, b);
  }

  method RunSingleCalls(k: DescriptorHeap.Kernel, shell: Pid, childStdin: int, line: Line, env: Env)
    requires line.Single? && EnvOk(env, shell)
    modifies k
    ensures k.Abs() == RunSingle(old(k.Abs()), shell, childStdin, line, env)
  {
    var closing := if childStdin >= 0 then [childStdin] else [];
    var pid := RunStageCalls(k, shell, line.usable, FirstStdin(line.background, childStdin), STDOUT, closing,
                             env.first);
    k.PerformAll(Others(env, 6));
    if childStdin >= 0 {
      var closed := k.CloseFd(shell, childStdin);
    }
  }

  method RunDoubleCalls(k: DescriptorHeap.Kernel, shell: Pid, childStdin: int, line: Line, env: Env)
    requires line.Double? && EnvOk(env, shell)
    modifies k
    ensures k.Abs() == RunDouble(old(k.Abs()), shell, childStdin, line, env)
  {
    var pid1, pid2 := LaunchCalls(k, shell, childStdin, FirstStdin(line.background, childStdin), line, env);
    if pid1 >= 0 && pid2 < 0 {
      k.TerminateProcess(pid1);
    }
    k.PerformAll(Others(env, 6));
    if childStdin >= 0 {
      var closed := k.CloseFd(shell, childStdin);
    }
  }

  method RunLineCalls(k: DescriptorHeap.Kernel, shell: Pid, line: Line, env: Env)
    requires EnvOk(env, shell)
    modifies k
    ensures k.Abs() == RunLine(old(k.Abs()), shell, line, env)
  {
    if line.TooManyStages? {
      return;
    }
    k.PerformAll(Others(env, 0));
    var childStdin := k.ReopenFd(shell, STDIN, Allocated(k.Abs(), env.stdinCopy));
    k.PerformAll(Others(env, 1));
    if line.Single? {
      RunSingleCalls(k, shell, childStdin, line, env);
    } else {
      RunDoubleCalls(k, shell, childStdin, line, env);
    }
  }
}

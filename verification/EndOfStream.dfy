/**
 * A pipe and the descriptor tables together: reads by any processes and writes by those with write access, interleaved
 * with any system calls on descriptors.  The pipe's writer count is the one the tables keep, so what Pipe asks of those
 * who close it is proved here, and terminating a writer is seen by the reader on the other side.
 */
module EndOfStream {
  import Semaphores
  import K = KernelState
  import P = Pipe
  import PipeInvariant
  import PipeSteps
  import PipeRuns
  import PipeCalls
  import F = FileDescriptors
  import FileInvariant
  import FilePipes
  import FileRuns
  import Pipelines

  type Pid = int
  type Address = F.Address

  /** The descriptor tables of everybody, and one pipe's buffer, semaphores and users. */
  datatype State = State(fs: F.State, io: P.State)

  function WritersLeft(fs: F.State, pipe: Address): int {
    if pipe in fs.pipes then fs.pipes[pipe].writerCount else 0
  }

  ghost predicate HasWriteAccess(fs: F.State, p: Pid, pipe: Address) {
    exists fd: int :: Pipelines.Writes(fs, F.Fd(p, fd), pipe)
  }

  /** Both models are in order, agree on the number of writers, and who is in the middle of a write has write access. */
  ghost predicate Linked(j: State, pipe: Address) {
    && FileInvariant.Good(j.fs) && PipeInvariant.Inv(j.io)
    && j.io.writers == WritersLeft(j.fs, pipe)
    && forall p :: p in j.io.pcs && P.IsWriting(j.io.pcs[p]) ==> HasWriteAccess(j.fs, p, pipe)
  }

  // ----- steps

  datatype Step = Call(call: F.Call) | Io(step: P.Step)

  /** A process in the middle of a read or a write makes no other call; only processes with write access write. */
  ghost predicate CanStep(j: State, s: Step, pipe: Address) {
    match s
    case Call(c) =>
      && F.CanCall(j.fs, c) && !Pipelines.Remakes(j.fs, c, pipe)
      && (c.pid in j.io.pcs ==> j.io.pcs[c.pid] == P.Idle)
    case Io(step) => (
      match step
      case Read(_, _, _) => P.CanStep(j.io, step)
      case Write(p, _, _) => p in j.io.pcs && j.io.pcs[p] == P.Idle && HasWriteAccess(j.fs, p, pipe)
      case Go(_) => P.CanStep(j.io, step)
      case OpenWriter => false
      case Close => false)
  }

  function CloseTimes(io: P.State, n: nat): (io': P.State)
    requires n <= io.writers
    ensures io'.writers == io.writers - n
    decreases n
  {
    if n == 0 then io
    else
      var s := CloseTimes(io, n - 1);
      PipeCalls.PostsKeepWriters(s.(writers := s.writers - 1), P.Data, P.MAX_PROCESSES);
      P.CloseWriter(s)
  }

  /** The pipe after its writer count has become n, one access opened or closed after the other. */
  function Follow(io: P.State, n: nat): P.State {
    if n <= io.writers then CloseTimes(io, io.writers - n) else io.(writers := n)
  }

  ghost function Next(j: State, s: Step, pipe: Address): State
    requires Linked(j, pipe) && CanStep(j, s, pipe)
  {
    match s
    case Call(c) =>
      FileRuns.CallKeepsGood(j.fs, c);
      var fs := F.Perform(j.fs, c);
      CountIsNatural(fs, pipe);
      State(fs, Follow(j.io, WritersLeft(fs, pipe)))
    case Io(step) =>
      PipeCanStep(j, step, pipe);
      State(j.fs, P.Next(j.io, step).state)
  }

  /** The count is zero exactly when nobody can write. */
  lemma CountIsNatural(fs: F.State, pipe: Address)
    requires FileInvariant.Good(fs)
    ensures WritersLeft(fs, pipe) >= 0
    ensures WritersLeft(fs, pipe) == 0 <==> forall k :: !Pipelines.Writes(fs, k, pipe)
  {
    if pipe in fs.pipes {
      Pipelines.EndOfFileExactly(fs, pipe);
    } else {
      assert forall fa :: fa in fs.files ==> fs.files[fa].pipe in fs.pipes;
    }
  }

  /** The pipe of a process with write access is open for writing. */
  lemma PipeCanStep(j: State, step: P.Step, pipe: Address)
    requires Linked(j, pipe) && CanStep(j, Io(step), pipe)
    ensures P.CanStep(j.io, step)
  {
    CountIsNatural(j.fs, pipe);
    if step.Write? {
      var fd: int :| Pipelines.Writes(j.fs, F.Fd(step.pid, fd), pipe);
    }
  }

  // ----- what every step keeps

  /** The processes and which of them write are the same. */
  ghost predicate SameWriting(io: P.State, io': P.State) {
    && io'.pcs.Keys == io.pcs.Keys && io'.writers == io.writers
    && forall p :: p in io.pcs ==> (P.IsWriting(io'.pcs[p]) <==> P.IsWriting(io.pcs[p]))
  }

  lemma PostKeepsWriting(io: P.State, w: P.Which)
    ensures SameWriting(io, P.PostOn(io, w))
  {
  }

  lemma {:induction false} PostsKeepWriting(io: P.State, w: P.Which, n: nat)
    ensures SameWriting(io, P.PostTimes(io, w, n))
    decreases n
  {
    if n > 0 {
      PostKeepsWriting(io, w);
      PostsKeepWriting(P.PostOn(io, w), w, n - 1);
    }
  }

  /** Only a step that begins a write makes a process a writer. */
  ghost predicate NoNewWriting(io: P.State, io': P.State) {
    && io'.writers == io.writers
    && forall p :: p in io'.pcs && P.IsWriting(io'.pcs[p]) ==> p in io.pcs && P.IsWriting(io.pcs[p])
  }

  lemma ReadCriticalWriting(io: P.State, p: Pid, count: nat, blocking: bool)
    requires p in io.pcs && io.pcs[p].HRead?
    ensures NoNewWriting(io, P.ReadCritical(io, p, count, blocking).state)
  {
    if io.buffer != [] {
      var n := P.Min(count, |io.buffer|);
      var s0 := io.(buffer := io.buffer[n..], delivered := io.delivered + io.buffer[..n]);
      PostsKeepWriting(s0, P.Space, n);
      var s1 := P.Drain(io, count);
      PostKeepsWriting(s1, P.Data);
      var s2 := if blocking && s1.buffer != [] then P.PostOn(s1, P.Data) else s1;
      PostKeepsWriting(P.Leave(s2, p), P.ReadLock);
    } else {
      PostKeepsWriting(P.Leave(io, p), P.ReadLock);
    }
  }

  lemma WriteGoesOn(io: P.State, step: P.Step)
    requires step.Go? && P.CanStep(io, step) && (io.pcs[step.pid].HWrite? || io.pcs[step.pid].HSpace?)
    ensures NoNewWriting(io, P.Next(io, step).state)
  {
    var p := step.pid;
    match io.pcs[p]
    case HWrite(buf, n, nonblocking) =>
      PostKeepsWriting(P.Leave(io, p).(writes := io.writes + [buf[..n]]), P.WriteLock);
    case HSpace(buf, n, nonblocking) =>
      if |io.buffer| < P.PIPE_BUF_SIZE {
        PostKeepsWriting(io.(buffer := io.buffer + [buf[n]], accepted := io.accepted + [buf[n]],
                             pcs := io.pcs[p := P.HWrite(buf, n + 1, nonblocking)]), P.Data);
      }
  }

  lemma IoWriting(io: P.State, step: P.Step)
    requires P.CanStep(io, step) && (step.Read? || step.Go?)
    ensures NoNewWriting(io, P.Next(io, step).state)
  {
    if step.Go? {
      var p := step.pid;
      match io.pcs[p]
      case HData(count) =>
      case HRead(count, blocking) => ReadCriticalWriting(io, p, count, blocking);
      case _ => WriteGoesOn(io, step);
    }
  }

  lemma IoKeepsLinked(j: State, step: P.Step, pipe: Address)
    requires Linked(j, pipe) && CanStep(j, Io(step), pipe)
    ensures Linked(Next(j, Io(step), pipe), pipe)
  {
    PipeCanStep(j, step, pipe);
    PipeRuns.StepKeepsInv(j.io, step);
    if !step.Write? {
      IoWriting(j.io, step);
    }
  }

  /** Closing some but not all write accesses only counts. */
  lemma {:induction false} CloseSome(io: P.State, n: nat)
    requires n < io.writers
    ensures CloseTimes(io, n) == io.(writers := io.writers - n)
    decreases n
  {
    if n > 0 {
      CloseSome(io, n - 1);
    }
  }

  lemma {:induction false} CloseTimesKeepsInv(io: P.State, n: nat)
    requires PipeInvariant.Inv(io) && n <= io.writers && (n == io.writers ==> P.NobodyWrites(io))
    ensures PipeInvariant.Inv(CloseTimes(io, n))
    decreases n
  {
    if n > 0 {
      CloseTimesKeepsInv(io, n - 1);
      CloseSome(io, n - 1);
      PipeSteps.CloseKeepsInv(CloseTimes(io, n - 1));
    }
  }

  lemma {:induction false} OpenTimesKeepsInv(io: P.State, n: nat)
    requires PipeInvariant.Inv(io) && 0 < io.writers <= n
    ensures PipeInvariant.Inv(io.(writers := n))
    decreases n
  {
    if io.writers < n {
      OpenTimesKeepsInv(io, n - 1);
      PipeSteps.OpenKeepsInv(io.(writers := n - 1));
    } else {
      assert io.(writers := n) == io;
    }
  }

  lemma FollowKeepsInv(io: P.State, n: nat)
    requires PipeInvariant.Inv(io) && (n > 0 ==> io.writers > 0) && (n == 0 ==> P.NobodyWrites(io))
    ensures PipeInvariant.Inv(Follow(io, n))
  {
    if n > io.writers {
      OpenTimesKeepsInv(io, n);
    } else {
      CloseTimesKeepsInv(io, io.writers - n);
    }
  }

  lemma FollowCounts(io: P.State, n: nat)
    ensures Follow(io, n).writers == n
    ensures n > 0 ==> Follow(io, n) == io.(writers := n)
  {
    if 0 < n <= io.writers {
      CloseSome(io, io.writers - n);
    }
  }

  lemma ClosedPipeHasNoWrite(io: P.State)
    requires PipeInvariant.Inv(io) && io.writers == 0
    ensures P.NobodyWrites(io)
  {
  }

  /** Write access does not come from nowhere. */
  lemma NoWriterStaysSo(fs: F.State, c: F.Call, pipe: Address)
    requires FileInvariant.Good(fs) && F.CanCall(fs, c) && !Pipelines.Remakes(fs, c, pipe)
    requires WritersLeft(fs, pipe) == 0
    ensures FileInvariant.Good(F.Perform(fs, c)) && WritersLeft(F.Perform(fs, c), pipe) == 0
  {
    var t := F.Perform(fs, c);
    FileRuns.CallKeepsGood(fs, c);
    CountIsNatural(fs, pipe);
    CountIsNatural(t, pipe);
    if k :| Pipelines.Writes(t, k, pipe) {
      Pipelines.NoNewWriter(fs, c, pipe, k);
    }
  }

  /** A call of one process takes no write access from another. */
  lemma OthersKeepAccess(fs: F.State, c: F.Call, p: Pid, pipe: Address)
    requires FileInvariant.Good(fs) && F.CanCall(fs, c) && c.pid != p && HasWriteAccess(fs, p, pipe)
    ensures HasWriteAccess(F.Perform(fs, c), p, pipe)
  {
    var fd: int :| Pipelines.Writes(fs, F.Fd(p, fd), pipe);
    var k := F.Fd(p, fd);
    assert FileInvariant.SlotOk(fs, k);
    FileRuns.CallIsLocal(fs, c, k);
    assert FileRuns.KeepsSlot(fs, F.Perform(fs, c), k);
    assert Pipelines.Writes(F.Perform(fs, c), F.Fd(p, fd), pipe);
  }

  /** Whatever is called, the last write access is not closed under a write in progress, and a new one is cloned from an
      open one: both are conditions of the pipe's own steps. */
  lemma CallKeepsLinked(j: State, c: F.Call, pipe: Address)
    requires Linked(j, pipe) && CanStep(j, Call(c), pipe)
    ensures Linked(Next(j, Call(c), pipe), pipe)
  {
    var fs := F.Perform(j.fs, c);
    FileRuns.CallKeepsGood(j.fs, c);
    CountIsNatural(fs, pipe);
    if j.io.writers == 0 {
      NoWriterStaysSo(j.fs, c, pipe);
    }
    WritersKeepAccess(j, c, pipe);
    var n := WritersLeft(fs, pipe);
    FollowKeepsInv(j.io, n);
    FollowCounts(j.io, n);
    if n == 0 {
      ClosedPipeHasNoWrite(Follow(j.io, n));
    }
  }

  lemma WritersKeepAccess(j: State, c: F.Call, pipe: Address)
    requires Linked(j, pipe) && CanStep(j, Call(c), pipe)
    ensures var fs := F.Perform(j.fs, c);
      && (forall p :: p in j.io.pcs && P.IsWriting(j.io.pcs[p]) ==> HasWriteAccess(fs, p, pipe))
      && (WritersLeft(fs, pipe) == 0 ==> P.NobodyWrites(j.io))
  {
    var fs := F.Perform(j.fs, c);
    FileRuns.CallKeepsGood(j.fs, c);
    CountIsNatural(fs, pipe);
    forall p | p in j.io.pcs && P.IsWriting(j.io.pcs[p])
      ensures HasWriteAccess(fs, p, pipe) && WritersLeft(fs, pipe) != 0
    {
      OthersKeepAccess(j.fs, c, p, pipe);
      var fd: int :| Pipelines.Writes(fs, F.Fd(p, fd), pipe);
    }
  }

  lemma StepKeepsLinked(j: State, s: Step, pipe: Address)
    requires Linked(j, pipe) && CanStep(j, s, pipe)
    ensures Linked(Next(j, s, pipe), pipe)
  {
    match s
    case Call(c) => CallKeepsLinked(j, c, pipe);
    case Io(step) => IoKeepsLinked(j, step, pipe);
  }

  // ----- runs

  ghost predicate Legal(j: State, run: seq<Step>, pipe: Address)
    requires Linked(j, pipe)
    decreases |run|
  {
    run != [] ==>
      && CanStep(j, run[0], pipe)
      && (StepKeepsLinked(j, run[0], pipe); Legal(Next(j, run[0], pipe), run[1..], pipe))
  }

  ghost function After(j: State, run: seq<Step>, pipe: Address): (j': State)
    requires Linked(j, pipe) && Legal(j, run, pipe)
    ensures Linked(j', pipe)
    decreases |run|
  {
    if run == [] then j else StepKeepsLinked(j, run[0], pipe); After(Next(j, run[0], pipe), run[1..], pipe)
  }

  /** The system calls of a run. */
  function Calls(run: seq<Step>): seq<F.Call> {
    if run == [] then [] else (if run[0].Call? then [run[0].call] else []) + Calls(run[1..])
  }

  /** The two models agree when sysPipe has just made the pipe, whoever will use it. */
  lemma NewPipeIsLinked(fs: F.State, p: Pid, m: F.PipeMemory, pids: set<Pid>)
    requires FileInvariant.Good(fs) && p in fs.procs && F.UnusedAnswers(fs, m) && FilePipes.PipeFits(fs, p, m)
    requires |pids| <= P.MAX_PROCESSES && Semaphores.NOBODY !in pids
    ensures Linked(State(F.SysPipe(fs, p, m).state, P.NewPipe(pids)), m.pipe.value)
  {
    FilePipes.PipeKeepsGood(fs, p, m);
    PipeRuns.NewPipeIsGood(pids);
    OneWriter(fs, F.SysPipe(fs, p, m).state, m);
  }

  lemma OneWriter(fs: F.State, t: F.State, m: F.PipeMemory)
    requires FileInvariant.Good(fs) && FileInvariant.Good(t) && F.UnusedAnswers(fs, m)
    requires m.pipe.Some? && m.readEnd.Some? && m.writeEnd.Some?
    requires exists p, a, b :: FilePipes.PipeMade(fs, t, p, a, b, m)
    ensures WritersLeft(t, m.pipe.value) == 1
  {
    var q, w := m.pipe.value, m.writeEnd.value;
    var p, a, b :| FilePipes.PipeMade(fs, t, p, a, b, m);
    assert forall fa :: fa in fs.files ==> fs.files[fa].pipe in fs.pipes;
    assert forall fa :: fa in FileInvariant.WritersOf(t, q) <==> fa == w;
    assert FileInvariant.WritersOf(t, q) == {w};
  }

  lemma {:induction false} RunPerformsCalls(j: State, run: seq<Step>, pipe: Address)
    requires Linked(j, pipe) && Legal(j, run, pipe)
    ensures After(j, run, pipe).fs == F.PerformAll(j.fs, Calls(run))
    ensures Pipelines.NeverRemade(j.fs, Calls(run), pipe)
    decreases |run|
  {
    if run != [] {
      var j' := Next(j, run[0], pipe);
      StepKeepsLinked(j, run[0], pipe);
      RunPerformsCalls(j', run[1..], pipe);
      if run[0].Call? {
        assert Calls(run)[0] == run[0].call && Calls(run)[1..] == Calls(run[1..]);
      } else {
        assert Calls(run) == Calls(run[1..]);
      }
    }
  }

  // ----- the end of the stream

  /** A process in the middle of a read. */
  predicate IsReading(io: P.State, p: Pid) {
    p in io.pcs && (io.pcs[p].WData? || io.pcs[p].HData? || io.pcs[p].WRead? || io.pcs[p].HRead?)
  }

  /** No write access is left, no reader sleeps for data, and each one can go on or waits for one that can. */
  ghost predicate AtTheEnd(io: P.State) {
    && io.writers == 0
    && (forall p :: !PipeRuns.Asleep(io, p, P.Data))
    && (forall p :: IsReading(io, p) ==>
          PipeRuns.Runnable(io, p) || exists q :: PipeRuns.Runnable(io, q) && io.pcs[q].HRead?)
  }

  lemma NoWritersIsTheEnd(io: P.State)
    requires PipeInvariant.Inv(io) && io.writers == 0
    ensures AtTheEnd(io)
  {
    assert PipeInvariant.QueueOk(io, P.Data);
    forall p | IsReading(io, p)
      ensures PipeRuns.Runnable(io, p) || exists q :: PipeRuns.Runnable(io, q) && io.pcs[q].HRead?
    {
      if io.pcs[p].WRead? {
        PipeRuns.SleeperOnReadLockHasHolder(io, p);
      } else {
        assert p in io.data.queue <==> io.pcs[p].WData?;
      }
    }
  }

  /** Once the family of the writers is gone, in whatever way and whatever everybody else did with the pipe, no reader
      sleeps for data any more. */
  lemma StreamEnds(j: State, run: seq<Step>, family: set<Pid>, pipe: Address)
    requires Linked(j, pipe) && Legal(j, run, pipe)
    requires Pipelines.WritersIn(j.fs, family, {}, pipe) && family <= j.fs.procs
    requires Pipelines.FamilyAfter(j.fs, Calls(run), family) == {}
    ensures AtTheEnd(After(j, run, pipe).io)
  {
    var j' := After(j, run, pipe);
    RunPerformsCalls(j, run, pipe);
    Pipelines.RunKeepsWriters(j.fs, Calls(run), family, {}, pipe);
    Pipelines.NoFamilyNoWriters(j'.fs, pipe);
    NoWritersIsTheEnd(j'.io);
  }

  /** From then on a blocking read never sleeps again: it takes what is in the buffer, and reads 0 bytes exactly when
      the buffer is empty. */
  lemma ReadAtTheEnd(io: P.State, p: Pid, count: nat)
    requires PipeInvariant.Inv(io) && io.writers == 0
    requires p in io.pcs && io.pcs[p] == P.HRead(count, true) && count > 0
    ensures var r := P.ReadCritical(io, p, count, true).ret;
      && r.Returned? && r.value == P.Min(count, |io.buffer|) && r.bytes == io.buffer[..r.value]
      && (r.value == 0 <==> io.delivered == io.accepted)
  {
    assert io.accepted == io.delivered + io.buffer;
  }

  // ----- the readers that were asleep

  /** Posts on data only wake sleepers. */
  ghost predicate OnlyWakes(io: P.State, io': P.State) {
    && io'.pcs.Keys == io.pcs.Keys
    && forall p :: p in io.pcs ==>
         io'.pcs[p] == io.pcs[p] || (io.pcs[p].WData? && io'.pcs[p] == P.Granted(io.pcs[p]))
  }

  lemma {:induction false} PostsOnlyWake(io: P.State, n: nat)
    requires PipeInvariant.QueuesOk(io)
    ensures OnlyWakes(io, P.PostTimes(io, P.Data, n))
    decreases n
  {
    if n > 0 {
      var io' := P.PostOn(io, P.Data);
      var h := PipeInvariant.PostIs(io, P.Data);
      PipeInvariant.PostStates(io, P.Data, io', h);
      PipeInvariant.PostKeepsQueues(io, P.Data, io', h);
      PostsOnlyWake(io', n - 1);
    }
  }

  /** Closing down to zero is a series of posts on data. */
  lemma LastCloseIsPosts(io: P.State) returns (s: P.State)
    requires PipeInvariant.QueuesOk(io) && io.writers > 0
    ensures s == io.(writers := 0) && PipeInvariant.QueuesOk(s)
    ensures Follow(io, 0) == P.PostTimes(s, P.Data, P.MAX_PROCESSES)
  {
    s := io.(writers := 0);
    CloseSome(io, io.writers - 1);
    assert forall w :: PipeInvariant.QueueOk(io, w) ==> PipeInvariant.QueueOk(s, w);
  }

  /** The last close wakes every reader asleep for data, and changes nobody else. */
  lemma LastCloseWakes(io: P.State)
    requires PipeInvariant.Inv(io) && io.writers > 0 && P.NobodyWrites(io)
    ensures var io' := Follow(io, 0);
      AtTheEnd(io') && OnlyWakes(io, io')
      && forall p :: PipeRuns.Asleep(io, p, P.Data) ==> io'.pcs[p] == P.HData(io.pcs[p].count)
  {
    var io' := Follow(io, 0);
    FollowKeepsInv(io, 0);
    NoWritersIsTheEnd(io');
    var s := LastCloseIsPosts(io);
    PostsOnlyWake(s, P.MAX_PROCESSES);
    assert OnlyWakes(io, io');
    forall p | PipeRuns.Asleep(io, p, P.Data)
      ensures io'.pcs[p] == P.HData(io.pcs[p].count)
    {
      assert !PipeRuns.Asleep(io', p, P.Data);
    }
  }

  /** Terminating the only writer of a pipe wakes every reader blocked on it, which then reads what is left, or 0. */
  lemma TerminationWakesReaders(j: State, p: Pid, pipe: Address)
    requires Linked(j, pipe) && CanStep(j, Call(F.Exit(p)), pipe)
    requires Pipelines.OnlyWriter(j.fs, p, pipe) && j.io.writers > 0
    ensures var j' := Next(j, Call(F.Exit(p)), pipe);
      && Linked(j', pipe) && AtTheEnd(j'.io) && OnlyWakes(j.io, j'.io)
      && forall r :: PipeRuns.Asleep(j.io, r, P.Data) ==> j'.io.pcs[r] == P.HData(j.io.pcs[r].count)
  {
    var c := F.Exit(p);
    var j' := Next(j, Call(c), pipe);
    CallKeepsLinked(j, c, pipe);
    Pipelines.TerminatedWriter(j.fs, p, pipe);
    WritersKeepAccess(j, c, pipe);
    LastCloseWakes(j.io);
  }

  // ----- the same posts in the kernel

  /** The pipe's data semaphore is the kernel's, and its sleepers are blocked processes. */
  ghost predicate Mirrors(k: K.Kernel, io: P.State, id: K.SemId) {
    && Semaphores.NOBODY !in k.table && PipeInvariant.QueuesOk(io)
    && id in k.sems && k.sems[id] == io.data
    && forall p :: PipeRuns.Asleep(io, p, P.Data) ==> K.InState(k, p, K.BLOCKED)
  }

  function SemPosts(k: K.Kernel, id: K.SemId, n: nat): K.Kernel
    decreases n
  {
    if n == 0 then k else SemPosts(K.SemPost(k, id), id, n - 1)
  }

  /** Who was ready is ready, and queued if it was. */
  ghost predicate StaysReady(k: K.Kernel, k': K.Kernel) {
    && k'.table.Keys == k.table.Keys
    && forall p :: K.InState(k, p, K.READY) && p in k.ready ==> K.InState(k', p, K.READY) && p in k'.ready
  }

  /** One post of the protocol is one semPost of the kernel: the reader it wakes is made ready. */
  lemma PostIsSemPost(k: K.Kernel, io: P.State, id: K.SemId)
    requires Mirrors(k, io, id)
    ensures var k', io' := K.SemPost(k, id), P.PostOn(io, P.Data);
      && Mirrors(k', io', id) && StaysReady(k, k')
      && forall p :: PipeRuns.Asleep(io, p, P.Data) && !PipeRuns.Asleep(io', p, P.Data) ==>
           K.InState(k', p, K.READY) && p in k'.ready
  {
    var k', io' := K.SemPost(k, id), P.PostOn(io, P.Data);
    assert PipeInvariant.QueueOk(io, P.Data);
    var h := PipeInvariant.PostIs(io, P.Data);
    PipeInvariant.PostStates(io, P.Data, io', h);
    PipeInvariant.PostKeepsQueues(io, P.Data, io', h);
    Semaphores.PostExact(io.data, K.Blocked(k));
    var q := io.data.queue;
    if q != [] {
      assert q[0] in q && PipeRuns.Asleep(io, q[0], P.Data);
      assert Semaphores.FirstBlocked(q, K.Blocked(k)) == 0;
    }
    assert forall p :: PipeRuns.Asleep(io', p, P.Data) ==> p != h && PipeRuns.Asleep(io, p, P.Data);
  }

  /** All the posts of the last close: every reader that slept for data is ready and queued for the processor. */
  lemma {:induction false} PostsAreSemPosts(k: K.Kernel, io: P.State, id: K.SemId, n: nat)
    requires Mirrors(k, io, id)
    ensures var k', io' := SemPosts(k, id, n), P.PostTimes(io, P.Data, n);
      && Mirrors(k', io', id) && StaysReady(k, k')
      && forall p :: PipeRuns.Asleep(io, p, P.Data) && !PipeRuns.Asleep(io', p, P.Data) ==>
           K.InState(k', p, K.READY) && p in k'.ready
    decreases n
  {
    if n > 0 {
      PostIsSemPost(k, io, id);
      PostsAreSemPosts(K.SemPost(k, id), P.PostOn(io, P.Data), id, n - 1);
    }
  }

  /** In the kernel: after the posts of the last close every reader that slept for data is ready to run. */
  lemma SleepersBecomeReady(k: K.Kernel, io: P.State, id: K.SemId)
    requires Mirrors(k, io, id) && PipeInvariant.Inv(io) && io.writers > 0 && P.NobodyWrites(io)
    ensures var k', io' := SemPosts(k, id, P.MAX_PROCESSES), Follow(io, 0);
      && Mirrors(k', io', id)
      && forall p :: PipeRuns.Asleep(io, p, P.Data) ==> K.InState(k', p, K.READY) && p in k'.ready
  {
    var s := LastCloseIsPosts(io);
    LastCloseWakes(io);
    assert forall p :: PipeRuns.Asleep(s, p, P.Data) <==> PipeRuns.Asleep(io, p, P.Data);
    PostsAreSemPosts(k, s, id, P.MAX_PROCESSES);
  }
}

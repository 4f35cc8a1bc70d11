/** The scheduler and its processes in place: the process table, the ready queue, the current process and the
    semaphores. */
module Scheduler {
  import opened Semaphores
  import opened KernelState
  import opened KernelInvariant
  import opened KernelSteps
  import opened KernelTermination
  import opened KernelReaping
  import KernelStart
  import KernelActions
  import KernelEffects

  class System {
    var processTable: map<Pid, Pcb>
    var readyQueue: seq<Pid>
    var currentProcess: Pid
    var semaphores: map<SemId, Sem>
    var created: nat  // numbers processes by creation; not a field of the kernel

    ghost function Abs(): Kernel
      reads this
    {
      Kernel(processTable, readyQueue, currentProcess, semaphores, created)
    }

    /** initializeScheduler: idle and init, both ready. */
    constructor InitializeScheduler()
      ensures Abs() == Boot() && Good(Abs())
    {
      processTable, readyQueue, currentProcess, semaphores, created := map[], [], -1, map[], 0;
      new;
      var idle := StartNewProcessWithPid(IDLE_PID, 1, true);
      var init := StartNewProcessWithPid(INIT_PID, 1, true);
      KernelStart.BootIsGood();
    }

    // ----- semaphores

    /** Take a unit or go to the end of the queue; a process that must block yields with the call still to finish. */
    method SemWait(id: SemId, call: Call) returns (mustBlock: bool)
      requires id in semaphores && currentProcess in processTable
      modifies this
      ensures Abs() == KernelState.SemWait(old(Abs()), id, call)
      ensures mustBlock == !WaitPasses(old(semaphores)[id])
      ensures KernelActions.TakesOrBlocks(old(Abs()), id, call, Abs())
    {
      KernelActions.WaitActs(Abs(), id, call);
      var sem := semaphores[id];
      sem := sem.(value := sem.value - 1);
      mustBlock := sem.value < 0;
      if mustBlock {
        processTable := processTable[currentProcess := processTable[currentProcess].(state := BLOCKED, call := call)];
        sem := sem.(queue := sem.queue + [currentProcess]);
      }
      semaphores := semaphores[id := sem];
    }

    /** Give a unit back, or wake the longest-waiting process that is still blocked. */
    method SemPost(id: SemId) returns (r: int)
      requires NOBODY !in processTable
      modifies this
      ensures Abs() == KernelState.SemPost(old(Abs()), id)
      ensures r == if id in old(semaphores) then 0 else -1
    {
      if id !in semaphores {
        return -1;
      }
      ghost var blocked := Blocked(Abs());
      var sem := semaphores[id];
      sem := sem.(value := sem.value + 1);
      while sem.value <= 0 && sem.queue != []
        invariant semaphores == old(semaphores) && processTable == old(processTable) && readyQueue == old(readyQueue)
        invariant currentProcess == old(currentProcess) && created == old(created)
        invariant Post(old(semaphores)[id], blocked) == Hand(sem, blocked)
        decreases |sem.queue|
      {
        var pid := sem.queue[0];
        sem := sem.(queue := sem.queue[1..]);
        if pid in processTable && processTable[pid].state == BLOCKED {
          semaphores := semaphores[id := sem];
          var woken := SetReady(pid);
          return 0;
        }
        sem := sem.(value := sem.value + 1);
      }
      semaphores := semaphores[id := sem];
      return 0;
    }

    method SemTryWait(id: SemId) returns (got: int)
      modifies this
      ensures Abs() == KernelState.SemTryWait(old(Abs()), id)
      ensures got == (if id in old(semaphores) && WaitPasses(old(semaphores)[id]) then 0 else -1)
    {
      got := -1;
      if id in semaphores {
        if semaphores[id].value > 0 {
          semaphores := semaphores[id := semaphores[id].(value := semaphores[id].value - 1)];
          got := 0;
        } else {
          assert semaphores[id := semaphores[id]] == semaphores;
        }
      }
    }

    // ----- states and priorities

    method SetReady(pid: Pid) returns (r: int)
      modifies this
      ensures Abs() == MakeReady(old(Abs()), pid)
      ensures r == if InState(old(Abs()), pid, BLOCKED) then 0 else -1
      ensures KernelActions.Continues(old(Abs()), pid, Abs())
    {
      if pid !in processTable || processTable[pid].state != BLOCKED {
        return -1;
      }
      readyQueue := readyQueue + [pid];
      processTable := processTable[pid := processTable[pid].(state := READY)];
      return 0;
    }

    method SetBlocked(pid: Pid) returns (r: int)
      modifies this
      ensures Abs() == KernelState.SetBlocked(old(Abs()), pid)
      ensures r == if Ordinary(pid) && (InState(old(Abs()), pid, RUNNING) || InState(old(Abs()), pid, READY))
                   then 0 else -1
      ensures ReadyOk(old(Abs())) ==> KernelActions.Stops(old(Abs()), pid, Abs())
    {
      if ReadyOk(Abs()) {
        KernelActions.StopActs(Abs(), pid);
      }
      if pid !in processTable || pid == IDLE_PID || pid == INIT_PID {
        return -1;
      }
      var s := processTable[pid].state;
      if s != RUNNING && s != READY {
        return -1;
      }
      if s == READY {
        readyQueue := Remove(readyQueue, pid);
      }
      processTable := processTable[pid := processTable[pid].(state := BLOCKED)];
      return 0;
    }

    method SetPriorityOnPid(pid: Pid, priority: nat) returns (r: int)
      modifies this
      ensures Abs() == SetPriority(old(Abs()), pid, priority)
      ensures r == if pid in old(processTable) && priority > 0 then 0 else -1
      ensures KernelActions.Renices(old(Abs()), pid, priority, Abs())
    {
      if pid !in processTable || priority == 0 {
        return -1;
      }
      processTable := processTable[pid := processTable[pid].(priority := priority, remaining := priority)];
      return 0;
    }

    // ----- scheduling

    method GetNextPid() returns (pid: Pid)
      modifies this
      ensures pid == NextPid(old(Abs()))
      ensures Abs() == if old(readyQueue) == [] then old(Abs()) else old(Abs()).(ready := old(readyQueue)[1..])
    {
      if readyQueue == [] {
        return IDLE_PID;
      }
      pid := readyQueue[0];
      readyQueue := readyQueue[1..];
    }

    method PutBack()
      requires currentProcess in processTable
      modifies this
      ensures var k, p := old(Abs()), old(currentProcess);
        Abs() == SetState(k, p, READY).(ready := k.ready + [p])
    {
      processTable := processTable[currentProcess := processTable[currentProcess].(state := READY)];
      readyQueue := readyQueue + [currentProcess];
    }

    method DispatchNext()
      requires NextPid(Abs()) in processTable
      modifies this
      ensures Abs() == Dispatch(old(Abs()))
    {
      var nextPid := GetNextPid();
      currentProcess := nextPid;
      var p := processTable[nextPid].(state := RUNNING);
      p := p.(remaining := p.priority);
      if p.remaining > 0 {
        p := p.(remaining := p.remaining - 1);
      }
      processTable := processTable[nextPid := p];
    }

    /** The timer tick and the forced call: use a quantum, or switch to the next ready process. */
    method Schedule()
      requires Good(Abs())
      modifies this
      ensures Abs() == KernelState.Schedule(old(Abs()))
      ensures Good(Abs()) && InState(Abs(), currentProcess, RUNNING)
      ensures KernelActions.Ticks(old(Abs()), Abs())
    {
      TickKeepsGood(Abs());
      KernelActions.TickActs(Abs());
      if currentProcess in processTable && processTable[currentProcess].state == RUNNING {
        RequeueReady(Abs());
        var p := processTable[currentProcess];
        if p.remaining > 0 {
          processTable := processTable[currentProcess := p.(remaining := p.remaining - 1)];
          return;
        }
        PutBack();
        NextPidIsReady(Abs().(current := -1));
      } else {
        NextPidIsReady(Abs());
      }
      DispatchNext();
    }

    // ----- creation

    method FindFreePid() returns (pid: Pid)
      ensures pid == if FreePidFrom(Abs(), 0) < MAX_PROCESSES then FreePidFrom(Abs(), 0) else -1
    {
      var i := 0;
      while i < MAX_PROCESSES
        invariant 0 <= i <= MAX_PROCESSES && FreePidFrom(Abs(), i) == FreePidFrom(Abs(), 0)
      {
        if i !in processTable {
          return i;
        }
        i := i + 1;
      }
      return -1;
    }

    method StartNewProcessWithPid(pid: Pid, priority: nat, memory: bool) returns (r: Pid)
      modifies this
      ensures var free := 0 <= pid < MAX_PROCESSES && pid !in old(processTable) && memory;
        && Abs() == (if free then StartWithPid(old(Abs()), pid, priority) else old(Abs()))
        && r == (if free then pid else -1)
    {
      if pid < 0 || pid >= MAX_PROCESSES || pid in processTable || !memory {
        return -1;
      }
      var process := Pcb(READY, priority, priority, INIT_PID, [], [], NoCall, created);
      if currentProcess in processTable && currentProcess != IDLE_PID {
        process := process.(ppid := currentProcess);
        var parent := processTable[currentProcess];
        processTable := processTable[currentProcess := parent.(children := parent.children + [pid])];
      }
      processTable := processTable[pid := process];
      semaphores := semaphores[Terminated(pid) := Sem(0, [])][ChildTerminated(pid) := Sem(0, [])];
      readyQueue := readyQueue + [pid];
      created := created + 1;
      return pid;
    }

    method StartNewProcess(priority: nat, memory: bool) returns (r: Pid)
      modifies this
      ensures Abs() == if memory then Start(old(Abs()), priority) else old(Abs())
      ensures r == if memory && FreePidFrom(old(Abs()), 0) < MAX_PROCESSES then FreePidFrom(old(Abs()), 0) else -1
      ensures memory && old(currentProcess) in old(processTable) && old(currentProcess) != IDLE_PID ==>
                KernelActions.StartsLowest(old(Abs()), priority, Abs())
    {
      if currentProcess in processTable && currentProcess != IDLE_PID {
        KernelActions.StartActs(Abs(), priority);
      }
      var pid := FindFreePid();
      if pid < 0 {
        return -1;
      }
      r := StartNewProcessWithPid(pid, priority, memory);
    }

    // ----- termination

    method NotifyTermination(pid: Pid, parent: Pid)
      requires pid in processTable && parent in processTable && NOBODY !in processTable
      modifies this
      ensures Abs() == KernelState.NotifyTermination(old(Abs()), pid, parent)
    {
      processTable := processTable[pid := processTable[pid].(state := ZOMBIE)];
      readyQueue := Remove(readyQueue, pid);
      var r := SemPost(Terminated(pid));
      r := SemPost(ChildTerminated(parent));
      var p := processTable[parent];
      processTable := processTable[parent := p.(terminatedChildren := p.terminatedChildren + [pid])];
    }

    /** Hang every child of the dying process under init; those already dead are announced there. */
    method TransferOrphanChildren(pid: Pid)
      requires InState(Abs(), pid, ZOMBIE) && Ordinary(pid) && !InState(Abs(), currentProcess, BLOCKED)
      requires processTable[pid].children != [] ==> Inv(Abs(), pid, {})
      modifies this
      ensures Abs() == TransferOrphans(old(Abs()), pid)
    {
      while processTable[pid].children != []
        invariant InState(Abs(), pid, ZOMBIE) && !InState(Abs(), currentProcess, BLOCKED)
        invariant processTable[pid].children != [] ==> Inv(Abs(), pid, {})
        invariant TransferOrphans(Abs(), pid) == TransferOrphans(old(Abs()), pid)
        decreases |processTable[pid].children|
      {
        TransferFirstKeepsInv(Abs(), pid);
        TransferFirstFacts(Abs(), pid);
        TransferUnfolds(Abs(), pid);
        TransferOne(pid);
      }
    }

    method TransferOne(pid: Pid)
      requires FamilyOk(Abs(), pid) && InState(Abs(), pid, ZOMBIE) && Ordinary(pid) && processTable[pid].children != []
      requires NOBODY !in processTable
      modifies this
      ensures Abs() == TransferFirst(old(Abs()), pid)
    {
      MoveIs(Abs(), pid);
      var childPid := processTable[pid].children[0];
      processTable := processTable[pid := processTable[pid].(children := processTable[pid].children[1..])];
      var init := processTable[INIT_PID];
      processTable := processTable[INIT_PID := init.(children := init.children + [childPid])];
      processTable := processTable[childPid := processTable[childPid].(ppid := INIT_PID)];
      if processTable[childPid].state == ZOMBIE {
        var listed := processTable[INIT_PID].terminatedChildren + [childPid];
        processTable := processTable[INIT_PID := processTable[INIT_PID].(terminatedChildren := listed)];
        var r := SemPost(ChildTerminated(INIT_PID));
      }
    }

    /** Kill a process: its parent is notified and its children move to init. */
    method TerminateProcess(pid: Pid) returns (r: int)
      requires Good(Abs()) && InState(Abs(), currentProcess, RUNNING)
      modifies this
      ensures Abs() == Terminate(old(Abs()), pid)
      ensures Good(Abs()) <==> !InState(old(Abs()), pid, ZOMBIE)
      ensures r == if Killable(old(Abs()), pid) then 0 else -1
      ensures !InState(old(Abs()), pid, ZOMBIE) ==> KernelActions.Kills(old(Abs()), pid, Abs())
    {
      KillIsSafeExactlyOnNonZombies(Abs(), pid);
      if !InState(Abs(), pid, ZOMBIE) {
        KernelEffects.TerminateEffect(Abs(), pid);
      }
      if pid == IDLE_PID || pid == INIT_PID || pid !in processTable {
        return -1;
      }
      var ppid := processTable[pid].ppid;
      if ppid !in processTable {
        return -1;
      }
      if processTable[pid].state == ZOMBIE {
        KilledZombieFacts(Abs(), pid);
      } else {
        NotifyTerminationKeepsInv(Abs(), pid);
        NotifyTerminationFacts(Abs(), pid);
      }
      NotifyTermination(pid, ppid);
      TransferOrphanChildren(pid);
      return 0;
    }

    // ----- waiting for children

    method ReapChild(parent: Pid, pid: Pid)
      modifies this
      ensures Abs() == Reap(old(Abs()), parent, pid)
    {
      if parent in processTable {
        var p := processTable[parent];
        processTable := processTable[parent := p.(children := Remove(p.children, pid))];
      }
      processTable := processTable - {pid};
      semaphores := semaphores - {Terminated(pid), ChildTerminated(pid)};
    }

    /** Poll the oldest terminated child of the current process and reap it. */
    method PollTerminated()
      requires currentProcess in processTable
      modifies this
      ensures Abs() == ReapFirst(old(Abs()), currentProcess) && currentProcess == old(currentProcess)
    {
      var p := processTable[currentProcess];
      var pid := 0;
      if p.terminatedChildren != [] {
        pid := p.terminatedChildren[0];
        p := p.(terminatedChildren := p.terminatedChildren[1..]);
      }
      processTable := processTable[currentProcess := p];
      ReapChild(currentProcess, pid);
    }

    method WaitAny()
      requires Good(Abs()) && InState(Abs(), currentProcess, RUNNING) && processTable[currentProcess].call == NoCall
      requires currentProcess != IDLE_PID
      modifies this
      ensures Abs() == KernelState.WaitAny(old(Abs())) && Good(Abs())
      ensures KernelActions.WaitAnyEffect(old(Abs()), Abs())
    {
      WaitAnyKeepsGood(Abs());
      KernelActions.WaitAnyActs(Abs());
      var mustBlock := SemWait(ChildTerminated(currentProcess), InWaitAny);
      if !mustBlock {
        PollTerminated();
      }
    }

    /** The bookkeeping after a wait: the parent gives up a unit and its entries for the child, which is reaped. */
    method FinishWait(parent: Pid, pid: Pid)
      modifies this
      ensures Abs() == FinishWaitPid(old(Abs()), parent, pid)
    {
      if parent in processTable {
        var got := SemTryWait(ChildTerminated(parent));
        var p := processTable[parent];
        processTable := processTable[parent := p.(terminatedChildren := Remove(p.terminatedChildren, pid))];
      }
      ReapChild(parent, pid);
    }

    /** Wait for a process to terminate, and reap it. */
    method WaitPid(pid: Pid)
      requires Good(Abs()) && InState(Abs(), currentProcess, RUNNING) && processTable[currentProcess].call == NoCall
      modifies this
      ensures Abs() == KernelState.WaitPid(old(Abs()), pid)
      ensures Good(Abs()) <==> MayWaitFor(old(Abs()), pid)
      ensures KernelActions.WaitPidEffect(old(Abs()), pid, Abs())
    {
      KernelActions.WaitPidActs(Abs(), pid);
      WaitPidIsSafeExactly(Abs(), pid);
      if pid !in processTable {
        return;
      }
      var parent := processTable[pid].ppid;
      var mustBlock := SemWait(Terminated(pid), InWaitPid(pid));
      if !mustBlock {
        FinishWait(parent, pid);
      }
    }

    /** Dispatched again after blocking in wait_any or wait_pid, the current process finishes the call. */
    method FinishCall()
      requires Good(Abs()) && InState(Abs(), currentProcess, RUNNING)
      modifies this
      ensures Abs() == Resume(old(Abs())) && Good(Abs())
      ensures KernelActions.ResumeEffect(old(Abs()), Abs())
    {
      KernelActions.ResumeActs(Abs());
      ResumeKeepsGood(Abs());
      var call := processTable[currentProcess].call;
      processTable := processTable[currentProcess := processTable[currentProcess].(call := NoCall)];
      match call
      case NoCall => assert Abs() == old(Abs());
      case InWaitAny => PollTerminated();
      case InWaitPid(pid) => FinishWait(currentProcess, pid);
    }

    /** Reap, without blocking, every terminated child of the current process. */
    method ReapZombies()
      requires Good(Abs()) && InState(Abs(), currentProcess, RUNNING) && processTable[currentProcess].call == NoCall
      modifies this
      ensures Abs() == KernelState.ReapZombies(old(Abs())) && Good(Abs())
      ensures forall c :: InState(Abs(), c, ZOMBIE) ==> processTable[c].ppid != currentProcess
      ensures KernelActions.ReapsAll(old(Abs()), old(currentProcess), Abs())
    {
      KernelActions.ReapAllActs(Abs());
      ReapZombiesReapsAll(Abs());
      TakeAndPoll();
    }

    /** As long as a terminated child is announced, take the unit and reap it. */
    method TakeAndPoll()
      requires Good(Abs()) && InState(Abs(), currentProcess, RUNNING) && processTable[currentProcess].call == NoCall
      modifies this
      ensures Abs() == KernelState.ReapZombies(old(Abs()))
    {
      assert ChildTerminated(currentProcess) in semaphores;
      ghost var n := Units(semaphores[ChildTerminated(currentProcess)]);
      ghost var k := Abs();
      var got := SemTryWait(ChildTerminated(currentProcess));
      while got == 0
        invariant Good(k) && InState(k, k.current, RUNNING) && k.table[k.current].call == NoCall
            && k.current == currentProcess
        invariant ChildTerminated(k.current) in k.sems && n == Units(k.sems[ChildTerminated(k.current)])
        invariant got == (if n > 0 then 0 else -1) && Abs() == KernelState.SemTryWait(k, ChildTerminated(k.current))
        invariant ReapTimes(k, n) == KernelState.ReapZombies(old(Abs()))
        decreases n
      {
        ghost var reaped := TakeAndReap(k);
        PollTerminated();
        k, n := reaped, n - 1;
        got := SemTryWait(ChildTerminated(currentProcess));
      }
    }
  }
}

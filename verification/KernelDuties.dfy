/** The duties callers owe and the code does not check: inputs that break each of them, reached from boot, and the
    damage. */
module KernelDuties {
  import opened Semaphores
  import opened KernelState
  import opened KernelInvariant
  import opened KernelSteps
  import opened KernelWaits
  import opened KernelTermination
  import opened KernelReaping
  import opened KernelStart
  import opened KernelRuns

  ghost predicate Reachable(k: Kernel) {
    exists run :: Legal(Boot(), run) && After(Boot(), run) == k
  }

  lemma {:induction false} RunAppend(k: Kernel, run: seq<Step>, s: Step)
    requires Legal(k, run) && CanStep(After(k, run), s)
    ensures Legal(k, run + [s]) && After(k, run + [s]) == Next(After(k, run), s)
    decreases |run|
  {
    if run == [] {
      assert (run + [s])[1..] == [];
    } else {
      assert (run + [s])[0] == run[0] && (run + [s])[1..] == run[1..] + [s];
      RunAppend(Next(k, run[0]), run[1..], s);
    }
  }

  lemma ReachableStep(k: Kernel, s: Step)
    requires Reachable(k) && CanStep(k, s)
    ensures Reachable(Next(k, s))
  {
    var run :| Legal(Boot(), run) && After(Boot(), run) == k;
    RunAppend(Boot(), run, s);
  }

  lemma BootIsReachable()
    ensures Reachable(Boot())
  {
    assert Legal(Boot(), []) && After(Boot(), []) == Boot();
  }

  lemma ReachableIsGood(k: Kernel)
    requires Reachable(k)
    ensures Good(k)
  {
    var run :| Legal(Boot(), run) && After(Boot(), run) == k;
    EveryReachableStateIsGood(run);
  }

  // ----- killing a process that is already a zombie

  lemma {:induction false} RemoveLast(ts: seq<Pid>, c: Pid)
    ensures Remove(ts + [c], c) == Remove(ts, c)
  {
    if ts == [] {
      assert (ts + [c])[1..] == [];
    } else {
      assert (ts + [c])[1..] == ts[1..] + [c];
      RemoveLast(ts[1..], c);
    }
  }

  /** reap_zombies with one unit more than there are listed children polls NULL and frees the slot of idle. */
  lemma {:induction false} ReapPastTheEnd(k: Kernel, n: nat)
    requires k.current in k.table && k.current !in k.table[k.current].terminatedChildren
    requires n == |k.table[k.current].terminatedChildren| + 1
    ensures IDLE_PID !in ReapTimes(k, n).table
    decreases n
  {
    var p, ts := k.current, k.table[k.current].terminatedChildren;
    var k1 := ReapFirst(SemTryWait(k, ChildTerminated(p)), p);
    assert ReapTimes(k, n) == ReapTimes(k1, n - 1);
    if ts != [] {
      assert ts == [ts[0]] + ts[1..];
      ReapPastTheEnd(k1, n - 1);
    }
  }

  /** One more post for a child already counted: a unit too many for its parent. */
  lemma SecondKill(k: Kernel, c: Pid)
    requires Good(k) && InState(k, k.current, RUNNING) && k.table[k.current].call == NoCall
    requires InState(k, c, ZOMBIE) && k.table[c].ppid == k.current && k.current != INIT_PID
    ensures var k', p := Terminate(k, c), k.current;
      && k'.current == p && p in k'.table && k'.table[p].call == NoCall && c in k'.table && k'.table[c].ppid == p
      && k'.table[p].terminatedChildren == k.table[p].terminatedChildren + [c]
      && Announced(k', c) && ChildTerminated(p) in k'.sems
      && k'.sems[ChildTerminated(p)].value == |k.table[p].terminatedChildren| + 1
  {
    var p, z := k.current, MakeZombie(k, c);
    ZombieIsChildless(k, c);
    ZombieIsListed(k, p, c);
    ZombieChildIsAnnounced(k, c);
    ZombieKeepsQueues(k, c);
    NobodyAwaits(k, p);
    var w := PostIs(z, Terminated(c));
    var k1 := SemPost(z, Terminated(c));
    PostKeepsQueues(z, Terminated(c), k1, w);
    var w1 := PostIs(k1, ChildTerminated(p));
    assert AccountOk(k, p, {});
  }

  /** While p runs nobody waits on its childTerminated. */
  lemma NobodyAwaits(k: Kernel, p: Pid)
    requires Good(k) && InState(k, p, RUNNING)
    ensures ChildTerminated(p) in k.sems && forall x :: x in k.sems[ChildTerminated(p)].queue ==>
        !InState(k, x, BLOCKED)
  {
    assert CallOk(k, p);
    forall x | x in k.sems[ChildTerminated(p)].queue
      ensures !InState(k, x, BLOCKED)
    {
      assert Waits(k, x, ChildTerminated(p));
    }
  }

  /** As the shell does when a second stage cannot start: kill and wait_pid for a first stage that has already
      terminated, then reap_zombies at the next prompt.  The slot of idle is freed. */
  lemma SecondKillFreesIdle(k: Kernel, c: Pid)
    requires Good(k) && InState(k, k.current, RUNNING) && k.table[k.current].call == NoCall
    requires InState(k, c, ZOMBIE) && k.table[c].ppid == k.current && k.current != INIT_PID
    ensures IDLE_PID !in ReapZombies(WaitPid(Terminate(k, c), c)).table
  {
    var p, ts := k.current, k.table[k.current].terminatedChildren;
    var k1 := Terminate(k, c);
    var k2 := WaitPid(k1, c);
    ZombieIsListed(k, p, c);
    SecondKill(k, c);
    RemoveLast(ts, c);
    assert AccountOk(k, p, {});
    RemoveMembers(ts, c);
    AfterSecondWait(k1, p, c, k2);
    assert p !in Remove(ts, c);
    ReapPastTheEnd(k2, |ts|);
  }

  lemma AfterSecondWait(k1: Kernel, p: Pid, c: Pid, k2: Kernel)
    requires k1.current == p && p in k1.table && c in k1.table && c != p && k1.table[c].ppid == p && Announced(k1, c)
    requires ChildTerminated(p) in k1.sems && k1.sems[ChildTerminated(p)].value > 0 && k2 == WaitPid(k1, c)
    ensures k2.current == p && p in k2.table && ChildTerminated(p) in k2.sems
    ensures k2.table[p].terminatedChildren == Remove(k1.table[p].terminatedChildren, c)
    ensures k2.sems[ChildTerminated(p)].value == k1.sems[ChildTerminated(p)].value - 1
  {
    var id := Terminated(c);
    var s := SemWait(k1, id, InWaitPid(c));
    assert k2 == FinishWaitPid(s, p, c);
    FinishWaitPidIsForget(s, p, c);
    ForgetIs(SemTryWait(s, ChildTerminated(p)), p, c, Remove(k1.table[p].terminatedChildren, c));
  }

  // ----- making a waiting process ready from outside

  /** The process goes on without a unit, and the next unit goes to the value as well: one post lets two pass. */
  lemma ContinueDoublesUnit(k: Kernel, p: Pid, id: SemId)
    requires Good(k) && InState(k, p, BLOCKED) && id in k.sems && k.sems[id].queue == [p]
    ensures var k' := SemPost(MakeReady(k, p), id);
      InState(k', p, READY) && k'.sems[id] == Sem(1, []) && k.sems[id].value == -1
  {
    var k1 := MakeReady(k, p);
    assert k1.sems[id] == Sem(-1, [p]) && p !in Blocked(k1);
    assert FirstBlocked([p], Blocked(k1)) == 1;
    PostExact(k1.sems[id], Blocked(k1));
  }

  // ----- reusing the PID of a dead waiter

  /** The new process, merely stopped from outside, is woken by a post it never waited for, and the unit is lost. */
  lemma StartStealsUnit(k: Kernel, priority: nat, id: SemId)
    requires Good(k) && InState(k, k.current, RUNNING) && k.current != IDLE_PID
    requires FreePidFrom(k, 0) < MAX_PROCESSES && id.Other? && id in k.sems && k.sems[id].queue == [FreePidFrom(k, 0)]
    ensures var p := FreePidFrom(k, 0);
      var k' := SemPost(SetBlocked(Start(k, priority), p), id);
      InState(k', p, READY) && k'.sems[id] == Sem(0, [])
  {
    var p := FreePidFrom(k, 0);
    var k1 := SetBlocked(Start(k, priority), p);
    assert IDLE_PID in k.table && INIT_PID in k.table;
    assert InState(k1, p, BLOCKED) && k1.sems[id] == Sem(-1, [p]);
    PostExact(k1.sems[id], Blocked(k1));
  }

  // ----- runs from boot that reach the four inputs

  /** Idle, init and a child of init (pid 2) in the given states, as after each ran once and used its quanta. */
  function Family(idle: State, init: State, shell: State): map<Pid, Pcb> {
    map[IDLE_PID := Pcb(idle, 1, 0, INIT_PID, [], [], NoCall, 0),
        INIT_PID := Pcb(init, 1, 0, INIT_PID, [2], [], NoCall, 1),
        2 := Pcb(shell, 1, if shell == READY then 1 else 0, INIT_PID, [], [], NoCall, 2)]
  }

  function Sems(other: Sem): map<SemId, Sem> {
    map[Terminated(0) := Sem(0, []), ChildTerminated(0) := Sem(0, []),
        Terminated(1) := Sem(0, []), ChildTerminated(1) := Sem(0, []),
        Other(0) := other, Terminated(2) := Sem(0, []), ChildTerminated(2) := Sem(0, [])]
  }

  lemma InitIsDispatched() returns (k: Kernel)
    ensures Reachable(k) && k.current == 1 && k.ready == [0] && k.clock == 2
    ensures k.table == map[0 := Pcb(READY, 1, 0, 1, [], [], NoCall, 0), 1 := Pcb(RUNNING, 1, 0, 1, [], [], NoCall, 1)]
    ensures k.sems == Boot().sems
  {
    BootIsReachable();
    BootIs();
    var k1 := Next(Boot(), Tick);
    ReachableStep(Boot(), Tick);
    assert k1.current == 0 && k1.ready == [1];
    assert k1.table == Boot().table[0 := Pcb(RUNNING, 1, 0, 1, [], [], NoCall, 0)];
    k := Next(k1, Tick);
    ReachableStep(k1, Tick);
  }

  /** init opens a semaphore without units and creates process 2. */
  lemma InitRuns() returns (k: Kernel)
    ensures Reachable(k) && k == Kernel(Family(READY, RUNNING, READY), [0, 2], 1, Sems(Sem(0, [])), 3)
  {
    var k0 := InitIsDispatched();
    BootIs();
    var k1 := Next(k0, NewSemaphore(0, 0));
    ReachableStep(k0, NewSemaphore(0, 0));
    assert FreePidFrom(k1, 2) == 2 && FreePidFrom(k1, 1) == 2 && FreePidFrom(k1, 0) == 2;
    k := Next(k1, StartProcess(1));
    ReachableStep(k1, StartProcess(1));
    assert k.table[0] == k0.table[0] && k.table[1] == Pcb(RUNNING, 1, 0, 1, [2], [], NoCall, 1);
    assert k.table[2] == Pcb(READY, 1, 1, 1, [], [], NoCall, 2);
    assert k.table == Family(READY, RUNNING, READY);
    assert k.sems == Sems(Sem(0, []));
  }

  /** One more call of the scheduler: idle, back in front, is dispatched. */
  lemma IdleRuns() returns (k: Kernel)
    ensures Reachable(k) && k == Kernel(Family(RUNNING, READY, READY), [2, 1], 0, Sems(Sem(0, [])), 3)
  {
    var k0 := InitRuns();
    k := Next(k0, Tick);
    ReachableStep(k0, Tick);
    assert k.ready == [2, 1] && k.current == 0;
    assert k.table == Family(RUNNING, READY, READY);
  }

  /** ... and another one: process 2 runs. */
  lemma ShellRuns() returns (k: Kernel)
    ensures Reachable(k) && k == Kernel(Family(READY, READY, RUNNING), [1, 0], 2, Sems(Sem(0, [])), 3)
  {
    var k0 := IdleRuns();
    k := Next(k0, Tick);
    ReachableStep(k0, Tick);
    assert k.ready == [1, 0] && k.current == 2;
    assert k.table == Family(READY, READY, RUNNING);
  }

  /** A child killed while alive and killed once more before it is waited for, as in shell.c: idle loses its slot. */
  lemma SecondKillIsReached() returns (k: Kernel)
    ensures Reachable(k) && InState(k, k.current, RUNNING) && InState(k, 3, ZOMBIE)
    ensures !Good(Terminate(k, 3)) && IDLE_PID !in ReapZombies(WaitPid(Terminate(k, 3), 3)).table
  {
    var k0 := ShellRuns();
    assert FreePidFrom(k0, 3) == 3 && FreePidFrom(k0, 2) == 3 && FreePidFrom(k0, 1) == 3 && FreePidFrom(k0, 0) == 3;
    assert !Queued(k0, 3);
    var k1 := Next(k0, StartProcess(1));
    ReachableStep(k0, StartProcess(1));
    assert k1.table[3] == Pcb(READY, 1, 1, 2, [], [], NoCall, 3);
    k := Next(k1, Kill(3));
    ReachableStep(k1, Kill(3));
    ReachableIsGood(k1);
    ReachableIsGood(k);
    KilledChildIsZombie(k1, 3);
    KillIsSafeExactlyOnNonZombies(k, 3);
    SecondKillFreesIdle(k, 3);
  }

  /** The one who kills its childless child goes on running, and the child is a zombie. */
  lemma KilledChildIsZombie(k: Kernel, c: Pid)
    requires Good(k) && InState(k, k.current, RUNNING) && k.table[k.current].call == NoCall && k.current != c
    requires c in k.table && Ordinary(c) && Live(k, c) && k.table[c].ppid == k.current && k.table[c].children == []
    ensures var k', p := Terminate(k, c), k.current;
      && k'.current == p && InState(k', p, RUNNING) && k'.table[p].call == NoCall
      && InState(k', c, ZOMBIE) && k'.table[c].ppid == p
  {
    ZombieKeepsQueues(k, c);
    PostChangesStatesOnly(MakeZombie(k, c), Terminated(c));
    PostChangesStatesOnly(SemPost(MakeZombie(k, c), Terminated(c)), ChildTerminated(k.current));
  }

  lemma PostChangesStatesOnly(k: Kernel, id: SemId)
    requires QueuesOk(k) && id in k.sems && NOBODY !in k.table
    ensures var k' := SemPost(k, id);
      && QueuesOk(k') && k'.current == k.current && k'.table.Keys == k.table.Keys && k'.sems.Keys == k.sems.Keys
      && forall x :: x in k.table ==>
           && k'.table[x] == k.table[x].(state := k'.table[x].state)
           && (k.table[x].state != BLOCKED ==> k'.table[x].state == k.table[x].state)
  {
    var w := PostIs(k, id);
    PostKeepsQueues(k, id, SemPost(k, id), w);
  }

  /** Process 2 blocks on the semaphore. */
  lemma ShellBlocks() returns (k: Kernel)
    ensures Reachable(k) && k == Kernel(Family(READY, READY, BLOCKED), [1, 0], 2, Sems(Sem(-1, [2])), 3)
  {
    var k0 := ShellRuns();
    k := Next(k0, WaitOn(0));
    ReachableStep(k0, WaitOn(0));
    assert Wait(Sem(0, []), 2) == Sem(-1, [2]);
    assert k.sems == k0.sems[Other(0) := Sem(-1, [2])];
    assert k.sems == Sems(Sem(-1, [2]));
    assert k.table == Family(READY, READY, BLOCKED);
  }

  /** ... and init runs again. */
  lemma ShellWaits() returns (k: Kernel)
    ensures Reachable(k) && k == Kernel(Family(READY, RUNNING, BLOCKED), [0], 1, Sems(Sem(-1, [2])), 3)
  {
    var k0 := ShellBlocks();
    k := Next(k0, Tick);
    ReachableStep(k0, Tick);
    assert k.table == Family(READY, RUNNING, BLOCKED);
  }

  /** sys_unblock on a process that waits on a semaphore: a single post then lets two processes pass. */
  lemma ContinueIsReached() returns (k: Kernel)
    ensures Reachable(k) && InState(k, k.current, RUNNING) && InState(k, 2, BLOCKED)
    ensures var k' := SemPost(MakeReady(k, 2), Other(0));
      !Good(MakeReady(k, 2)) && InState(k', 2, READY) && Other(0) in k'.sems && k'.sems[Other(0)] == Sem(1, [])
  {
    k := ShellWaits();
    ReachableIsGood(k);
    assert Queued(k, 2) by { assert 2 in k.sems[Other(0)].queue; }
    ContinueIsSafeExactlyWithoutWait(k, 2);
    ContinueDoublesUnit(k, 2, Other(0));
  }

  lemma PostOnEmpty(k: Kernel, id: SemId, v: nat)
    requires id in k.sems && k.sems[id] == Sem(v, []) && NOBODY !in k.table
    ensures SemPost(k, id) == k.(sems := k.sems[id := Sem(v + 1, [])])
  {
  }

  /** init kills the waiter, which stays in the queue of the semaphore. */
  lemma WaiterIsKilled() returns (k: Kernel)
    ensures Reachable(k) && k.current == 1 && k.table.Keys == {0, 1, 2}
    ensures k.table[1] == Pcb(RUNNING, 1, 0, 1, [2], [2], NoCall, 1)
    ensures k.sems == Sems(Sem(-1, [2]))[Terminated(2) := Sem(1, [])][ChildTerminated(1) := Sem(1, [])]
  {
    var k0 := ShellWaits();
    var z := MakeZombie(k0, 2);
    var k1 := z.(sems := z.sems[Terminated(2) := Sem(1, [])]);
    PostOnEmpty(z, Terminated(2), 0);
    PostOnEmpty(k1, ChildTerminated(1), 0);
    k := Next(k0, Kill(2));
    ReachableStep(k0, Kill(2));
    assert k == NotifyTermination(k0, 2, 1);
  }

  /** ... and reaps it: its PID is free again. */
  lemma WaiterIsReaped() returns (k: Kernel)
    ensures Reachable(k) && k.current == 1 && InState(k, 1, RUNNING) && k.table.Keys == {0, 1}
    ensures Other(0) in k.sems && k.sems[Other(0)] == Sem(-1, [2])
  {
    var k0 := WaiterIsKilled();
    k := Next(k0, ReapAll);
    ReachableStep(k0, ReapAll);
    var k1 := SemTryWait(k0, ChildTerminated(1));
    assert k == ReapFirst(k1, 1) by {
      assert Units(k0.sems[ChildTerminated(1)]) == 1;
      assert ReapTimes(k0, 1) == ReapTimes(ReapFirst(k1, 1), 0);
    }
  }

  /** A waiter is killed and reaped, and its PID goes to a new process: that process takes the waiter's unit. */
  lemma RecycledPidIsReached() returns (k: Kernel)
    ensures Reachable(k) && InState(k, k.current, RUNNING) && FreePidFrom(k, 0) == 2
    ensures !Good(Start(k, 1)) && InState(SemPost(SetBlocked(Start(k, 1), 2), Other(0)), 2, READY)
  {
    k := WaiterIsReaped();
    ReachableIsGood(k);
    assert FreePidFrom(k, 2) == 2 && FreePidFrom(k, 1) == 2 && FreePidFrom(k, 0) == 2;
    assert Queued(k, 2) by { assert 2 in k.sems[Other(0)].queue; }
    StartIsSafeExactlyWithoutDeadWaiter(k, 1);
    StartStealsUnit(k, 1, Other(0));
  }

  /** sys_waitpid takes any PID: process 2 waits for init, which no kill ever terminates. */
  lemma StrayWaitIsReached() returns (k: Kernel)
    ensures Reachable(k) && InState(k, k.current, RUNNING) && k.current == 2
    ensures var k' := WaitPid(k, INIT_PID);
      !Good(k') && InState(k', 2, BLOCKED) && Waits(k', 2, Terminated(INIT_PID)) && Terminate(k', INIT_PID) == k'
  {
    k := ShellRuns();
    ReachableIsGood(k);
    WaitPidIsSafeExactly(k, INIT_PID);
  }
}

/** Every run of the kernel: the invariant holds in each reachable state, and what it means there. */
module KernelRuns {
  import opened Semaphores
  import opened KernelState
  import opened KernelInvariant
  import opened KernelSteps
  import opened KernelWaits
  import opened KernelTermination
  import opened KernelReaping
  import opened KernelStart

  lemma StepKeepsGood(k: Kernel, s: Step)
    requires Good(k) && CanStep(k, s)
    ensures Good(Next(k, s))
  {
    match s
    case Tick => TickKeepsGood(k);
    case StartProcess(priority) => StartKeepsGood(k, priority);
    case WaitOn(id) => WaitOtherKeepsGood(k, Other(id));
    case PostOn(id) => PostOtherKeepsInv(k, Other(id), NONE, {});
    case TryWaitOn(id) => TryWaitOtherKeepsGood(k, Other(id));
    case Stop(p) => StopKeepsGood(k, p);
    case Continue(p) => ContinueKeepsGood(k, p);
    case Nice(p, priority) => NiceKeepsGood(k, p, priority);
    case Kill(p) => TerminateKeepsGood(k, p);
    case WaitForPid(p) => WaitPidKeepsGood(k, p);
    case WaitForAny => WaitAnyKeepsGood(k);
    case ReapAll => ReapZombiesReapsAll(k);
    case Finish => ResumeKeepsGood(k);
    case NewSemaphore(id, value) => NewSemaphoreKeepsGood(k, Other(id), value);
  }

  ghost predicate Legal(k: Kernel, run: seq<Step>)
    decreases |run|
  {
    run != [] ==> CanStep(k, run[0]) && Legal(Next(k, run[0]), run[1..])
  }

  ghost function After(k: Kernel, run: seq<Step>): Kernel
    requires Legal(k, run)
    decreases |run|
  {
    if run == [] then k else After(Next(k, run[0]), run[1..])
  }

  lemma {:induction false} RunKeepsGood(k: Kernel, run: seq<Step>)
    requires Good(k) && Legal(k, run)
    ensures Good(After(k, run))
    decreases |run|
  {
    if run != [] {
      StepKeepsGood(k, run[0]);
      RunKeepsGood(Next(k, run[0]), run[1..]);
    }
  }

  /** The invariant holds in every state any run from boot reaches. */
  lemma EveryReachableStateIsGood(run: seq<Step>)
    requires Legal(Boot(), run)
    ensures Good(After(Boot(), run))
  {
    BootIsGood();
    RunKeepsGood(Boot(), run);
  }

  // ----- what the invariant means

  /** The n-th ancestor of p. */
  function Ancestor(k: Kernel, p: Pid, n: nat): Pid
    decreases n
  {
    if n == 0 || p !in k.table then p else Ancestor(k, k.table[p].ppid, n - 1)
  }

  /** Parent links lead from every process to init, through existing processes that are not zombies. */
  lemma {:induction false} EveryoneDescendsFromInit(k: Kernel, p: Pid) returns (n: nat)
    requires FamilyOk(k, NONE) && NONE !in k.table && p in k.table
    ensures Ancestor(k, p, n) == INIT_PID
    ensures forall i :: 0 < i <= n ==> Live(k, Ancestor(k, p, i)) || Ancestor(k, p, i) == INIT_PID
    decreases k.table[p].born
  {
    if p == INIT_PID {
      return 0;
    }
    if p == IDLE_PID {
      return 1;
    }
    assert ParentOk(k, p, NONE);
    var m := EveryoneDescendsFromInit(k, k.table[p].ppid);
    forall i | 0 < i <= m + 1
      ensures Live(k, Ancestor(k, p, i)) || Ancestor(k, p, i) == INIT_PID
    {
      assert Ancestor(k, p, i) == Ancestor(k, k.table[p].ppid, i - 1);
    }
    return m + 1;
  }

  /** Whatever the current process does next, the scheduler finds a ready process to dispatch, and exactly one process
      runs then. */
  lemma SchedulerAlwaysDispatches(run: seq<Step>)
    requires Legal(Boot(), run)
    ensures var k := Schedule(After(Boot(), run));
      InState(k, k.current, RUNNING) && forall p :: InState(k, p, RUNNING) ==> p == k.current
  {
    EveryReachableStateIsGood(run);
    TickKeepsGood(After(Boot(), run));
  }

  /** In every reachable state each zombie is a listed child of a live process, which still has a unit or a grant to
      reap it. */
  lemma ZombiesCanBeReaped(run: seq<Step>, c: Pid)
    requires Legal(Boot(), run) && InState(After(Boot(), run), c, ZOMBIE)
    ensures var k := After(Boot(), run);
      var p := k.table[c].ppid;
      && Live(k, p) && c in k.table[p].terminatedChildren
      && (Granted(k, p) || (ChildTerminated(p) in k.sems && k.sems[ChildTerminated(p)].value > 0))
  {
    EveryReachableStateIsGood(run);
    var k := After(Boot(), run);
    assert ParentOk(k, c, NONE);
    assert AccountOk(k, k.table[c].ppid, {});
  }

  // ----- what callers owe, exactly

  /** Creating a process is safe exactly when its recycled PID does not still sit in some semaphore's queue. */
  lemma StartIsSafeExactlyWithoutDeadWaiter(k: Kernel, priority: nat)
    requires Good(k) && InState(k, k.current, RUNNING) && k.current != IDLE_PID && priority > 0
    ensures Good(Start(k, priority)) <==> FreePidFrom(k, 0) == MAX_PROCESSES || !Queued(k, FreePidFrom(k, 0))
  {
    var p := FreePidFrom(k, 0);
    if p < MAX_PROCESSES {
      if !Queued(k, p) {
        StartWithPidKeepsGood(k, p, priority);
      } else {
        var k' := Start(k, priority);
        StartIs(k, p, priority);
        StartStates(k, p, priority, k');
        var id :| id in k.sems && p in k.sems[id].queue;
        assert Waits(k, p, id) && Waits(k', p, id);
        assert Live(k', p) && !InState(k', p, BLOCKED);
      }
    }
  }

  /** Continuing a process from outside is safe exactly when it is not a blocked process that waits on a semaphore. */
  lemma ContinueIsSafeExactlyWithoutWait(k: Kernel, p: Pid)
    requires Good(k) && InState(k, k.current, RUNNING)
    ensures Good(MakeReady(k, p)) <==> !(InState(k, p, BLOCKED) && Queued(k, p))
  {
    var k' := MakeReady(k, p);
    if InState(k, p, BLOCKED) && Queued(k, p) {
      var id :| id in k.sems && p in k.sems[id].queue;
      assert Waits(k', p, id) && Live(k', p) && !InState(k', p, BLOCKED);
    } else if InState(k, p, BLOCKED) {
      ContinueKeepsGood(k, p);
    }
  }
}

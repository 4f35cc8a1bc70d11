/** Creating processes keeps the invariant, and booting establishes it. */
module KernelStart {
  import opened Semaphores
  import opened KernelState
  import opened KernelInvariant

  /** A new ready process p without children, a child of the current process. */
  ghost predicate StartEffect(k: Kernel, p: Pid, priority: nat, k': Kernel) {
    var q := k.current;
    && q in k.table && p !in k.table
    && k'.current == q && k'.ready == k.ready + [p] && k'.clock == k.clock + 1
    && k'.table.Keys == k.table.Keys + {p}
    && (forall x :: x in k.table && x != q ==> k'.table[x] == k.table[x])
    && k'.table[q] == k.table[q].(children := k.table[q].children + [p])
    && k'.table[p] == Pcb(READY, priority, priority, q, [], [], NoCall, k.clock)
    && k'.sems == k.sems[Terminated(p) := Sem(0, [])][ChildTerminated(p) := Sem(0, [])]
  }

  lemma StartIs(k: Kernel, p: Pid, priority: nat)
    requires k.current in k.table && k.current != IDLE_PID && p !in k.table
    ensures StartEffect(k, p, priority, StartWithPid(k, p, priority))
  {
  }

  lemma StartStates(k: Kernel, p: Pid, priority: nat, k': Kernel)
    requires StartEffect(k, p, priority, k') && QueuesOk(k)
    ensures forall x, st :: x != p ==> (InState(k', x, st) <==> InState(k, x, st))
    ensures forall x :: x != p ==> (Live(k', x) <==> Live(k, x))
    ensures forall x, id :: Waits(k', x, id) <==> Waits(k, x, id)
  {
    assert Terminated(p) !in k.sems && ChildTerminated(p) !in k.sems;
  }

  lemma StartKeepsReady(k: Kernel, p: Pid, priority: nat, k': Kernel)
    requires StartEffect(k, p, priority, k') && ReadyOk(k) && QueuesOk(k) && priority > 0 && 0 <= p < MAX_PROCESSES
    ensures ReadyOk(k')
  {
    StartStates(k, p, priority, k');
    assert p !in k.ready;
    assert forall x :: x in k'.ready <==> x in k.ready || x == p;
  }

  lemma StartKeepsQueues(k: Kernel, p: Pid, priority: nat, k': Kernel)
    requires StartEffect(k, p, priority, k') && QueuesOk(k) && !Queued(k, p)
    ensures QueuesOk(k')
  {
    StartStates(k, p, priority, k');
    forall x, id | Waits(k', x, id) && Live(k', x)
      ensures InState(k', x, BLOCKED)
    {
      assert Waits(k, x, id);
      assert x == p ==> Queued(k, p);
      assert Live(k, x) && InState(k, x, BLOCKED);
    }
    assert forall x, id, id' :: Waits(k', x, id) && Waits(k', x, id') ==> Waits(k, x, id) && Waits(k, x, id');
  }

  lemma StartKeepsCalls(k: Kernel, p: Pid, priority: nat, k': Kernel)
    requires StartEffect(k, p, priority, k') && QueuesOk(k) && CallsOk(k) && !Queued(k, p)
    requires forall c :: c in k.table ==> k.table[c].ppid in k.table
    ensures CallsOk(k')
  {
    StartStates(k, p, priority, k');
    forall x | Live(k', x)
      ensures CallOk(k', x)
    {
      assert x != p ==> Live(k, x);
      StartKeepsCall(k, p, priority, k', x);
    }
    StartKeepsAllAnnounced(k, p, priority, k');
  }

  lemma StartKeepsAllAnnounced(k: Kernel, p: Pid, priority: nat, k': Kernel)
    requires StartEffect(k, p, priority, k')
    requires forall c :: c in k.table ==> AnnouncedOk(k, c) && k.table[c].ppid in k.table
    ensures forall c :: c in k'.table ==> AnnouncedOk(k', c)
  {
    forall c | c in k'.table
      ensures AnnouncedOk(k', c)
    {
      if c != p {
        assert AnnouncedOk(k, c);
        StartKeepsAnnounced(k, p, priority, k', c);
      }
    }
  }

  lemma StartKeepsCall(k: Kernel, p: Pid, priority: nat, k': Kernel, x: Pid)
    requires StartEffect(k, p, priority, k') && QueuesOk(k) && !Queued(k, p) && Live(k', x)
    requires x != p ==> Live(k, x) && CallOk(k, x)
    ensures CallOk(k', x)
  {
    StartStates(k, p, priority, k');
    if x == p {
      assert forall id :: Waits(k, p, id) ==> Queued(k, p);
      assert ChildTerminated(p) !in k.sems;
    }
  }

  lemma StartKeepsAnnounced(k: Kernel, p: Pid, priority: nat, k': Kernel, c: Pid)
    requires StartEffect(k, p, priority, k') && c in k.table && c != p && AnnouncedOk(k, c)
    requires k.table[c].ppid in k.table
    ensures AnnouncedOk(k', c)
  {
    assert Announced(k', c) <==> Announced(k, c);
    if k'.table[c].state == ZOMBIE && AwaitableByParent(k', c) {
      OldParent(k, p, priority, k', c);
    }
  }

  lemma OldParent(k: Kernel, p: Pid, priority: nat, k': Kernel, c: Pid)
    requires StartEffect(k, p, priority, k') && c in k.table && c != p && AwaitableByParent(k', c)
    ensures k.table[c].ppid == p || AwaitableByParent(k, c)
  {
  }

  lemma StartKeepsFamily(k: Kernel, p: Pid, priority: nat, k': Kernel)
    requires StartEffect(k, p, priority, k') && FamilyOk(k, NONE) && Live(k, k.current) && k.current != IDLE_PID
        && Ordinary(p)
    ensures FamilyOk(k', NONE)
  {
    forall x | x in k'.table
      ensures ChildrenOk(k', x) && k'.table[x].born < k'.clock
    {
      if x != p {
        assert ChildrenOk(k, x);
      }
    }
    assert Ordinary(k.current) ==> k.table[INIT_PID].born < k.table[k.current].born;
    forall x | x in k'.table && Ordinary(x)
      ensures ParentOk(k', x, NONE) && k'.table[INIT_PID].born < k'.table[x].born
    {
      if x != p {
        assert ParentOk(k, x, NONE);
      }
    }
  }

  lemma StartKeepsAccounts(k: Kernel, p: Pid, priority: nat, k': Kernel)
    requires StartEffect(k, p, priority, k') && QueuesOk(k) && FamilyOk(k, NONE) && AccountsOk(k, {})
    ensures AccountsOk(k', {})
  {
    StartStates(k, p, priority, k');
    assert forall c :: InState(k', c, ZOMBIE) <==> InState(k, c, ZOMBIE);
    forall x | Live(k', x)
      ensures AccountOk(k', x, {})
    {
      if x != p {
        assert Live(k, x) && AccountOk(k, x, {});
      } else {
        assert forall c :: c in k.table ==> k.table[c].ppid != p by { ParentsExist(k); }
      }
    }
  }

  lemma ParentsExist(k: Kernel)
    requires FamilyOk(k, NONE)
    ensures forall c :: c in k.table ==> k.table[c].ppid in k.table
  {
    forall c | c in k.table
      ensures k.table[c].ppid in k.table
    {
      assert Ordinary(c) ==> ParentOk(k, c, NONE);
    }
  }

  lemma StartWithPidKeepsGood(k: Kernel, p: Pid, priority: nat)
    requires Good(k) && InState(k, k.current, RUNNING) && k.current != IDLE_PID && priority > 0
    requires 0 <= p < MAX_PROCESSES && p !in k.table && !Queued(k, p)
    ensures Good(StartWithPid(k, p, priority))
  {
    var k' := StartWithPid(k, p, priority);
    StartIs(k, p, priority);
    ParentsExist(k);
    StartKeepsReady(k, p, priority, k');
    StartKeepsQueues(k, p, priority, k');
    StartKeepsCalls(k, p, priority, k');
    StartKeepsFamily(k, p, priority, k');
    StartKeepsAccounts(k, p, priority, k');
  }

  lemma StartKeepsGood(k: Kernel, priority: nat)
    requires Good(k) && InState(k, k.current, RUNNING) && k.current != IDLE_PID && priority > 0
    requires !Queued(k, FreePidFrom(k, 0))
    ensures Good(Start(k, priority))
  {
    if FreePidFrom(k, 0) < MAX_PROCESSES {
      StartWithPidKeepsGood(k, FreePidFrom(k, 0), priority);
    }
  }

  /** Idle and init, both ready, in an otherwise empty table. */
  lemma BootIs()
    ensures var k := Boot();
      && k.table == map[IDLE_PID := Pcb(READY, 1, 1, INIT_PID, [], [], NoCall, 0),
                        INIT_PID := Pcb(READY, 1, 1, INIT_PID, [], [], NoCall, 1)]
      && k.ready == [IDLE_PID, INIT_PID] && k.current == -1 && k.clock == 2
      && k.sems == map[Terminated(IDLE_PID) := Sem(0, []), ChildTerminated(IDLE_PID) := Sem(0, []),
                       Terminated(INIT_PID) := Sem(0, []), ChildTerminated(INIT_PID) := Sem(0, [])]
  {
  }

  lemma BootIsGood()
    ensures Good(Boot())
  {
    BootReady();
    BootQueues();
    BootCalls();
    BootFamily();
    BootAccounts();
  }

  lemma BootQueues()
    ensures QueuesOk(Boot())
  {
    BootIs();
    assert forall p, id :: !Waits(Boot(), p, id);
  }

  lemma BootCalls()
    ensures CallsOk(Boot())
  {
    BootIs();
    assert forall p, id :: !Waits(Boot(), p, id);
  }

  lemma BootReady()
    ensures ReadyOk(Boot())
  {
    BootIs();
    var k := Boot();
    assert forall p :: InState(k, p, READY) <==> p == IDLE_PID || p == INIT_PID;
  }

  lemma BootFamily()
    ensures FamilyOk(Boot(), NONE)
  {
    BootIs();
  }

  lemma BootAccounts()
    ensures AccountsOk(Boot(), {})
  {
    BootIs();
  }
}

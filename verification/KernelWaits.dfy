/** Waiting keeps the invariant: taking a unit, and blocking in semWait. */
module KernelWaits {
  import opened Semaphores
  import opened KernelState
  import opened KernelInvariant
  import opened KernelSteps

  /** The current process goes to the end of the queue of a semaphore without units, with a call to finish later. */
  ghost predicate BlockEffect(k: Kernel, id: SemId, call: Call, k': Kernel) {
    && id in k.sems && !WaitPasses(k.sems[id]) && k.current in k.table
    && k'.ready == k.ready && k'.current == k.current && k'.clock == k.clock
    && k'.table == k.table[k.current := k.table[k.current].(state := BLOCKED, call := call)]
    && k'.sems == k.sems[id := Sem(k.sems[id].value - 1, k.sems[id].queue + [k.current])]
  }

  lemma BlockIs(k: Kernel, id: SemId, call: Call)
    requires id in k.sems && !WaitPasses(k.sems[id]) && k.current in k.table
    ensures BlockEffect(k, id, call, SemWait(k, id, call))
  {
  }

  lemma NotWaiting(k: Kernel, p: Pid)
    requires QueuesOk(k) && InState(k, p, RUNNING)
    ensures !Queued(k, p)
  {
    if Queued(k, p) {
      var id :| id in k.sems && p in k.sems[id].queue;
      assert Waits(k, p, id) && Live(k, p);
      assert false;
    }
  }

  lemma BlockKeepsReady(k: Kernel, id: SemId, call: Call, k': Kernel)
    requires BlockEffect(k, id, call, k') && ReadyOk(k) && InState(k, k.current, RUNNING) && k.current != IDLE_PID
    ensures ReadyOk(k')
  {
    assert forall p :: InState(k', p, READY) <==> InState(k, p, READY);
    assert forall p :: InState(k', p, RUNNING) ==> InState(k, p, RUNNING);
  }

  lemma BlockKeepsQueues(k: Kernel, id: SemId, call: Call, k': Kernel)
    requires BlockEffect(k, id, call, k') && QueuesOk(k) && InState(k, k.current, RUNNING)
    ensures QueuesOk(k')
  {
    NotWaiting(k, k.current);
    assert forall i :: i in k.sems ==> k.current !in k.sems[i].queue;
    assert forall p, i :: Waits(k', p, i) <==> Waits(k, p, i) || (p == k.current && i == id);
    forall p, i | Waits(k', p, i) && Live(k', p)
      ensures InState(k', p, BLOCKED)
    {
      if p != k.current {
        assert Waits(k, p, i) && Live(k, p);
      }
    }
  }

  lemma BlockKeepsCalls(k: Kernel, id: SemId, call: Call, k': Kernel)
    requires BlockEffect(k, id, call, k') && QueuesOk(k) && CallsOk(k) && InState(k, k.current, RUNNING)
    requires k.table[k.current].call == NoCall && WaitFits(k.current, call, id)
    requires call.InWaitPid? ==> InTableUnder(k, call.child) && !InState(k, call.child, ZOMBIE)
    requires call.InWaitPid? ==> id == Terminated(call.child)
    ensures CallsOk(k')
  {
    NotWaiting(k, k.current);
    assert forall i :: i in k.sems ==> k.current !in k.sems[i].queue;
    assert forall p, i :: Waits(k', p, i) <==> Waits(k, p, i) || (p == k.current && i == id);
    forall p | Live(k', p)
      ensures CallOk(k', p)
    {
      assert Live(k, p) && CallOk(k, p);
      if p != k.current && k.table[p].call.InWaitPid? {
        assert AwaitsChild(k, p, k.table[p].call.child);
      }
    }
    forall c | c in k'.table
      ensures AnnouncedOk(k', c)
    {
      assert AnnouncedOk(k, c);
      assert Announced(k', c) <==> Announced(k, c);
      if k'.table[c].state == ZOMBIE && AwaitableByParent(k', c) {
        assert AwaitableByParent(k, c);
      }
    }
  }

  predicate InTableUnder(k: Kernel, c: Pid) {
    c in k.table && k.table[c].ppid == k.current && c != k.current && Ordinary(c)
  }

  lemma BlockKeepsFamily(k: Kernel, id: SemId, call: Call, k': Kernel)
    requires BlockEffect(k, id, call, k') && FamilyOk(k, NONE) && InState(k, k.current, RUNNING)
    ensures FamilyOk(k', NONE)
  {
    FamilyFrame(k, k', NONE);
  }

  lemma BlockKeepsAccounts(k: Kernel, id: SemId, call: Call, k': Kernel)
    requires BlockEffect(k, id, call, k') && AccountsOk(k, {}) && QueuesOk(k) && InState(k, k.current, RUNNING)
    requires k.table[k.current].call == NoCall && WaitFits(k.current, call, id)
    ensures AccountsOk(k', {})
  {
    NotWaiting(k, k.current);
    assert forall i :: i in k.sems ==> k.current !in k.sems[i].queue;
    forall p | Live(k', p)
      ensures AccountOk(k', p, {})
    {
      assert Live(k, p) && AccountOk(k, p, {});
      assert forall c :: InState(k', c, ZOMBIE) <==> InState(k, c, ZOMBIE);
      if p != k.current {
        assert Waits(k', p, ChildTerminated(p)) <==> Waits(k, p, ChildTerminated(p));
      }
    }
  }

  lemma BlockKeepsGood(k: Kernel, id: SemId, call: Call)
    requires Good(k) && InState(k, k.current, RUNNING) && k.current != IDLE_PID
    requires id in k.sems && !WaitPasses(k.sems[id])
    requires k.table[k.current].call == NoCall && WaitFits(k.current, call, id)
    requires call.InWaitPid? ==> InTableUnder(k, call.child) && !InState(k, call.child, ZOMBIE)
    requires call.InWaitPid? ==> id == Terminated(call.child)
    ensures Good(SemWait(k, id, call))
  {
    var k' := SemWait(k, id, call);
    BlockIs(k, id, call);
    BlockKeepsReady(k, id, call, k');
    BlockKeepsQueues(k, id, call, k');
    BlockKeepsCalls(k, id, call, k');
    BlockKeepsFamily(k, id, call, k');
    BlockKeepsAccounts(k, id, call, k');
  }

  /** A wait_pid for a child that has already terminated does not block. */
  lemma ZombieChildIsAnnounced(k: Kernel, c: Pid)
    requires CallsOk(k) && FamilyOk(k, NONE) && InState(k, k.current, RUNNING) && k.table[k.current].call == NoCall
    requires k.current != INIT_PID && InState(k, c, ZOMBIE) && k.table[c].ppid == k.current
    ensures Announced(k, c)
  {
    assert AnnouncedOk(k, c);
    assert AwaitableByParent(k, c);
  }

  // ----- taking a unit

  /** One unit of a semaphore was taken without blocking. */
  ghost predicate TakeEffect(k: Kernel, id: SemId, k': Kernel) {
    && id in k.sems && k.sems[id].value > 0
    && k' == k.(sems := k.sems[id := Sem(k.sems[id].value - 1, k.sems[id].queue)])
  }

  lemma TakeKeepsReadyQueuesFamily(k: Kernel, id: SemId, k': Kernel)
    requires TakeEffect(k, id, k') && ReadyOk(k) && QueuesOk(k) && FamilyOk(k, NONE)
    ensures ReadyOk(k') && QueuesOk(k') && FamilyOk(k', NONE)
  {
    FamilyFrame(k, k', NONE);
    assert forall p, st :: InState(k', p, st) <==> InState(k, p, st);
    assert forall p, i :: Waits(k', p, i) <==> Waits(k, p, i);
    assert forall p :: Live(k', p) <==> Live(k, p);
  }

  lemma TakeKeepsCalls(k: Kernel, id: SemId, k': Kernel)
    requires TakeEffect(k, id, k') && CallsOk(k)
    ensures forall p :: Live(k', p) ==> CallOk(k', p)
    ensures forall c :: c in k'.table && id != Terminated(c) ==> AnnouncedOk(k', c)
  {
    assert forall p, i :: Waits(k', p, i) <==> Waits(k, p, i);
    forall p | Live(k', p)
      ensures CallOk(k', p)
    {
      assert Live(k, p) && CallOk(k, p);
    }
    forall c | c in k'.table && id != Terminated(c)
      ensures AnnouncedOk(k', c)
    {
      assert AnnouncedOk(k, c);
      assert Announced(k', c) <==> Announced(k, c);
      assert AwaitableByParent(k', c) <==> AwaitableByParent(k, c);
    }
  }

  lemma TakeKeepsAccounts(k: Kernel, id: SemId, k': Kernel)
    requires TakeEffect(k, id, k') && AccountsOk(k, {})
    ensures forall p :: Live(k', p) && id != ChildTerminated(p) ==> AccountOk(k', p, {})
  {
    forall p | Live(k', p) && id != ChildTerminated(p)
      ensures AccountOk(k', p, {})
    {
      assert Live(k, p) && AccountOk(k, p, {});
      assert Waits(k', p, ChildTerminated(p)) <==> Waits(k, p, ChildTerminated(p));
      assert forall c :: InState(k', c, ZOMBIE) <==> InState(k, c, ZOMBIE);
    }
  }

  lemma TakeOtherKeepsGood(k: Kernel, id: SemId, k': Kernel)
    requires Good(k) && TakeEffect(k, id, k') && id.Other?
    ensures Good(k')
  {
    TakeKeepsReadyQueuesFamily(k, id, k');
    TakeKeepsCalls(k, id, k');
    TakeKeepsAccounts(k, id, k');
  }

  lemma WaitOtherKeepsGood(k: Kernel, id: SemId)
    requires Good(k) && InState(k, k.current, RUNNING) && k.current != IDLE_PID
    requires k.table[k.current].call == NoCall && id in k.sems && id.Other?
    ensures Good(SemWait(k, id, NoCall))
  {
    if WaitPasses(k.sems[id]) {
      TakeOtherKeepsGood(k, id, SemWait(k, id, NoCall));
    } else {
      BlockKeepsGood(k, id, NoCall);
    }
  }

  lemma TryWaitOtherKeepsGood(k: Kernel, id: SemId)
    requires Good(k) && id.Other?
    ensures Good(SemTryWait(k, id))
  {
    if id in k.sems {
      if k.sems[id].value > 0 {
        TakeOtherKeepsGood(k, id, SemTryWait(k, id));
      } else {
        assert k.sems[id := k.sems[id]] == k.sems;
      }
    }
  }

  lemma NewSemaphoreKeepsGood(k: Kernel, id: SemId, value: nat)
    requires Good(k) && id.Other? && id !in k.sems
    ensures Good(k.(sems := k.sems[id := Sem(value, [])]))
  {
    var k' := k.(sems := k.sems[id := Sem(value, [])]);
    FamilyFrame(k, k', NONE);
    assert forall p, st :: InState(k', p, st) <==> InState(k, p, st);
    assert forall p, i :: Waits(k', p, i) <==> Waits(k, p, i);
    NewSemaphoreKeepsCalls(k, id, value);
    NewSemaphoreKeepsAccounts(k, id, value);
  }

  lemma NewSemaphoreKeepsCalls(k: Kernel, id: SemId, value: nat)
    requires CallsOk(k) && id.Other? && id !in k.sems
    ensures CallsOk(k.(sems := k.sems[id := Sem(value, [])]))
  {
    var k' := k.(sems := k.sems[id := Sem(value, [])]);
    assert forall p, i :: Waits(k', p, i) <==> Waits(k, p, i);
    forall p | Live(k', p)
      ensures CallOk(k', p)
    {
      assert Live(k, p) && CallOk(k, p);
    }
    forall c | c in k'.table
      ensures AnnouncedOk(k', c)
    {
      assert AnnouncedOk(k, c);
      assert Announced(k', c) <==> Announced(k, c);
      assert AwaitableByParent(k', c) <==> AwaitableByParent(k, c);
    }
  }

  lemma NewSemaphoreKeepsAccounts(k: Kernel, id: SemId, value: nat)
    requires AccountsOk(k, {}) && id.Other? && id !in k.sems
    ensures AccountsOk(k.(sems := k.sems[id := Sem(value, [])]), {})
  {
    var k' := k.(sems := k.sems[id := Sem(value, [])]);
    forall p | Live(k', p)
      ensures AccountOk(k', p, {})
    {
      assert Live(k, p) && AccountOk(k, p, {});
      assert Waits(k', p, ChildTerminated(p)) <==> Waits(k, p, ChildTerminated(p));
      assert forall c :: InState(k', c, ZOMBIE) <==> InState(k, c, ZOMBIE);
    }
  }
}

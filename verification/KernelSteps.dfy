/** Every kernel operation keeps the invariant. */
module KernelSteps {
  import opened Semaphores
  import opened Sequences
  import opened KernelState
  import opened KernelInvariant

  // ----- posting

  /** What a post does: it wakes the longest-waiting blocked process w, or nobody and then the queue is empty. */
  ghost predicate PostEffect(k: Kernel, id: SemId, k': Kernel, w: Pid) {
    && id in k.sems && id in k'.sems && k'.current == k.current && k'.clock == k.clock
    && k'.sems == k.sems[id := k'.sems[id]]
    && Balanced(k'.sems[id]) && NoRepeats(k'.sems[id].queue)
    && (forall p :: p in k'.sems[id].queue ==> p in k.sems[id].queue && p != w)
    && (w != NOBODY ==>
          && w in k.sems[id].queue && InState(k, w, BLOCKED)
          && k'.table == k.table[w := k.table[w].(state := READY)] && k'.ready == k.ready + [w]
          && k'.sems[id].value <= 0)
    && (w == NOBODY ==>
          && k'.table == k.table && k'.ready == k.ready && k'.sems[id].queue == []
          && (forall p :: p in k.sems[id].queue ==> !InState(k, p, BLOCKED))
          && k'.sems[id].value == (if k.sems[id].value < 0 then 0 else k.sems[id].value) + 1)
  }

  lemma PostIs(k: Kernel, id: SemId) returns (w: Pid)
    requires QueuesOk(k) && id in k.sems && NOBODY !in k.table
    ensures PostEffect(k, id, SemPost(k, id), w)
  {
    var b, s := Blocked(k), k.sems[id];
    PostExact(s, b);
    w := Post(s, b).woken;
    var i := FirstBlocked(s.queue, b);
    if i < |s.queue| {
      assert forall p :: p in s.queue[i + 1..] ==> p in s.queue;
    } else {
      forall p | p in s.queue
        ensures p !in b
      {
        var j :| 0 <= j < |s.queue| && s.queue[j] == p;
      }
    }
  }

  lemma PostKeepsReady(k: Kernel, id: SemId, k': Kernel, w: Pid)
    requires PostEffect(k, id, k', w) && ReadyOk(k) && !InState(k, k.current, BLOCKED)
    ensures ReadyOk(k')
  {
    assert w != NOBODY ==> w !in k.ready && w != k.current;
    assert forall p :: InState(k', p, RUNNING) ==> InState(k, p, RUNNING);
    assert forall p :: p in k'.ready <==> p in k.ready || (w != NOBODY && p == w);
    assert forall p :: InState(k', p, READY) <==> InState(k, p, READY) || (w != NOBODY && p == w);
  }

  lemma PostKeepsQueues(k: Kernel, id: SemId, k': Kernel, w: Pid)
    requires PostEffect(k, id, k', w) && QueuesOk(k)
    ensures QueuesOk(k')
  {
    assert forall p, i :: Waits(k', p, i) ==> Waits(k, p, i);
    forall p, i | Waits(k', p, i) && Live(k', p)
      ensures InState(k', p, BLOCKED)
    {
      assert Waits(k, p, i) && Live(k, p);
      if w != NOBODY && p == w {
        assert Waits(k, w, id);
      }
    }
  }

  // ----- frames: what does not depend on the changed fields stays

  /** Same processes with the same families, births and zombies. */
  ghost predicate SameFamilies(k: Kernel, k': Kernel) {
    && k'.table.Keys == k.table.Keys && k'.clock == k.clock
    && forall p :: p in k.table ==>
         var a, b := k.table[p], k'.table[p];
         b.ppid == a.ppid && b.children == a.children && b.born == a.born && (b.state == ZOMBIE <==> a.state == ZOMBIE)
  }

  lemma FamilyFrame(k: Kernel, k': Kernel, dying: Pid)
    requires FamilyOk(k, dying) && SameFamilies(k, k')
    ensures FamilyOk(k', dying)
  {
    forall p | p in k'.table
      ensures ChildrenOk(k', p) && k'.table[p].born < k'.clock
      ensures Ordinary(p) ==> ParentOk(k', p, dying) && k'.table[INIT_PID].born < k'.table[p].born
    {
      assert p in k.table && ChildrenOk(k, p);
    }
  }

  lemma PostKeepsFamily(k: Kernel, id: SemId, k': Kernel, w: Pid, dying: Pid)
    requires PostEffect(k, id, k', w) && FamilyOk(k, dying)
    ensures FamilyOk(k', dying)
  {
    FamilyFrame(k, k', dying);
  }

  /** A post on a semaphore that announces no termination keeps the calls consistent. */
  lemma PostKeepsCalls(k: Kernel, id: SemId, k': Kernel, w: Pid)
    requires PostEffect(k, id, k', w) && CallsOk(k) && !id.Terminated?
    ensures CallsOk(k')
  {
    assert forall p, i :: Waits(k', p, i) ==> Waits(k, p, i);
    forall p | Live(k', p)
      ensures CallOk(k', p)
    {
      assert Live(k, p) && CallOk(k, p);
      var call := k.table[p].call;
      if call.InWaitPid? {
        assert Waits(k', p, Terminated(call.child)) <==> Waits(k, p, Terminated(call.child));
      }
    }
    forall c | c in k'.table
      ensures AnnouncedOk(k', c)
    {
      assert AnnouncedOk(k, c);
      assert Announced(k', c) <==> Announced(k, c);
      assert AwaitableByParent(k', c) <==> AwaitableByParent(k, c);
    }
  }

  lemma PostOtherKeepsAccounts(k: Kernel, id: SemId, k': Kernel, w: Pid, unlisted: set<Pid>)
    requires PostEffect(k, id, k', w) && AccountsOk(k, unlisted) && id.Other?
    ensures AccountsOk(k', unlisted)
  {
    forall p | Live(k', p)
      ensures AccountOk(k', p, unlisted)
    {
      assert AccountOk(k, p, unlisted);
      assert Waits(k', p, ChildTerminated(p)) <==> Waits(k, p, ChildTerminated(p));
      assert forall c :: InState(k', c, ZOMBIE) <==> InState(k, c, ZOMBIE);
    }
  }

  lemma PostOtherKeepsInv(k: Kernel, id: SemId, dying: Pid, unlisted: set<Pid>)
    requires Inv(k, dying, unlisted) && id.Other? && !InState(k, k.current, BLOCKED)
    ensures Inv(SemPost(k, id), dying, unlisted)
  {
    if id in k.sems {
      var w := PostIs(k, id);
      var k' := SemPost(k, id);
      PostKeepsReady(k, id, k', w);
      PostKeepsQueues(k, id, k', w);
      PostKeepsCalls(k, id, k', w);
      PostKeepsFamily(k, id, k', w, dying);
      PostOtherKeepsAccounts(k, id, k', w, unlisted);
    }
  }

  // ----- removing from a queue without repetitions

  lemma {:induction false} RemoveMembers(s: seq<Pid>, x: Pid)
    ensures forall y :: y in Remove(s, x) <==> y in s && y != x
    ensures NoRepeats(s) ==> NoRepeats(Remove(s, x)) && |Remove(s, x)| == |s| - if x in s then 1 else 0
  {
    if s != [] {
      RemoveMembers(s[1..], x);
      assert forall y :: y in s <==> y == s[0] || y in s[1..];
      if NoRepeats(s) {
        assert s[0] !in s[1..];
        assert NoRepeats(s[1..]);
      }
    }
  }

  // ----- changes that touch no family, call or semaphore

  /** Only scheduling data changed: READY, RUNNING and BLOCKED, quanta, the ready queue, who is current. */
  ghost predicate SameBusiness(k: Kernel, k': Kernel) {
    && k'.table.Keys == k.table.Keys && k'.clock == k.clock && k'.sems == k.sems
    && forall p :: p in k.table ==>
         var a, b := k.table[p], k'.table[p];
         && b.ppid == a.ppid && b.children == a.children && b.born == a.born
             && (b.state == ZOMBIE <==> a.state == ZOMBIE)
         && b.terminatedChildren == a.terminatedChildren && b.call == a.call
  }

  lemma BusinessFrame(k: Kernel, k': Kernel, dying: Pid, unlisted: set<Pid>)
    requires SameBusiness(k, k') && CallsOk(k) && FamilyOk(k, dying) && AccountsOk(k, unlisted)
    ensures CallsOk(k') && FamilyOk(k', dying) && AccountsOk(k', unlisted)
  {
    FamilyFrame(k, k', dying);
    CallsFrame(k, k');
    AccountsFrame(k, k', unlisted);
  }

  lemma CallsFrame(k: Kernel, k': Kernel)
    requires SameBusiness(k, k') && CallsOk(k)
    ensures CallsOk(k')
  {
    assert forall p, i :: Waits(k', p, i) <==> Waits(k, p, i);
    forall p | Live(k', p)
      ensures CallOk(k', p)
    {
      assert Live(k, p) && CallOk(k, p);
    }
    forall c | c in k'.table
      ensures AnnouncedOk(k', c)
    {
      assert AnnouncedOk(k, c);
      assert Announced(k', c) <==> Announced(k, c);
      assert AwaitableByParent(k', c) <==> AwaitableByParent(k, c);
    }
  }

  lemma AccountsFrame(k: Kernel, k': Kernel, unlisted: set<Pid>)
    requires SameBusiness(k, k') && AccountsOk(k, unlisted)
    ensures AccountsOk(k', unlisted)
  {
    assert forall p, i :: Waits(k', p, i) <==> Waits(k, p, i);
    forall p | Live(k', p)
      ensures AccountOk(k', p, unlisted)
    {
      assert Live(k, p) && AccountOk(k, p, unlisted);
      assert forall c :: InState(k', c, ZOMBIE) <==> InState(k, c, ZOMBIE);
    }
  }

  /** Whoever waits and lives is still BLOCKED. */
  lemma QueuesFrame(k: Kernel, k': Kernel)
    requires SameBusiness(k, k') && QueuesOk(k)
    requires forall p :: InState(k, p, BLOCKED) && !InState(k', p, BLOCKED) ==> !Queued(k, p)
    ensures QueuesOk(k')
  {
    assert forall p, i :: Waits(k', p, i) <==> Waits(k, p, i);
    forall p, id | Waits(k', p, id) && Live(k', p)
      ensures InState(k', p, BLOCKED)
    {
      assert Live(k, p) && InState(k, p, BLOCKED);
      assert Queued(k, p);
    }
  }

  lemma ContinueKeepsGood(k: Kernel, p: Pid)
    requires Good(k) && InState(k, k.current, RUNNING) && !Queued(k, p)
    ensures Good(MakeReady(k, p))
  {
    ContinueKeepsReady(k, p);
    ContinueIsScheduling(k, p);
    SchedulingKeepsGood(k, MakeReady(k, p));
  }

  lemma ContinueKeepsReady(k: Kernel, p: Pid)
    requires ReadyOk(k) && InState(k, k.current, RUNNING)
    ensures ReadyOk(MakeReady(k, p))
  {
    var k' := MakeReady(k, p);
    if InState(k, p, BLOCKED) {
      assert p !in k.ready && p != k.current;
      assert forall q :: InState(k', q, RUNNING) ==> InState(k, q, RUNNING);
      assert forall q :: InState(k', q, READY) <==> InState(k, q, READY) || q == p;
      assert forall q :: q in k'.ready <==> q in k.ready || q == p;
    }
  }

  lemma ContinueIsScheduling(k: Kernel, p: Pid)
    ensures SameBusiness(k, MakeReady(k, p))
    ensures forall q :: InState(k, q, BLOCKED) && q != p ==> InState(MakeReady(k, p), q, BLOCKED)
  {
  }

  lemma SchedulingKeepsGood(k: Kernel, k': Kernel)
    requires Good(k) && SameBusiness(k, k') && ReadyOk(k')
    requires forall p :: InState(k, p, BLOCKED) && !InState(k', p, BLOCKED) ==> !Queued(k, p)
    ensures Good(k')
  {
    BusinessFrame(k, k', NONE, {});
    QueuesFrame(k, k');
  }

  lemma StopKeepsGood(k: Kernel, p: Pid)
    requires Good(k) && InState(k, k.current, RUNNING)
    ensures Good(SetBlocked(k, p))
  {
    StopKeepsReady(k, p);
    StopIsScheduling(k, p);
    SchedulingKeepsGood(k, SetBlocked(k, p));
  }

  lemma StopIsScheduling(k: Kernel, p: Pid)
    ensures SameBusiness(k, SetBlocked(k, p))
    ensures forall q :: InState(k, q, BLOCKED) ==> InState(SetBlocked(k, p), q, BLOCKED)
  {
  }

  lemma StopKeepsReady(k: Kernel, p: Pid)
    requires ReadyOk(k) && InState(k, k.current, RUNNING)
    ensures ReadyOk(SetBlocked(k, p))
  {
    var k' := SetBlocked(k, p);
    RemoveMembers(k.ready, p);
    if k' != k {
      assert forall q :: InState(k', q, RUNNING) ==> InState(k, q, RUNNING);
      assert forall q :: InState(k', q, READY) <==> InState(k, q, READY) && q != p;
    }
  }

  lemma NiceKeepsGood(k: Kernel, p: Pid, priority: nat)
    requires Good(k)
    ensures Good(SetPriority(k, p, priority))
  {
    NiceIsScheduling(k, p, priority);
    NiceKeepsReady(k, p, priority);
    SchedulingKeepsGood(k, SetPriority(k, p, priority));
  }

  lemma NiceIsScheduling(k: Kernel, p: Pid, priority: nat)
    ensures SameBusiness(k, SetPriority(k, p, priority))
    ensures forall q, st :: InState(SetPriority(k, p, priority), q, st) <==> InState(k, q, st)
  {
  }

  lemma NiceKeepsReady(k: Kernel, p: Pid, priority: nat)
    requires ReadyOk(k)
    ensures ReadyOk(SetPriority(k, p, priority))
  {
    NiceIsScheduling(k, p, priority);
  }

  // ----- the scheduler

  /** The fallback to idle on an empty queue is never taken: idle is always current or queued. */
  lemma NextPidIsReady(k: Kernel)
    requires ReadyOk(k) && !InState(k, k.current, RUNNING)
    ensures k.ready != [] && InState(k, NextPid(k), READY)
  {
    assert IDLE_PID in k.ready;
    assert k.ready[0] in k.ready;
  }

  lemma DispatchKeepsGood(k: Kernel)
    requires Good(k) && !InState(k, k.current, RUNNING)
    ensures Good(Dispatch(k)) && InState(Dispatch(k), Dispatch(k).current, RUNNING)
  {
    NextPidIsReady(k);
    BusinessFrame(k, Dispatch(k), NONE, {});
    QueuesFrame(k, Dispatch(k));
    DispatchKeepsReady(k);
  }

  lemma DispatchKeepsReady(k: Kernel)
    requires ReadyOk(k) && !InState(k, k.current, RUNNING)
    ensures ReadyOk(Dispatch(k)) && InState(Dispatch(k), Dispatch(k).current, RUNNING)
  {
    NextPidIsReady(k);
    var p, k' := NextPid(k), Dispatch(k);
    assert k.ready == [p] + k.ready[1..];
    assert p !in k.ready[1..];
    assert forall q :: q in k.ready <==> q == p || q in k'.ready;
    assert forall q :: InState(k', q, READY) <==> InState(k, q, READY) && q != p;
    assert forall q :: InState(k', q, RUNNING) ==> InState(k, q, RUNNING) || q == p;
  }

  lemma TickKeepsGood(k: Kernel)
    requires Good(k)
    ensures Good(Schedule(k)) && InState(Schedule(k), Schedule(k).current, RUNNING)
  {
    var c := k.current;
    if !InState(k, c, RUNNING) {
      DispatchKeepsGood(k);
    } else if k.table[c].remaining > 0 {
      var k' := Schedule(k);
      BusinessFrame(k, k', NONE, {});
      QueuesFrame(k, k');
      assert forall q, st :: InState(k', q, st) <==> InState(k, q, st);
    } else {
      RequeueCurrent(k);
    }
  }

  /** Between putting the current process back and dispatching, the current process is READY; one dispatch later all
      is well. */
  lemma RequeueCurrent(k: Kernel)
    requires Good(k) && InState(k, k.current, RUNNING)
    ensures var k1 := SetState(k, k.current, READY).(ready := k.ready + [k.current]);
      Good(Dispatch(k1)) && InState(Dispatch(k1), Dispatch(k1).current, RUNNING)
  {
    var k1 := SetState(k, k.current, READY).(ready := k.ready + [k.current]);
    var k2 := k1.(current := -1);
    RequeueReady(k);
    RequeueIsScheduling(k);
    SchedulingKeepsGood(k, k2);
    DispatchKeepsGood(k2);
    NextPidIsReady(k2);
    DispatchForgetsCurrent(k1);
  }

  lemma RequeueIsScheduling(k: Kernel)
    requires InState(k, k.current, RUNNING)
    ensures var k2 := SetState(k, k.current, READY).(ready := k.ready + [k.current], current := -1);
      SameBusiness(k, k2) && forall q :: InState(k, q, BLOCKED) ==> InState(k2, q, BLOCKED)
  {
  }

  lemma DispatchForgetsCurrent(k1: Kernel)
    requires k1.ready != [] && k1.ready[0] in k1.table
    ensures Dispatch(k1) == Dispatch(k1.(current := -1))
  {
  }

  lemma RequeueReady(k: Kernel)
    requires ReadyOk(k) && InState(k, k.current, RUNNING)
    ensures ReadyOk(SetState(k, k.current, READY).(ready := k.ready + [k.current], current := -1))
  {
    var c := k.current;
    var k2 := SetState(k, c, READY).(ready := k.ready + [c], current := -1);
    assert c !in k.ready;
    assert forall q :: InState(k2, q, READY) <==> InState(k, q, READY) || q == c;
    assert forall q :: InState(k2, q, RUNNING) ==> InState(k, q, RUNNING) && q != c;
    assert forall q :: q in k2.ready <==> q in k.ready || q == c;
  }
}

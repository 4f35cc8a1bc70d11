/** Waiting for children and reaping them keeps the invariant, and only zombies are ever reaped. */
module KernelReaping {
  import opened Semaphores
  import opened Sequences
  import opened KernelState
  import opened KernelInvariant
  import opened KernelSteps
  import opened KernelWaits

  /** p forgets its child c: the given list is what remains of its terminated children. */
  function Forget(k: Kernel, p: Pid, c: Pid, rest: seq<Pid>): Kernel
    requires p in k.table
  {
    Reap(k.(table := k.table[p := k.table[p].(terminatedChildren := rest)]), p, c)
  }

  /** Everything is in order except that p has already paid for its zombie child c. */
  ghost predicate MayForget(k: Kernel, p: Pid, c: Pid, rest: seq<Pid>) {
    && ReadyOk(k) && QueuesOk(k) && FamilyOk(k, NONE)
    && (forall r :: Live(k, r) ==> CallOk(k, r))
    && (forall x :: x in k.table && x != c ==> AnnouncedOk(k, x))
    && (forall r :: Live(k, r) && r != p ==> AccountOk(k, r, {}))
    && Live(k, p) && InState(k, c, ZOMBIE) && k.table[c].ppid == p && Ordinary(c) && k.current != c
    && k.table[p].call != InWaitPid(c)
    && NoRepeats(rest) && (forall x :: x in rest <==> InState(k, x, ZOMBIE) && k.table[x].ppid == p && x != c)
    && ChildTerminated(p) in k.sems && |rest| == Units(k.sems[ChildTerminated(p)]) + if Granted(k, p) then 1 else 0
  }

  /** The state after forgetting, field by field. */
  ghost predicate ForgetEffect(k: Kernel, p: Pid, c: Pid, rest: seq<Pid>, k': Kernel) {
    && p in k.table && c in k.table && p != c
    && k'.ready == k.ready && k'.current == k.current && k'.clock == k.clock
    && k'.sems == k.sems - {Terminated(c), ChildTerminated(c)}
    && k'.table.Keys == k.table.Keys - {c}
    && (forall x :: x in k'.table && x != p ==> k'.table[x] == k.table[x])
    && k'.table[p] == k.table[p].(terminatedChildren := rest, children := Remove(k.table[p].children, c))
  }

  lemma ForgetIs(k: Kernel, p: Pid, c: Pid, rest: seq<Pid>)
    requires p in k.table && c in k.table && p != c
    ensures ForgetEffect(k, p, c, rest, Forget(k, p, c, rest))
  {
  }

  lemma ForgetStates(k: Kernel, p: Pid, c: Pid, rest: seq<Pid>, k': Kernel)
    requires ForgetEffect(k, p, c, rest, k')
    ensures forall x, st :: InState(k', x, st) <==> InState(k, x, st) && x != c
    ensures forall x :: Live(k', x) <==> Live(k, x) && x != c
    ensures forall x, id :: Waits(k', x, id) <==> Waits(k, x, id) && id != Terminated(c) && id != ChildTerminated(c)
  {
  }

  lemma ForgetKeepsReady(k: Kernel, p: Pid, c: Pid, rest: seq<Pid>, k': Kernel)
    requires ForgetEffect(k, p, c, rest, k') && ReadyOk(k) && InState(k, c, ZOMBIE) && k.current != c
    ensures ReadyOk(k')
  {
    ForgetStates(k, p, c, rest, k');
  }

  lemma ForgetKeepsQueues(k: Kernel, p: Pid, c: Pid, rest: seq<Pid>, k': Kernel)
    requires ForgetEffect(k, p, c, rest, k') && QueuesOk(k)
    ensures QueuesOk(k')
  {
    ForgetStates(k, p, c, rest, k');
    assert forall id :: id in k'.sems ==> id in k.sems && k'.sems[id] == k.sems[id];
    forall x, id | Waits(k', x, id) && Live(k', x)
      ensures InState(k', x, BLOCKED)
    {
      assert Waits(k, x, id) && Live(k, x);
      assert InState(k, x, BLOCKED);
    }
    assert forall x, id, id' :: Waits(k', x, id) && Waits(k', x, id') ==> Waits(k, x, id) && Waits(k, x, id');
  }

  lemma ForgetKeepsCalls(k: Kernel, p: Pid, c: Pid, rest: seq<Pid>, k': Kernel)
    requires ForgetEffect(k, p, c, rest, k') && MayForget(k, p, c, rest)
    ensures CallsOk(k')
  {
    ForgetStates(k, p, c, rest, k');
    forall r | Live(k', r)
      ensures CallOk(k', r)
    {
      assert Live(k, r) && CallOk(k, r);
      ForgetKeepsCall(k, p, c, rest, k', r);
    }
    forall x | x in k'.table
      ensures AnnouncedOk(k', x)
    {
      assert x in k.table && x != c && AnnouncedOk(k, x);
      ForgetKeepsAnnounced(k, p, c, rest, k', x);
    }
  }

  lemma ForgetKeepsCall(k: Kernel, p: Pid, c: Pid, rest: seq<Pid>, k': Kernel, r: Pid)
    requires ForgetEffect(k, p, c, rest, k') && Live(k', r) && Live(k, r) && CallOk(k, r)
    requires InState(k, c, ZOMBIE) && k.table[c].ppid == p && k.table[p].call != InWaitPid(c)
    ensures CallOk(k', r)
  {
    ForgetStates(k, p, c, rest, k');
    if k.table[r].call.InWaitPid? {
      assert AwaitsChild(k, r, k.table[r].call.child);
    }
  }

  lemma ForgetKeepsAnnounced(k: Kernel, p: Pid, c: Pid, rest: seq<Pid>, k': Kernel, x: Pid)
    requires ForgetEffect(k, p, c, rest, k') && x in k'.table && x in k.table && x != c && AnnouncedOk(k, x)
    requires InState(k, c, ZOMBIE)
    ensures AnnouncedOk(k', x)
  {
    assert Announced(k', x) <==> Announced(k, x);
    if AwaitableByParent(k', x) {
      assert AwaitableByParent(k, x);
    }
  }

  lemma ForgetKeepsFamily(k: Kernel, p: Pid, c: Pid, rest: seq<Pid>, k': Kernel)
    requires ForgetEffect(k, p, c, rest, k') && FamilyOk(k, NONE) && NONE !in k.table
    requires InState(k, c, ZOMBIE) && k.table[c].ppid == p && Ordinary(c)
    ensures FamilyOk(k', NONE)
  {
    RemoveMembers(k.table[p].children, c);
    forall x | x in k'.table
      ensures ChildrenOk(k', x) && k'.table[x].born < k'.clock
    {
      assert x in k.table && x != c && ChildrenOk(k, x);
      ForgottenChildren(k, p, c, rest, k', x);
    }
    forall x | x in k'.table && Ordinary(x)
      ensures ParentOk(k', x, NONE) && k'.table[INIT_PID].born < k'.table[x].born
    {
      assert x in k.table && x != c && ParentOk(k, x, NONE);
    }
  }

  lemma ForgottenChildren(k: Kernel, p: Pid, c: Pid, rest: seq<Pid>, k': Kernel, x: Pid)
    requires ForgetEffect(k, p, c, rest, k') && x in k'.table && x in k.table && ChildrenOk(k, x)
    requires k.table[c].ppid == p
    ensures ChildrenOk(k', x)
  {
    RemoveMembers(k.table[p].children, c);
  }

  lemma ForgetKeepsAccounts(k: Kernel, p: Pid, c: Pid, rest: seq<Pid>, k': Kernel)
    requires ForgetEffect(k, p, c, rest, k') && MayForget(k, p, c, rest)
    ensures AccountsOk(k', {})
  {
    ForgetStates(k, p, c, rest, k');
    forall r | Live(k', r)
      ensures AccountOk(k', r, {})
    {
      assert Live(k, r) && r != c;
      if r != p {
        assert AccountOk(k, r, {});
        OtherAccountKept(k, p, c, rest, k', r);
      } else {
        OwnAccountSettled(k, p, c, rest, k');
      }
    }
  }

  lemma OtherAccountKept(k: Kernel, p: Pid, c: Pid, rest: seq<Pid>, k': Kernel, r: Pid)
    requires ForgetEffect(k, p, c, rest, k') && k.table[c].ppid == p
    requires r in k.table && r != p && r != c && AccountOk(k, r, {})
    ensures AccountOk(k', r, {})
  {
    ForgetStates(k, p, c, rest, k');
  }

  lemma OwnAccountSettled(k: Kernel, p: Pid, c: Pid, rest: seq<Pid>, k': Kernel)
    requires ForgetEffect(k, p, c, rest, k')
    requires NoRepeats(rest) && (forall x :: x in rest <==> InState(k, x, ZOMBIE) && k.table[x].ppid == p && x != c)
    requires ChildTerminated(p) in k.sems
        && |rest| == Units(k.sems[ChildTerminated(p)]) + if Granted(k, p) then 1 else 0
    requires Live(k, p)
    ensures AccountOk(k', p, {})
  {
    ForgetStates(k, p, c, rest, k');
  }

  lemma ForgetKeepsGood(k: Kernel, p: Pid, c: Pid, rest: seq<Pid>)
    requires MayForget(k, p, c, rest)
    ensures Good(Forget(k, p, c, rest))
  {
    var k' := Forget(k, p, c, rest);
    ForgetIs(k, p, c, rest);
    ForgetKeepsReady(k, p, c, rest, k');
    ForgetKeepsQueues(k, p, c, rest, k');
    ForgetKeepsCalls(k, p, c, rest, k');
    ForgetKeepsFamily(k, p, c, rest, k');
    ForgetKeepsAccounts(k, p, c, rest, k');
  }

  // ----- wait_any and reap_zombies

  /** p has paid for one of its zombies: its list is one longer than its units. */
  ghost predicate Owed(k: Kernel, p: Pid) {
    && InState(k, p, RUNNING) && ChildTerminated(p) in k.sems
    && ReadyOk(k) && QueuesOk(k) && FamilyOk(k, NONE) && CallsOk(k)
    && (forall r :: Live(k, r) && r != p ==> AccountOk(k, r, {}))
    && k.table[p].call == NoCall
    && var ts := k.table[p].terminatedChildren;
       && NoRepeats(ts) && (forall x :: x in ts <==> InState(k, x, ZOMBIE) && k.table[x].ppid == p)
       && |ts| == Units(k.sems[ChildTerminated(p)]) + 1
  }

  /** What wait_any and reap_zombies poll is never NULL: it is a zombie child of the caller. */
  lemma PolledIsZombieChild(k: Kernel, p: Pid)
    requires Owed(k, p)
    ensures k.table[p].terminatedChildren != []
        && ReapFirst(k, p) == Forget(k, p, FirstTerminated(k, p), k.table[p].terminatedChildren[1..])
    ensures var c := FirstTerminated(k, p);
      InState(k, c, ZOMBIE) && k.table[c].ppid == p && Ordinary(c)
  {
    var ts := k.table[p].terminatedChildren;
    assert ts[0] in ts;
  }

  /** One turn of reap_zombies from a granted unit: the invariant holds again and the caller goes on running. */
  lemma ReapTurn(k: Kernel)
    requires Owed(k, k.current) && k.table[k.current].call == NoCall
    ensures var k', p := ReapFirst(k, k.current), k.current;
      && Good(k') && k'.current == p && InState(k', p, RUNNING) && k'.table[p].call == NoCall
      && k'.sems[ChildTerminated(p)] == k.sems[ChildTerminated(p)]
  {
    PolledIsZombieChild(k, k.current);
    ReapFirstKeepsGood(k, k.current);
    ForgetIs(k, k.current, FirstTerminated(k, k.current), k.table[k.current].terminatedChildren[1..]);
  }

  lemma ReapFirstKeepsGood(k: Kernel, p: Pid)
    requires Owed(k, p)
    ensures Good(ReapFirst(k, p))
  {
    PolledIsZombieChild(k, p);
    var ts := k.table[p].terminatedChildren;
    TailMembers(ts);
    assert MayForget(k, p, ts[0], ts[1..]);
    ForgetKeepsGood(k, p, ts[0], ts[1..]);
  }

  lemma TailMembers(ts: seq<Pid>)
    requires NoRepeats(ts) && ts != []
    ensures NoRepeats(ts[1..]) && forall x :: x in ts[1..] <==> x in ts && x != ts[0]
  {
    assert ts == [ts[0]] + ts[1..];
  }

  lemma TakeChildMakesOwed(k: Kernel, k': Kernel)
    requires Good(k) && InState(k, k.current, RUNNING) && k.table[k.current].call == NoCall
    requires TakeEffect(k, ChildTerminated(k.current), k')
    ensures Owed(k', k.current)
  {
    TakeKeepsReadyQueuesFamily(k, ChildTerminated(k.current), k');
    TakeKeepsCalls(k, ChildTerminated(k.current), k');
    TakeKeepsAccounts(k, ChildTerminated(k.current), k');
    assert AccountOk(k, k.current, {});
    assert forall x :: InState(k', x, ZOMBIE) <==> InState(k, x, ZOMBIE);
  }

  lemma WaitAnyKeepsGood(k: Kernel)
    requires Good(k) && InState(k, k.current, RUNNING) && k.table[k.current].call == NoCall && k.current != IDLE_PID
    ensures Good(WaitAny(k))
  {
    var id := ChildTerminated(k.current);
    if id in k.sems {
      if WaitPasses(k.sems[id]) {
        TakeChildMakesOwed(k, SemWait(k, id, InWaitAny));
        ReapFirstKeepsGood(SemWait(k, id, InWaitAny), k.current);
      } else {
        BlockKeepsGood(k, id, InWaitAny);
      }
    }
  }

  /** A process woken inside a call waits for nothing; clearing the call upsets only its own account,
      or the announcement of the child it was waiting for. */
  lemma ClearCallKeeps(k: Kernel, p: Pid)
    requires Good(k) && InState(k, p, RUNNING)
    ensures var k', call := ClearCall(k, p), k.table[p].call;
      && ReadyOk(k') && QueuesOk(k') && FamilyOk(k', NONE) && (forall r :: Live(k', r) ==> CallOk(k', r))
      && (forall x :: x in k'.table && call != InWaitPid(x) ==> AnnouncedOk(k', x))
      && (forall r :: Live(k', r) && (r != p || call != InWaitAny) ==> AccountOk(k', r, {}))
  {
    NotWaiting(k, p);
    assert forall id :: Waits(k, p, id) ==> Queued(k, p);
    ClearCallKeepsQueues(k, p);
    ClearCallKeepsCalls(k, p);
    ClearCallKeepsAccounts(k, p);
  }

  lemma ClearCallKeepsQueues(k: Kernel, p: Pid)
    requires ReadyOk(k) && QueuesOk(k) && FamilyOk(k, NONE) && p in k.table
    ensures var k' := ClearCall(k, p);
      ReadyOk(k') && QueuesOk(k') && FamilyOk(k', NONE)
  {
    var k' := ClearCall(k, p);
    FamilyFrame(k, k', NONE);
    assert forall x, st :: InState(k', x, st) <==> InState(k, x, st);
    assert forall x, id :: Waits(k', x, id) <==> Waits(k, x, id);
  }

  lemma ClearCallKeepsCalls(k: Kernel, p: Pid)
    requires CallsOk(k) && p in k.table && forall id :: !Waits(k, p, id)
    ensures var k' := ClearCall(k, p);
      && (forall r :: Live(k', r) ==> CallOk(k', r))
      && (forall x :: x in k'.table && k.table[p].call != InWaitPid(x) ==> AnnouncedOk(k', x))
  {
    var k' := ClearCall(k, p);
    assert forall x, id :: Waits(k', x, id) <==> Waits(k, x, id);
    forall r | Live(k', r)
      ensures CallOk(k', r)
    {
      assert Live(k, r) && CallOk(k, r);
    }
    forall x | x in k'.table && k.table[p].call != InWaitPid(x)
      ensures AnnouncedOk(k', x)
    {
      assert AnnouncedOk(k, x);
      assert Announced(k', x) <==> Announced(k, x);
      assert AwaitableByParent(k', x) <==> AwaitableByParent(k, x);
    }
  }

  lemma ClearCallKeepsAccounts(k: Kernel, p: Pid)
    requires AccountsOk(k, {}) && p in k.table
    ensures var k' := ClearCall(k, p);
      forall r :: Live(k', r) && (r != p || k.table[p].call != InWaitAny) ==> AccountOk(k', r, {})
  {
    var k' := ClearCall(k, p);
    assert forall x, st :: InState(k', x, st) <==> InState(k, x, st);
    forall r | Live(k', r) && (r != p || k.table[p].call != InWaitAny)
      ensures AccountOk(k', r, {})
    {
      assert Live(k, r) && AccountOk(k, r, {});
      assert Granted(k', r) <==> Granted(k, r);
    }
  }

  /** A process woken from wait_any finds a zombie child waiting for it. */
  lemma GrantedIsOwed(k: Kernel, p: Pid)
    requires Good(k) && InState(k, p, RUNNING) && k.table[p].call == InWaitAny
    ensures Owed(ClearCall(k, p), p)
  {
    ClearCallKeeps(k, p);
    NotWaiting(k, p);
    assert Waits(k, p, ChildTerminated(p)) ==> Queued(k, p);
    assert AccountOk(k, p, {});
    assert Granted(k, p);
    assert forall x :: InState(ClearCall(k, p), x, ZOMBIE) <==> InState(k, x, ZOMBIE);
  }

  /** ... and with taking the unit first. */
  lemma TakeAndReap(k: Kernel) returns (k': Kernel)
    requires Good(k) && InState(k, k.current, RUNNING) && k.table[k.current].call == NoCall
    requires ChildTerminated(k.current) in k.sems && Units(k.sems[ChildTerminated(k.current)]) > 0
    ensures k' == ReapFirst(SemTryWait(k, ChildTerminated(k.current)), k.current)
    ensures Good(k') && k'.current == k.current && InState(k', k.current, RUNNING)
    ensures k'.table[k.current].call == NoCall && ChildTerminated(k.current) in k'.sems
    ensures Units(k'.sems[ChildTerminated(k.current)]) == Units(k.sems[ChildTerminated(k.current)]) - 1
  {
    var k1 := SemTryWait(k, ChildTerminated(k.current));
    TakeChildMakesOwed(k, k1);
    ReapTurn(k1);
    k' := ReapFirst(k1, k.current);
  }

  lemma {:induction false} ReapTimesKeepsGood(k: Kernel, n: nat)
    requires Good(k) && InState(k, k.current, RUNNING) && k.table[k.current].call == NoCall
    requires ChildTerminated(k.current) in k.sems && n == Units(k.sems[ChildTerminated(k.current)])
    ensures var k' := ReapTimes(k, n);
      && Good(k') && k'.current == k.current && InState(k', k.current, RUNNING)
      && k'.table[k.current].terminatedChildren == []
    decreases n
  {
    var p := k.current;
    if n == 0 {
      assert AccountOk(k, p, {});
      assert !Granted(k, p);
    } else {
      var k1 := SemTryWait(k, ChildTerminated(p));
      TakeChildMakesOwed(k, k1);
      PolledIsZombieChild(k1, p);
      ReapFirstKeepsGood(k1, p);
      ForgetIs(k1, p, FirstTerminated(k1, p), k1.table[p].terminatedChildren[1..]);
      ReapTimesKeepsGood(ReapFirst(k1, p), n - 1);
    }
  }

  /** After reap_zombies the caller has no zombie children left. */
  lemma ReapZombiesReapsAll(k: Kernel)
    requires Good(k) && InState(k, k.current, RUNNING) && k.table[k.current].call == NoCall
    ensures var k' := ReapZombies(k);
      Good(k') && InState(k', k.current, RUNNING) && forall c :: InState(k', c, ZOMBIE) ==>
          k'.table[c].ppid != k.current
  {
    assert ChildTerminated(k.current) in k.sems;
    ReapTimesKeepsGood(k, Units(k.sems[ChildTerminated(k.current)]));
    NothingListed(ReapZombies(k), k.current);
  }

  lemma NothingListed(k: Kernel, p: Pid)
    requires AccountsOk(k, {}) && Live(k, p) && k.table[p].terminatedChildren == []
    ensures forall c :: InState(k, c, ZOMBIE) ==> k.table[c].ppid != p
  {
    assert AccountOk(k, p, {});
    forall c | InState(k, c, ZOMBIE)
      ensures k.table[c].ppid != p
    {
      assert c !in k.table[p].terminatedChildren;
    }
  }

  // ----- wait_pid

  lemma FinishWaitPidIsForget(k: Kernel, p: Pid, c: Pid)
    requires p in k.table
    ensures FinishWaitPid(k, p, c)
        == Forget(SemTryWait(k, ChildTerminated(p)), p, c, Remove(k.table[p].terminatedChildren, c))
  {
  }

  /** A zombie whose termination is known can be forgotten: its parent has a unit for it, and it is listed. */
  lemma FinishWaitPidKeepsGood(k: Kernel, p: Pid, c: Pid)
    requires ReadyOk(k) && QueuesOk(k) && FamilyOk(k, NONE) && AccountsOk(k, {})
    requires forall r :: Live(k, r) ==> CallOk(k, r)
    requires forall x :: x in k.table && x != c ==> AnnouncedOk(k, x)
    requires InState(k, c, ZOMBIE) && k.table[c].ppid == p && k.current != c && CanSpare(k, p, c)
    ensures Good(FinishWaitPid(k, p, c))
    ensures FinishWaitPid(k, p, c).table.Keys == k.table.Keys - {c}
    ensures forall x, st :: InState(FinishWaitPid(k, p, c), x, st) <==> InState(k, x, st) && x != c
  {
    var ts := k.table[p].terminatedChildren;
    var k1 := SemTryWait(k, ChildTerminated(p));
    ZombieIsListed(k, p, c);
    FinishWaitPidIsForget(k, p, c);
    RemoveMembers(ts, c);
    TakenForWait(k, p, c, k1);
    ForgetKeepsGood(k1, p, c, Remove(ts, c));
    ForgetIs(k1, p, c, Remove(ts, c));
    ForgetStates(k1, p, c, Remove(ts, c), FinishWaitPid(k, p, c));
  }

  /** The parent of a zombie lives, is another process, lists it, and holds a unit or a grant. */
  lemma ZombieIsListed(k: Kernel, p: Pid, c: Pid)
    requires FamilyOk(k, NONE) && NONE !in k.table && AccountsOk(k, {}) && Live(k, INIT_PID) && Live(k, IDLE_PID)
    requires InState(k, c, ZOMBIE) && k.table[c].ppid == p
    ensures Ordinary(c) && p != c && Live(k, p) && c in k.table[p].terminatedChildren && ChildTerminated(p) in k.sems
    ensures !Granted(k, p) ==> k.sems[ChildTerminated(p)].value > 0
  {
    assert Ordinary(c);
    assert ParentOk(k, c, NONE);
    assert AccountOk(k, p, {});
  }

  lemma TakenForWait(k: Kernel, p: Pid, c: Pid, k1: Kernel)
    requires ReadyOk(k) && QueuesOk(k) && FamilyOk(k, NONE) && AccountsOk(k, {})
    requires forall r :: Live(k, r) ==> CallOk(k, r)
    requires forall x :: x in k.table && x != c ==> AnnouncedOk(k, x)
    requires Live(k, p) && InState(k, c, ZOMBIE) && k.table[c].ppid == p && Ordinary(c)
        && k.table[p].call != InWaitPid(c)
    requires k.current != c
    requires TakeEffect(k, ChildTerminated(p), k1) && c in k.table[p].terminatedChildren
    ensures MayForget(k1, p, c, Remove(k.table[p].terminatedChildren, c))
  {
    var id := ChildTerminated(p);
    TakeKeepsReadyQueuesFamily(k, id, k1);
    TakeKeepsCallsExcept(k, id, k1, c);
    TakeKeepsAccounts(k, id, k1);
    assert AccountOk(k, p, {});
    RestCounts(k, p, c, k1);
  }

  /** Without c the list of its parent again matches what is left of the units and the grant. */
  lemma RestCounts(k: Kernel, p: Pid, c: Pid, k1: Kernel)
    requires p in k.table && AccountOk(k, p, {}) && c in k.table[p].terminatedChildren
    requires TakeEffect(k, ChildTerminated(p), k1)
    ensures var rest := Remove(k.table[p].terminatedChildren, c);
      && NoRepeats(rest) && (forall x :: x in rest <==> InState(k1, x, ZOMBIE) && k1.table[x].ppid == p && x != c)
      && |rest| == Units(k1.sems[ChildTerminated(p)]) + if Granted(k1, p) then 1 else 0
  {
    RemoveMembers(k.table[p].terminatedChildren, c);
    assert forall x, st :: InState(k1, x, st) <==> InState(k, x, st);
    assert Waits(k1, p, ChildTerminated(p)) <==> Waits(k, p, ChildTerminated(p));
  }

  lemma TakeKeepsCallsExcept(k: Kernel, id: SemId, k': Kernel, c: Pid)
    requires TakeEffect(k, id, k') && id.ChildTerminated?
    requires forall r :: Live(k, r) ==> CallOk(k, r)
    requires forall x :: x in k.table && x != c ==> AnnouncedOk(k, x)
    ensures forall r :: Live(k', r) ==> CallOk(k', r)
    ensures forall x :: x in k'.table && x != c ==> AnnouncedOk(k', x)
  {
    assert forall p, i :: Waits(k', p, i) <==> Waits(k, p, i);
    forall p | Live(k', p)
      ensures CallOk(k', p)
    {
      assert Live(k, p) && CallOk(k, p);
    }
    forall x | x in k'.table && x != c
      ensures AnnouncedOk(k', x)
    {
      assert AnnouncedOk(k, x);
      assert Announced(k', x) <==> Announced(k, x);
      assert AwaitableByParent(k', x) <==> AwaitableByParent(k, x);
    }
  }

  /** wait_pid keeps the invariant exactly when nobody else is about to reap the announced zombie, or the caller
      is the parent of a child that is still alive.  The code checks neither. */
  lemma WaitPidIsSafeExactly(k: Kernel, c: Pid)
    requires Good(k) && InState(k, k.current, RUNNING) && k.table[k.current].call == NoCall
    ensures Good(WaitPid(k, c)) <==> MayWaitFor(k, c)
  {
    if c in k.table {
      if Announced(k, c) {
        assert AnnouncedOk(k, c);
        if CanSpare(k, k.table[c].ppid, c) {
          AnnouncedZombieIsReaped(k, c);
        } else {
          TakenFromParent(k, c);
        }
      } else if MayWaitFor(k, c) {
        ParentIsNotIdle(k, c);
        BlockKeepsGood(k, Terminated(c), InWaitPid(c));
      } else {
        BlocksOnOther(k, c);
      }
    }
  }

  lemma ParentIsNotIdle(k: Kernel, c: Pid)
    requires FamilyOk(k, NONE) && c in k.table && Ordinary(c)
    ensures k.table[c].ppid != IDLE_PID && k.table[c].ppid != c
  {
    assert ParentOk(k, c, NONE);
  }

  /** wait_pid by the parent: it blocks exactly while the child is alive, and else reaps it. */
  lemma WaitPidKeepsGood(k: Kernel, c: Pid)
    requires Good(k) && InState(k, k.current, RUNNING) && k.table[k.current].call == NoCall && MayWaitFor(k, c)
    ensures Good(WaitPid(k, c))
    ensures c in k.table ==> (InState(WaitPid(k, c), k.current, BLOCKED) <==> Live(k, c))
    ensures InState(k, c, ZOMBIE) ==> c !in WaitPid(k, c).table
  {
    WaitPidIsSafeExactly(k, c);
    if c in k.table && Announced(k, c) {
      assert AnnouncedOk(k, c);
      AnnouncedZombieIsReaped(k, c);
    }
  }

  /** Except for init, a parent may always wait for its child. */
  lemma ParentMayWait(k: Kernel, c: Pid)
    requires Good(k) && InState(k, k.current, RUNNING) && k.table[k.current].call == NoCall
    requires c in k.table && k.table[c].ppid == k.current && k.current != INIT_PID
    ensures MayWaitFor(k, c)
  {
    assert Ordinary(c);
    if InState(k, c, ZOMBIE) {
      ZombieChildIsAnnounced(k, c);
    } else {
      assert AnnouncedOk(k, c);
    }
  }

  lemma AnnouncedZombieIsReaped(k: Kernel, c: Pid)
    requires Good(k) && InState(k, k.current, RUNNING) && k.table[k.current].call == NoCall
    requires InState(k, c, ZOMBIE) && Announced(k, c) && CanSpare(k, k.table[c].ppid, c)
    ensures Good(WaitPid(k, c)) && c !in WaitPid(k, c).table && InState(WaitPid(k, c), k.current, RUNNING)
  {
    var id, p := Terminated(c), k.table[c].ppid;
    var k1 := SemWait(k, id, InWaitPid(c));
    TakeKeepsReadyQueuesFamily(k, id, k1);
    TakeKeepsCalls(k, id, k1);
    TakeKeepsAccounts(k, id, k1);
    assert Waits(k1, p, ChildTerminated(p)) <==> Waits(k, p, ChildTerminated(p));
    FinishWaitPidKeepsGood(k1, p, c);
  }

  /** Reaping a zombie its parent has already been woken for leaves the parent without it. */
  lemma TakenFromParent(k: Kernel, c: Pid)
    requires Good(k) && InState(k, k.current, RUNNING) && k.table[k.current].call == NoCall
    requires InState(k, c, ZOMBIE) && Announced(k, c) && !CanSpare(k, k.table[c].ppid, c)
    ensures !Good(WaitPid(k, c))
  {
    var p, k1, k' := k.table[c].ppid, SemWait(k, Terminated(c), InWaitPid(c)), WaitPid(k, c);
    ZombieIsListed(k, p, c);
    assert AccountOk(k, p, {});
    FinishWaitPidIsForget(k1, p, c);
    var k2, rest := SemTryWait(k1, ChildTerminated(p)), Remove(k.table[p].terminatedChildren, c);
    RemoveMembers(k.table[p].terminatedChildren, c);
    ForgetIs(k2, p, c, rest);
    ForgetStates(k2, p, c, rest, k');
    assert Live(k', p) && k'.table[p].call == k.table[p].call;
    if k.table[p].call == InWaitPid(c) {
      assert !AwaitsChild(k', p, c);
      assert !CallOk(k', p);
    } else {
      assert Granted(k, p) && Units(k.sems[ChildTerminated(p)]) == 0;
      assert Waits(k', p, ChildTerminated(p)) <==> Waits(k, p, ChildTerminated(p));
      assert !AccountOk(k', p, {});
    }
  }

  /** A caller that blocks must be the parent of a live child. */
  lemma BlocksOnOther(k: Kernel, c: Pid)
    requires Good(k) && InState(k, k.current, RUNNING) && k.table[k.current].call == NoCall
    requires c in k.table && !Announced(k, c) && !MayWaitFor(k, c)
    ensures !Good(WaitPid(k, c))
  {
    var k', p := WaitPid(k, c), k.current;
    BlockIs(k, Terminated(c), InWaitPid(c));
    assert Waits(k', p, Terminated(c)) && Live(k', p) && k'.table[p].call == InWaitPid(c);
    assert InState(k', c, ZOMBIE) <==> InState(k, c, ZOMBIE);
    assert !AwaitsChild(k', p, c);
    assert !CallOk(k', p);
  }

  /** A process that was blocked in a call finds, when dispatched, what it waited for. */
  lemma ResumeKeepsGood(k: Kernel)
    requires Good(k) && InState(k, k.current, RUNNING)
    ensures Good(Resume(k))
    ensures k.table[k.current].call.InWaitPid? ==> InState(k, k.table[k.current].call.child, ZOMBIE)
  {
    var p := k.current;
    match k.table[p].call {
      case NoCall =>
      case InWaitAny =>
        GrantedIsOwed(k, p);
        ReapFirstKeepsGood(ClearCall(k, p), p);
      case InWaitPid(c) =>
        NotWaiting(k, p);
        assert CallOk(k, p) && AwaitsChild(k, p, c);
        assert Waits(k, p, Terminated(c)) ==> Queued(k, p);
        ClearCallKeeps(k, p);
        FinishWaitPidKeepsGood(ClearCall(k, p), p, c);
    }
  }
}

/** Terminating a process keeps the invariant: it is announced to its parent, and its children move to init. */
module KernelTermination {
  import opened Semaphores
  import opened Sequences
  import opened KernelState
  import opened KernelInvariant
  import opened KernelSteps

  // ----- the process becomes a zombie and whoever waits for it is woken

  lemma ZombieKeepsReady(k: Kernel, p: Pid)
    requires ReadyOk(k) && p in k.table && Ordinary(p)
    ensures ReadyOk(MakeZombie(k, p))
  {
    var k' := MakeZombie(k, p);
    RemoveMembers(k.ready, p);
    assert forall q :: InState(k', q, READY) <==> InState(k, q, READY) && q != p;
    assert forall q :: InState(k', q, RUNNING) ==> InState(k, q, RUNNING);
  }

  lemma ZombieKeepsQueues(k: Kernel, p: Pid)
    requires QueuesOk(k) && p in k.table
    ensures QueuesOk(MakeZombie(k, p))
  {
    var k' := MakeZombie(k, p);
    assert forall q, i :: Waits(k', q, i) <==> Waits(k, q, i);
    forall q, id | Waits(k', q, id) && Live(k', q)
      ensures InState(k', q, BLOCKED)
    {
      assert Waits(k, q, id) && Live(k, q);
    }
  }

  lemma ZombieKeepsFamily(k: Kernel, p: Pid)
    requires FamilyOk(k, NONE) && p in k.table && Ordinary(p) && NONE !in k.table
    ensures FamilyOk(MakeZombie(k, p), p)
  {
    var k' := MakeZombie(k, p);
    forall q | q in k'.table
      ensures ChildrenOk(k', q) && k'.table[q].born < k'.clock
      ensures Ordinary(q) ==> ParentOk(k', q, p) && k'.table[INIT_PID].born < k'.table[q].born
    {
      assert q in k.table && ChildrenOk(k, q);
      assert Ordinary(q) ==> ParentOk(k, q, NONE);
    }
  }

  lemma ZombieKeepsAccounts(k: Kernel, p: Pid)
    requires AccountsOk(k, {}) && Live(k, p)
    ensures AccountsOk(MakeZombie(k, p), {p})
  {
    var k' := MakeZombie(k, p);
    forall q | Live(k', q)
      ensures AccountOk(k', q, {p})
    {
      assert Live(k, q) && AccountOk(k, q, {});
      assert Waits(k', q, ChildTerminated(q)) <==> Waits(k, q, ChildTerminated(q));
      assert forall c :: InState(k', c, ZOMBIE) <==> InState(k, c, ZOMBIE) || c == p;
    }
  }

  /** Only the parent of p waits for p; the post on terminated wakes it, so nobody alive is left waiting. */
  lemma AnnouncedKeepsCalls(k: Kernel, p: Pid, k': Kernel, w: Pid)
    requires QueuesOk(k) && CallsOk(k) && Live(k, p) && NOBODY !in k.table
    requires PostEffect(MakeZombie(k, p), Terminated(p), k', w)
    ensures CallsOk(k')
  {
    var z := MakeZombie(k, p);
    assert forall q, i :: Waits(k', q, i) ==> Waits(k, q, i);
    assert forall q, i :: i != Terminated(p) && Waits(k, q, i) ==> Waits(k', q, i);
    WokenIsParent(k, p, k', w);
    forall q | Live(k', q)
      ensures CallOk(k', q)
    {
      assert Live(k, q) && q != p && CallOk(k, q);
      if k.table[q].call.InWaitPid? {
        var c := k.table[q].call.child;
        assert AwaitsChild(k, q, c);
        if c == p {
          assert Waits(k, q, Terminated(p));
          assert InState(z, q, BLOCKED);
        } else {
          assert Waits(k', q, Terminated(c)) <==> Waits(k, q, Terminated(c));
        }
      }
    }
    forall c | c in k'.table
      ensures AnnouncedOk(k', c)
    {
      assert AnnouncedOk(k, c);
      if c != p {
        assert Announced(k', c) <==> Announced(k, c);
        assert AwaitableByParent(k', c) ==> AwaitableByParent(k, c);
      }
    }
  }

  /** The process woken by the termination of p is its parent, blocked in wait_pid. */
  lemma WokenIsParent(k: Kernel, p: Pid, k': Kernel, w: Pid)
    requires QueuesOk(k) && CallsOk(k) && Live(k, p)
    requires PostEffect(MakeZombie(k, p), Terminated(p), k', w)
    ensures w != NOBODY ==> k.table[p].ppid == w && Live(k, w) && k.table[w].call == InWaitPid(p)
  {
    if w != NOBODY {
      assert InState(k, w, BLOCKED) && Waits(k, w, Terminated(p));
      assert CallOk(k, w);
      assert WaitFits(w, k.table[w].call, Terminated(p));
    }
  }

  // ----- announcing a zombie to its parent

  lemma NotifyAccounts(k: Kernel, q: Pid, c: Pid, k1: Kernel, w: Pid)
    requires PostEffect(k, ChildTerminated(q), k1, w) && QueuesOk(k) && CallsOk(k) && AccountsOk(k, {c})
    requires Live(k, q) && InState(k, c, ZOMBIE) && k.table[c].ppid == q
    ensures AccountsOk(AppendTerminated(k1, q, c), {})
  {
    var k' := AppendTerminated(k1, q, c);
    assert forall x :: InState(k', x, ZOMBIE) <==> InState(k, x, ZOMBIE);
    forall p | Live(k', p)
      ensures AccountOk(k', p, {})
    {
      assert Live(k, p) && AccountOk(k, p, {c});
      if p == q {
        NotifiedAccount(k, q, c, k1, w);
      } else {
        assert Waits(k', p, ChildTerminated(p)) <==> Waits(k, p, ChildTerminated(p));
      }
    }
  }

  /** The parent either gets a unit or is woken from wait_any; its list grows by one. */
  lemma NotifiedAccount(k: Kernel, q: Pid, c: Pid, k1: Kernel, w: Pid)
    requires PostEffect(k, ChildTerminated(q), k1, w) && QueuesOk(k) && CallsOk(k) && AccountOkAt(k, q, {c})
    requires Live(k, q) && InState(k, c, ZOMBIE) && k.table[c].ppid == q
    ensures AccountOkAt(AppendTerminated(k1, q, c), q, {})
  {
    var id, k' := ChildTerminated(q), AppendTerminated(k1, q, c);
    var ts := k.table[q].terminatedChildren;
    assert CallOk(k, q);
    assert forall x :: InState(k', x, ZOMBIE) <==> InState(k, x, ZOMBIE);
    assert c !in ts;
    forall x | x in k.sems[id].queue
      ensures x == q && InState(k, q, BLOCKED)
    {
      assert Waits(k, x, id);
      assert Waits(k, q, id);
    }
    if w != NOBODY {
      assert Waits(k, w, id) && w == q;
      assert !Waits(k', q, id);
      assert WaitFits(q, k.table[q].call, id);
    } else {
      NoMembers(k.sems[id].queue);
    }
  }

  lemma NoMembers(s: seq<Pid>)
    ensures s != [] ==> exists x :: x in s
  {
    if s != [] {
      var x := s[0];
      assert x in s;
    }
  }

  ghost predicate AccountOkAt(k: Kernel, p: Pid, unlisted: set<Pid>) {
    p in k.table && AccountOk(k, p, unlisted)
  }

  /** Changing a terminated list is no scheduling, family or call matter. */
  lemma AppendKeepsRest(k: Kernel, q: Pid, c: Pid, dying: Pid)
    requires ReadyOk(k) && QueuesOk(k) && CallsOk(k) && FamilyOk(k, dying)
    ensures var k' := AppendTerminated(k, q, c);
      ReadyOk(k') && QueuesOk(k') && CallsOk(k') && FamilyOk(k', dying)
  {
    FamilyFrame(k, AppendTerminated(k, q, c), dying);
    AppendKeepsCalls(k, q, c);
    AppendKeepsReady(k, q, c);
    AppendKeepsQueues(k, q, c);
  }

  lemma AppendKeepsReady(k: Kernel, q: Pid, c: Pid)
    requires ReadyOk(k)
    ensures ReadyOk(AppendTerminated(k, q, c))
  {
    var k' := AppendTerminated(k, q, c);
    assert forall p, st :: InState(k', p, st) <==> InState(k, p, st);
  }

  lemma AppendKeepsQueues(k: Kernel, q: Pid, c: Pid)
    requires QueuesOk(k)
    ensures QueuesOk(AppendTerminated(k, q, c))
  {
    var k' := AppendTerminated(k, q, c);
    assert forall p, st :: InState(k', p, st) <==> InState(k, p, st);
    assert forall p, i :: Waits(k', p, i) <==> Waits(k, p, i);
    assert forall p :: Live(k', p) <==> Live(k, p);
  }

  lemma AppendKeepsCalls(k: Kernel, q: Pid, c: Pid)
    requires CallsOk(k)
    ensures CallsOk(AppendTerminated(k, q, c))
  {
    var k' := AppendTerminated(k, q, c);
    assert forall p, i :: Waits(k', p, i) <==> Waits(k, p, i);
    forall p | Live(k', p)
      ensures CallOk(k', p)
    {
      assert Live(k, p) && CallOk(k, p);
    }
    forall x | x in k'.table
      ensures AnnouncedOk(k', x)
    {
      assert AnnouncedOk(k, x);
      assert Announced(k', x) <==> Announced(k, x);
      assert AwaitableByParent(k', x) <==> AwaitableByParent(k, x);
    }
  }

  lemma NotifyKeepsInv(k: Kernel, q: Pid, c: Pid, dying: Pid)
    requires Inv(k, dying, {c}) && Live(k, q) && InState(k, c, ZOMBIE) && k.table[c].ppid == q
    requires !InState(k, k.current, BLOCKED)
    ensures Inv(AppendTerminated(SemPost(k, ChildTerminated(q)), q, c), dying, {})
  {
    var id := ChildTerminated(q);
    var w := PostIs(k, id);
    var k1 := SemPost(k, id);
    PostKeepsReady(k, id, k1, w);
    PostKeepsQueues(k, id, k1, w);
    PostKeepsCalls(k, id, k1, w);
    PostKeepsFamily(k, id, k1, w, dying);
    AppendKeepsRest(k1, q, c, dying);
    NotifyAccounts(k, q, c, k1, w);
  }

  /** The process is a zombie, its waiter is woken, and only the listing with the parent is missing. */
  lemma ZombieAnnounced(k: Kernel, p: Pid)
    requires Good(k) && Live(k, p) && Ordinary(p)
    requires !InState(MakeZombie(k, p), k.current, BLOCKED)
    ensures Inv(SemPost(MakeZombie(k, p), Terminated(p)), p, {p})
  {
    var z, id := MakeZombie(k, p), Terminated(p);
    ZombieKeepsReady(k, p);
    ZombieKeepsQueues(k, p);
    ZombieKeepsFamily(k, p);
    ZombieKeepsAccounts(k, p);
    var w := PostIs(z, id);
    var k1 := SemPost(z, id);
    PostKeepsReady(z, id, k1, w);
    PostKeepsQueues(z, id, k1, w);
    AnnouncedKeepsCalls(k, p, k1, w);
    PostKeepsFamily(z, id, k1, w, p);
    PostTerminatedKeepsAccounts(z, id, k1, w, {p});
  }

  lemma ZombieAnnouncedFacts(k: Kernel, p: Pid)
    requires Good(k) && Live(k, p) && Ordinary(p) && InState(k, k.current, RUNNING)
    ensures var k1 := SemPost(MakeZombie(k, p), Terminated(p));
      && InState(k1, p, ZOMBIE) && k1.table[p].ppid == k.table[p].ppid && Live(k1, k.table[p].ppid)
      && k1.current == k.current && !InState(k1, k.current, BLOCKED) && !InState(MakeZombie(k, p), k.current, BLOCKED)
  {
    assert ParentOk(k, p, NONE);
    var z := MakeZombie(k, p);
    ZombieKeepsQueues(k, p);
    var w := PostIs(z, Terminated(p));
  }

  lemma NotifyTerminationKeepsInv(k: Kernel, p: Pid)
    requires Good(k) && Live(k, p) && Ordinary(p) && InState(k, k.current, RUNNING)
    ensures Inv(NotifyTermination(k, p, k.table[p].ppid), p, {})
  {
    ZombieAnnouncedFacts(k, p);
    ZombieAnnounced(k, p);
    NotifyKeepsInv(SemPost(MakeZombie(k, p), Terminated(p)), k.table[p].ppid, p, p);
  }

  lemma PostTerminatedKeepsAccounts(k: Kernel, id: SemId, k': Kernel, w: Pid, unlisted: set<Pid>)
    requires PostEffect(k, id, k', w) && AccountsOk(k, unlisted) && id.Terminated?
    ensures AccountsOk(k', unlisted)
  {
    forall p | Live(k', p)
      ensures AccountOk(k', p, unlisted)
    {
      assert AccountOk(k, p, unlisted);
      assert Waits(k', p, ChildTerminated(p)) <==> Waits(k, p, ChildTerminated(p));
      assert forall c :: InState(k', c, ZOMBIE) <==> InState(k, c, ZOMBIE);
    }
  }

  // ----- orphans

  /** The first child of the dying process p has been hung under init. */
  ghost predicate MoveEffect(k: Kernel, p: Pid, c: Pid, k': Kernel) {
    && p in k.table && c in k.table && INIT_PID in k.table && p != INIT_PID && c != INIT_PID && c != p
    && k.table[p].children != [] && k.table[p].children[0] == c
    && k'.table == k.table[p := k.table[p].(children := k.table[p].children[1..])]
                          [INIT_PID := k.table[INIT_PID].(children := k.table[INIT_PID].children + [c])]
                          [c := k.table[c].(ppid := INIT_PID)]
    && k'.ready == k.ready && k'.current == k.current && k'.sems == k.sems && k'.clock == k.clock
  }

  lemma MoveIs(k: Kernel, p: Pid)
    requires FamilyOk(k, p) && InState(k, p, ZOMBIE) && Ordinary(p) && k.table[p].children != []
    ensures MoveEffect(k, p, k.table[p].children[0], MoveFirstChild(k, p))
    ensures Ordinary(k.table[p].children[0]) && k.table[k.table[p].children[0]].ppid == p
  {
    var c := k.table[p].children[0];
    assert c in k.table[p].children && ChildrenOk(k, p);
    assert ParentOk(k, c, p);
  }

  lemma MoveKeepsReadyQueues(k: Kernel, p: Pid, c: Pid, k': Kernel)
    requires MoveEffect(k, p, c, k') && ReadyOk(k) && QueuesOk(k)
    ensures ReadyOk(k') && QueuesOk(k')
  {
    assert forall q, st :: InState(k', q, st) <==> InState(k, q, st);
    assert forall q :: Live(k', q) <==> Live(k, q);
    assert forall q, i :: Waits(k', q, i) <==> Waits(k, q, i);
  }

  lemma MoveKeepsCalls(k: Kernel, p: Pid, c: Pid, k': Kernel)
    requires MoveEffect(k, p, c, k') && CallsOk(k) && InState(k, p, ZOMBIE) && k.table[c].ppid == p
    ensures CallsOk(k')
  {
    assert forall q, i :: Waits(k', q, i) <==> Waits(k, q, i);
    forall q | Live(k', q)
      ensures CallOk(k', q)
    {
      assert Live(k, q) && CallOk(k, q);
    }
    forall x | x in k'.table
      ensures AnnouncedOk(k', x)
    {
      assert AnnouncedOk(k, x);
      assert Announced(k', x) <==> Announced(k, x);
      assert AwaitableByParent(k', x) ==> AwaitableByParent(k, x);
    }
  }

  lemma MoveKeepsFamily(k: Kernel, p: Pid, c: Pid, k': Kernel)
    requires MoveEffect(k, p, c, k') && FamilyOk(k, p) && Ordinary(p) && Ordinary(c) && k.table[c].ppid == p
        && Live(k, INIT_PID)
    ensures FamilyOk(k', p)
  {
    assert ChildrenOk(k, p) && ChildrenOk(k, INIT_PID) && ParentOk(k, c, p);
    assert k.table[p].children == [c] + k.table[p].children[1..];
    forall q | q in k'.table
      ensures ChildrenOk(k', q) && k'.table[q].born < k'.clock
    {
      assert q in k.table && ChildrenOk(k, q);
      MovedChildren(k, p, c, k', q);
    }
    forall q | q in k'.table && Ordinary(q)
      ensures ParentOk(k', q, p) && k'.table[INIT_PID].born < k'.table[q].born
    {
      assert q in k.table && ParentOk(k, q, p);
    }
  }

  lemma MovedChildren(k: Kernel, p: Pid, c: Pid, k': Kernel, q: Pid)
    requires MoveEffect(k, p, c, k') && q in k.table && ChildrenOk(k, q) && Ordinary(c) && k.table[c].ppid == p
    ensures ChildrenOk(k', q)
  {
    assert k.table[p].children == [c] + k.table[p].children[1..];
    if q != p && q != INIT_PID {
      assert k'.table[q].children == k.table[q].children;
    }
  }

  lemma MoveKeepsAccounts(k: Kernel, p: Pid, c: Pid, k': Kernel)
    requires MoveEffect(k, p, c, k') && AccountsOk(k, {}) && InState(k, p, ZOMBIE) && k.table[c].ppid == p
    ensures AccountsOk(k', if InState(k, c, ZOMBIE) then {c} else {})
  {
    var u: set<Pid> := if InState(k, c, ZOMBIE) then {c} else {};
    forall q | Live(k', q)
      ensures AccountOk(k', q, u)
    {
      assert Live(k, q) && AccountOk(k, q, {});
      assert Waits(k', q, ChildTerminated(q)) <==> Waits(k, q, ChildTerminated(q));
      assert forall x :: InState(k', x, ZOMBIE) <==> InState(k, x, ZOMBIE);
    }
  }

  /** Listing before posting or after is the same. */
  lemma AnnounceInEitherOrder(k: Kernel, q: Pid, c: Pid)
    requires q in k.table && NOBODY !in k.table
    ensures Announce(k, q, c) == AppendTerminated(SemPost(k, ChildTerminated(q)), q, c)
  {
    var id, a := ChildTerminated(q), AppendTerminated(k, q, c);
    assert Blocked(a) == Blocked(k);
    if id in k.sems {
      var w := Post(k.sems[id], Blocked(k)).woken;
      assert InState(a, w, BLOCKED) <==> InState(k, w, BLOCKED);
      assert Announce(k, q, c).table == AppendTerminated(SemPost(k, id), q, c).table;
    }
  }

  lemma TransferFirstKeepsInv(k: Kernel, p: Pid)
    requires Inv(k, p, {}) && InState(k, p, ZOMBIE) && Ordinary(p) && k.table[p].children != []
    requires !InState(k, k.current, BLOCKED)
    ensures Inv(TransferFirst(k, p), p, {})
  {
    var c, k1 := k.table[p].children[0], MoveFirstChild(k, p);
    MoveIs(k, p);
    MoveKeepsReadyQueues(k, p, c, k1);
    MoveKeepsCalls(k, p, c, k1);
    MoveKeepsFamily(k, p, c, k1);
    MoveKeepsAccounts(k, p, c, k1);
    assert !InState(k1, k1.current, BLOCKED);
    if InState(k1, c, ZOMBIE) {
      NotifyKeepsInv(k1, INIT_PID, c, p);
      AnnounceInEitherOrder(k1, INIT_PID, c);
    }
  }

  /** What is not about families: states of the current and the dying process, and one orphan less. */
  lemma TransferFirstFacts(k: Kernel, p: Pid)
    requires ReadyOk(k) && QueuesOk(k) && FamilyOk(k, p)
    requires InState(k, p, ZOMBIE) && Ordinary(p) && k.table[p].children != []
    requires !InState(k, k.current, BLOCKED)
    ensures var k' := TransferFirst(k, p);
      && InState(k', p, ZOMBIE) && !InState(k', k'.current, BLOCKED)
      && k'.table[p].children == k.table[p].children[1..]
  {
    var c, k1 := k.table[p].children[0], MoveFirstChild(k, p);
    MoveIs(k, p);
    MoveKeepsReadyQueues(k, p, c, k1);
    if InState(k1, c, ZOMBIE) {
      AnnounceInEitherOrder(k1, INIT_PID, c);
      PostLeavesAlone(k1, ChildTerminated(INIT_PID), p);
    }
  }

  /** A post changes no zombie and does not block anybody. */
  lemma PostLeavesAlone(k: Kernel, id: SemId, p: Pid)
    requires QueuesOk(k) && id in k.sems && NOBODY !in k.table && InState(k, p, ZOMBIE)
        && !InState(k, k.current, BLOCKED)
    ensures var k' := SemPost(k, id);
      InState(k', p, ZOMBIE) && !InState(k', k'.current, BLOCKED) && k'.table[p] == k.table[p]
  {
    var w := PostIs(k, id);
  }

  lemma {:induction false} TransferTimesKeepsInv(k: Kernel, p: Pid, n: nat)
    requires Inv(k, p, {}) && InState(k, p, ZOMBIE) && Ordinary(p) && n == |k.table[p].children|
    requires !InState(k, k.current, BLOCKED)
    ensures var k' := TransferTimes(k, p, n);
      Inv(k', p, {}) && InState(k', p, ZOMBIE) && k'.table[p].children == []
    decreases n
  {
    if n > 0 {
      TransferFirstKeepsInv(k, p);
      TransferFirstFacts(k, p);
      TransferTimesKeepsInv(TransferFirst(k, p), p, n - 1);
    }
  }

  lemma TransferUnfolds(k: Kernel, p: Pid)
    requires Inv(k, p, {}) && InState(k, p, ZOMBIE) && Ordinary(p) && k.table[p].children != []
    requires !InState(k, k.current, BLOCKED)
    ensures TransferOrphans(k, p) == TransferOrphans(TransferFirst(k, p), p)
  {
    TransferFirstFacts(k, p);
  }

  /** Once it has no children left, the dead process is an ordinary zombie. */
  lemma DeathIsOver(k: Kernel, p: Pid)
    requires FamilyOk(k, p) && p in k.table && k.table[p].children == []
    ensures FamilyOk(k, NONE)
  {
    forall q | q in k.table && Ordinary(q)
      ensures ParentOk(k, q, NONE)
    {
      assert ParentOk(k, q, p);
    }
  }

  lemma NotifyTerminationFacts(k: Kernel, p: Pid)
    requires Good(k) && Live(k, p) && Ordinary(p) && InState(k, k.current, RUNNING)
    ensures var k' := NotifyTermination(k, p, k.table[p].ppid);
      InState(k', p, ZOMBIE) && !InState(k', k'.current, BLOCKED)
  {
    ZombieAnnouncedFacts(k, p);
    ZombieAnnounced(k, p);
    var k1 := SemPost(MakeZombie(k, p), Terminated(p));
    PostLeavesAlone(k1, ChildTerminated(k.table[p].ppid), p);
  }

  /** Killing a live process keeps the invariant. */
  lemma TerminateKeepsGood(k: Kernel, p: Pid)
    requires Good(k) && InState(k, k.current, RUNNING) && !InState(k, p, ZOMBIE)
    ensures Good(Terminate(k, p))
  {
    if Killable(k, p) {
      var k1 := NotifyTermination(k, p, k.table[p].ppid);
      NotifyTerminationKeepsInv(k, p);
      NotifyTerminationFacts(k, p);
      TransferTimesKeepsInv(k1, p, |k1.table[p].children|);
      DeathIsOver(Terminate(k, p), p);
    }
  }

  lemma ZombieIsChildless(k: Kernel, p: Pid)
    requires Good(k) && InState(k, p, ZOMBIE)
    ensures Ordinary(p) && k.table[p].children == []
  {
    assert ChildrenOk(k, p);
    NoMembers(k.table[p].children);
  }

  /** A post leaves lists, parents and zombies alone. */
  lemma PostLeavesLists(k: Kernel, id: SemId)
    requires QueuesOk(k) && NOBODY !in k.table && id in k.sems
    ensures var k' := SemPost(k, id);
      && QueuesOk(k') && k'.table.Keys == k.table.Keys && k'.sems.Keys == k.sems.Keys
      && (forall q :: q in k.table ==>
            && k'.table[q].terminatedChildren == k.table[q].terminatedChildren
            && k'.table[q].children == k.table[q].children
                && (k'.table[q].state == ZOMBIE <==> k.table[q].state == ZOMBIE))
  {
    var w := PostIs(k, id);
    PostKeepsQueues(k, id, SemPost(k, id), w);
  }

  lemma KilledZombieIsListed(k: Kernel, p: Pid)
    requires Good(k) && InState(k, p, ZOMBIE)
    ensures Killable(k, p) && Live(k, k.table[p].ppid)
    ensures var q, k' := k.table[p].ppid, Terminate(k, p);
      Live(k', q) && k'.table[q].terminatedChildren == k.table[q].terminatedChildren + [p]
  {
    ZombieIsChildless(k, p);
    assert ParentOk(k, p, NONE);
    var z := MakeZombie(k, p);
    ZombieKeepsQueues(k, p);
    PostLeavesLists(z, Terminated(p));
    PostLeavesLists(SemPost(z, Terminated(p)), ChildTerminated(k.table[p].ppid));
  }

  /** A zombie killed again has no children to move, and nobody changes state. */
  lemma KilledZombieFacts(k: Kernel, p: Pid)
    requires Good(k) && InState(k, p, ZOMBIE) && InState(k, k.current, RUNNING)
    ensures Killable(k, p) && NOBODY !in k.table
    ensures var k' := NotifyTermination(k, p, k.table[p].ppid);
      InState(k', p, ZOMBIE) && !InState(k', k'.current, BLOCKED) && k'.table[p].children == []
  {
    var q, z := k.table[p].ppid, MakeZombie(k, p);
    KilledZombieIsListed(k, p);
    ZombieIsChildless(k, p);
    assert ParentOk(k, p, NONE);
    ZombieKeepsQueues(k, p);
    PostLeavesAlone(z, Terminated(p), p);
    PostLeavesLists(z, Terminated(p));
    PostLeavesAlone(SemPost(z, Terminated(p)), ChildTerminated(q), p);
  }

  /** Killing keeps the invariant exactly when the victim is not a zombie yet; the code does not check this,
      and a zombie killed again is listed twice with its parent. */
  lemma KillIsSafeExactlyOnNonZombies(k: Kernel, p: Pid)
    requires Good(k) && InState(k, k.current, RUNNING)
    ensures Good(Terminate(k, p)) <==> !InState(k, p, ZOMBIE)
  {
    if !InState(k, p, ZOMBIE) {
      TerminateKeepsGood(k, p);
    } else {
      KilledZombieIsListed(k, p);
      var q, k' := k.table[p].ppid, Terminate(k, p);
      var ts := k.table[q].terminatedChildren;
      assert AccountOk(k, q, {});
      assert p in ts;
      var i :| 0 <= i < |ts| && ts[i] == p;
      assert (ts + [p])[i] == (ts + [p])[|ts|];
      assert !NoRepeats(k'.table[q].terminatedChildren);
      assert !AccountOk(k', q, {});
    }
  }
}

/** What every kernel operation does to each process, queue and semaphore, beside keeping the invariant. */
module KernelEffects {
  import opened Semaphores
  import opened Sequences
  import opened KernelState
  import opened KernelInvariant
  import opened KernelSteps
  import opened KernelTermination

  /** The processes are the same, and nobody but the given ones is different. */
  ghost predicate OnlyChanges(k: Kernel, k': Kernel, ps: set<Pid>) {
    && k'.table.Keys == k.table.Keys
    && forall x :: x in k.table && x !in ps ==> k'.table[x] == k.table[x]
  }

  ghost predicate OnlyChangesSems(k: Kernel, k': Kernel, ids: set<SemId>) {
    && k'.sems.Keys == k.sems.Keys
    && forall id :: id in k.sems && id !in ids ==> k'.sems[id] == k.sems[id]
  }

  /** The process is blocked in the queue of the semaphore. */
  predicate Sleeps(k: Kernel, p: Pid, id: SemId) {
    InState(k, p, BLOCKED) && Waits(k, p, id)
  }

  // ----- a post on a semaphore on which only one process can sleep

  /** The process is made ready if it slept there, and otherwise there is one unit more. */
  ghost predicate PostedTo(k: Kernel, k': Kernel, id: SemId, q: Pid) {
    && id in k.sems && OnlyChangesSems(k, k', {id}) && k'.current == k.current && k'.clock == k.clock
    && (forall x, i :: Waits(k', x, i) ==> Waits(k, x, i))
    && if Sleeps(k, q, id) then
         && k'.table == k.table[q := k.table[q].(state := READY)] && k'.ready == k.ready + [q]
         && Units(k.sems[id]) == 0 && Units(k'.sems[id]) == 0
       else
         && k'.table == k.table && k'.ready == k.ready && Units(k'.sems[id]) == Units(k.sems[id]) + 1
  }

  lemma PostGoesTo(k: Kernel, id: SemId, q: Pid)
    requires QueuesOk(k) && id in k.sems && NOBODY !in k.table && forall x :: Sleeps(k, x, id) ==> x == q
    ensures PostedTo(k, SemPost(k, id), id, q) && QueuesOk(SemPost(k, id))
  {
    var k' := SemPost(k, id);
    var w := PostIs(k, id);
    PostKeepsQueues(k, id, k', w);
    assert w != NOBODY ==> Sleeps(k, w, id);
    assert Sleeps(k, q, id) ==> w == q;
  }

  // ----- termination: the notification

  predicate WokenByChild(k: Kernel, p: Pid)
    requires p in k.table
  {
    Sleeps(k, k.table[p].ppid, Terminated(p)) || Sleeps(k, k.table[p].ppid, ChildTerminated(k.table[p].ppid))
  }

  ghost predicate NotifyEffect(k: Kernel, p: Pid, k': Kernel)
    requires p in k.table && k.table[p].ppid in k.table
    requires Terminated(p) in k.sems && ChildTerminated(k.table[p].ppid) in k.sems
  {
    var q := k.table[p].ppid;
    var a, b := Terminated(p), ChildTerminated(q);
    && OnlyChanges(k, k', {p, q}) && OnlyChangesSems(k, k', {a, b})
    && k'.current == k.current && k'.clock == k.clock
    && k'.table[p] == k.table[p].(state := ZOMBIE)
    && k'.table[q] == k.table[q].(state := if WokenByChild(k, p) then READY else k.table[q].state,
                                  terminatedChildren := k.table[q].terminatedChildren + [p])
    && k'.ready == Remove(k.ready, p) + (if WokenByChild(k, p) then [q] else [])
    && Units(k'.sems[a]) + (if Sleeps(k, q, a) then 1 else 0) == Units(k.sems[a]) + 1
    && Units(k'.sems[b]) + (if Sleeps(k, q, b) then 1 else 0) == Units(k.sems[b]) + 1
    && (forall x, id :: Waits(k', x, id) ==> Waits(k, x, id))
  }

  /** Whoever sleeps until p terminates is its parent. */
  lemma SleeperIsParent(k: Kernel, p: Pid, x: Pid)
    requires CallsOk(k) && Live(k, p) && Sleeps(k, x, Terminated(p))
    ensures x == k.table[p].ppid
  {
    assert Live(k, x) && CallOk(k, x);
    assert WaitFits(x, k.table[x].call, Terminated(p));
  }

  /** Only the parent q of the live process p sleeps on the two semaphores that p's termination posts. */
  ghost predicate OnlyParentSleeps(k: Kernel, p: Pid, q: Pid) {
    && QueuesOk(k) && NOBODY !in k.table && p in k.table && q in k.table && p != q && k.table[p].ppid == q
    && (forall x :: Sleeps(k, x, Terminated(p)) ==> x == q)
    && (forall x :: Sleeps(k, x, ChildTerminated(q)) ==> x == q)
  }

  lemma ParentSleeps(k: Kernel, p: Pid)
    requires Good(k) && Live(k, p) && Ordinary(p)
    ensures OnlyParentSleeps(k, p, k.table[p].ppid) && Live(k, k.table[p].ppid)
  {
    assert ParentOk(k, p, NONE);
    assert CallOk(k, k.table[p].ppid);
    forall x | Sleeps(k, x, Terminated(p))
      ensures x == k.table[p].ppid
    {
      SleeperIsParent(k, p, x);
    }
  }

  /** The two posts of a termination, on a state in which p is a zombie already. */
  lemma NotifyPosts(k: Kernel, p: Pid, q: Pid) returns (k1: Kernel, k2: Kernel)
    requires OnlyParentSleeps(k, p, q)
    ensures k1 == SemPost(MakeZombie(k, p), Terminated(p)) && k2 == SemPost(k1, ChildTerminated(q)) && QueuesOk(k2)
    ensures PostedTo(MakeZombie(k, p), k1, Terminated(p), q) && PostedTo(k1, k2, ChildTerminated(q), q)
    ensures Sleeps(MakeZombie(k, p), q, Terminated(p)) <==> Sleeps(k, q, Terminated(p))
    ensures Sleeps(k1, q, ChildTerminated(q)) <==> Sleeps(k, q, ChildTerminated(q))
    ensures !(Sleeps(k, q, Terminated(p)) && Sleeps(k, q, ChildTerminated(q)))
  {
    var z := MakeZombie(k, p);
    ZombieKeepsQueues(k, p);
    assert forall x, id :: Sleeps(z, x, id) <==> Sleeps(k, x, id) && x != p;
    PostGoesTo(z, Terminated(p), q);
    k1 := SemPost(z, Terminated(p));
    assert forall x :: Sleeps(k1, x, ChildTerminated(q)) ==> Sleeps(z, x, ChildTerminated(q));
    SleepsOnce(k, q, Terminated(p), ChildTerminated(q));
    assert Waits(k1, q, ChildTerminated(q)) <==> Waits(k, q, ChildTerminated(q));
    PostGoesTo(k1, ChildTerminated(q), q);
    k2 := SemPost(k1, ChildTerminated(q));
  }

  lemma NotifyHasEffect(k: Kernel, p: Pid)
    requires p in k.table && OnlyParentSleeps(k, p, k.table[p].ppid)
    ensures NotifyEffect(k, p, NotifyTermination(k, p, k.table[p].ppid))
    ensures QueuesOk(NotifyTermination(k, p, k.table[p].ppid))
  {
    var q, k' := k.table[p].ppid, NotifyTermination(k, p, k.table[p].ppid);
    var k1, k2 := NotifyPosts(k, p, q);
    AppendKeepsQueues(k2, q, p);
    assert k'.sems == k2.sems && k'.ready == k2.ready;
    assert forall x, id :: Waits(k', x, id) <==> Waits(k2, x, id);
    assert forall x, id :: Waits(k, x, id) <==> Waits(MakeZombie(k, p), x, id);
  }

  lemma SleepsOnce(k: Kernel, x: Pid, id: SemId, id': SemId)
    requires QueuesOk(k) && id != id'
    ensures !(Sleeps(k, x, id) && Sleeps(k, x, id'))
  {
  }

  // ----- termination: the orphans

  /** The zombies among the processes, in order. */
  function Dead(k: Kernel, cs: seq<Pid>): seq<Pid> {
    if cs == [] then [] else (if InState(k, cs[0], ZOMBIE) then [cs[0]] else []) + Dead(k, cs[1..])
  }

  lemma {:induction false} DeadFrame(k: Kernel, k': Kernel, cs: seq<Pid>)
    requires forall c :: c in cs ==> (InState(k', c, ZOMBIE) <==> InState(k, c, ZOMBIE))
    ensures Dead(k', cs) == Dead(k, cs)
  {
    if cs != [] {
      assert cs[0] in cs;
      DeadFrame(k, k', cs[1..]);
    }
  }

  /** What holds while the children of the zombie p move to init. */
  ghost predicate Orphaning(k: Kernel, p: Pid) {
    && QueuesOk(k) && FamilyOk(k, p) && NOBODY !in k.table && InState(k, p, ZOMBIE) && Ordinary(p) && Live(k, INIT_PID)
    && (forall x :: Sleeps(k, x, ChildTerminated(INIT_PID)) ==> x == INIT_PID)
  }

  /** Init is woken when one of the children is dead and it sleeps for that. */
  predicate WokenByOrphans(k: Kernel, dead: seq<Pid>) {
    dead != [] && Sleeps(k, INIT_PID, ChildTerminated(INIT_PID))
  }

  /** The children cs of p have moved to init, the dead ones among them to its terminated list. */
  ghost predicate MovesChildren(k: Kernel, p: Pid, cs: seq<Pid>, dead: seq<Pid>, k': Kernel)
    requires p in k.table && INIT_PID in k.table && |cs| <= |k.table[p].children|
  {
    var init := k.table[INIT_PID];
    && k'.table.Keys == k.table.Keys && k'.current == k.current && k'.clock == k.clock
    && k'.table[p] == k.table[p].(children := k.table[p].children[|cs|..])
    && k'.table[INIT_PID] == init.(children := init.children + cs, terminatedChildren := init.terminatedChildren + dead,
                                   state := if WokenByOrphans(k, dead) then READY else init.state)
    && (forall x :: x in k.table && x != p && x != INIT_PID ==>
          k'.table[x] == if x in cs then k.table[x].(ppid := INIT_PID) else k.table[x])
  }

  /** Init has a unit for each dead child, one of which wakes it if it slept for them. */
  ghost predicate AnnouncesOrphans(k: Kernel, dead: seq<Pid>, k': Kernel) {
    var id, wakes := ChildTerminated(INIT_PID), WokenByOrphans(k, dead);
    && id in k.sems && OnlyChangesSems(k, k', {id})
    && k'.ready == k.ready + (if wakes then [INIT_PID] else [])
    && Units(k'.sems[id]) + (if wakes then 1 else 0) == Units(k.sems[id]) + |dead|
    && (Sleeps(k', INIT_PID, id) <==> Sleeps(k, INIT_PID, id) && dead == [])
  }

  lemma MoveKeepsQueues(k: Kernel, p: Pid, c: Pid, k': Kernel)
    requires MoveEffect(k, p, c, k') && QueuesOk(k)
    ensures QueuesOk(k') && forall x, id :: Sleeps(k', x, id) <==> Sleeps(k, x, id)
  {
    assert forall q, st :: InState(k', q, st) <==> InState(k, q, st);
    assert forall q :: Live(k', q) <==> Live(k, q);
    assert forall q, i :: Waits(k', q, i) <==> Waits(k, q, i);
  }

  lemma TransferOneIs(k: Kernel, p: Pid)
    requires Orphaning(k, p) && k.table[p].children != []
    ensures var c, k' := k.table[p].children[0], TransferFirst(k, p);
      && Orphaning(k', p)
      && MovesChildren(k, p, [c], Dead(k, [c]), k') && AnnouncesOrphans(k, Dead(k, [c]), k')
  {
    var c, k1 := k.table[p].children[0], MoveFirstChild(k, p);
    MoveIs(k, p);
    MoveKeepsQueues(k, p, c, k1);
    MoveKeepsFamily(k, p, c, k1);
    OneDead(k, c);
    if InState(k1, c, ZOMBIE) {
      AnnounceIs(k1, p, c);
      AnnouncedMove(k, p, c, k1, Announce(k1, INIT_PID, c));
    }
  }

  /** Announcing a zombie child at init. */
  ghost predicate AnnounceEffect(k: Kernel, c: Pid, k': Kernel) {
    && INIT_PID in k.table && AnnouncesOrphans(k, [c], k')
    && OnlyChanges(k, k', {INIT_PID}) && k'.current == k.current && k'.clock == k.clock
    && var init := k.table[INIT_PID];
       k'.table[INIT_PID] == init.(terminatedChildren := init.terminatedChildren + [c],
                                   state := if WokenByOrphans(k, [c]) then READY else init.state)
  }

  lemma AnnounceIs(k: Kernel, p: Pid, c: Pid)
    requires Orphaning(k, p) && ChildTerminated(INIT_PID) in k.sems
    ensures Orphaning(Announce(k, INIT_PID, c), p) && AnnounceEffect(k, c, Announce(k, INIT_PID, c))
  {
    var k' := AnnouncedAtInit(k, c);
    AnnounceKeepsFamily(k, p, c, k');
  }

  lemma AnnounceKeepsFamily(k: Kernel, p: Pid, c: Pid, k': Kernel)
    requires FamilyOk(k, p) && AnnounceEffect(k, c, k') && Live(k, INIT_PID) && InState(k, p, ZOMBIE) && Ordinary(p)
    ensures FamilyOk(k', p) && Live(k', INIT_PID) && InState(k', p, ZOMBIE)
  {
    AnnounceSameFamilies(k, c, k');
    FamilyFrame(k, k', p);
  }

  lemma AnnounceSameFamilies(k: Kernel, c: Pid, k': Kernel)
    requires AnnounceEffect(k, c, k')
    ensures SameFamilies(k, k')
  {
  }

  lemma AnnouncedAtInit(k: Kernel, c: Pid) returns (k': Kernel)
    requires QueuesOk(k) && NOBODY !in k.table && INIT_PID in k.table && ChildTerminated(INIT_PID) in k.sems
    requires forall x :: Sleeps(k, x, ChildTerminated(INIT_PID)) ==> x == INIT_PID
    ensures k' == Announce(k, INIT_PID, c) && QueuesOk(k') && AnnounceEffect(k, c, k')
    ensures forall x, i :: Sleeps(k', x, i) ==> Sleeps(k, x, i)
  {
    var id := ChildTerminated(INIT_PID);
    PostGoesTo(k, id, INIT_PID);
    AnnounceInEitherOrder(k, INIT_PID, c);
    k' := Announce(k, INIT_PID, c);
    AppendKeepsQueues(SemPost(k, id), INIT_PID, c);
    assert forall x, i :: Waits(k', x, i) <==> Waits(SemPost(k, id), x, i);
    assert WokenByOrphans(k, [c]) <==> Sleeps(k, INIT_PID, id);
  }

  lemma AnnouncedMove(k: Kernel, p: Pid, c: Pid, k1: Kernel, k': Kernel)
    requires MoveEffect(k, p, c, k1) && Dead(k, [c]) == [c] && AnnounceEffect(k1, c, k')
    requires Sleeps(k1, INIT_PID, ChildTerminated(INIT_PID)) <==> Sleeps(k, INIT_PID, ChildTerminated(INIT_PID))
    ensures MovesChildren(k, p, [c], [c], k') && AnnouncesOrphans(k, [c], k')
  {
  }

  lemma OneDead(k: Kernel, c: Pid)
    ensures Dead(k, [c]) == if InState(k, c, ZOMBIE) then [c] else []
  {
    assert [c][1..] == [];
  }

  /** The next child, and what the rest of p's list is then. */
  lemma NextTransfer(k: Kernel, p: Pid) returns (k1: Kernel, c: Pid)
    requires Orphaning(k, p) && k.table[p].children != []
    ensures k1 == TransferFirst(k, p) && Orphaning(k1, p)
    ensures k.table[p].children == [c] + k1.table[p].children && c != p && c != INIT_PID
    ensures NoRepeats(k.table[p].children) && p !in k.table[p].children && INIT_PID !in k.table[p].children
    ensures MovesChildren(k, p, [c], Dead(k, [c]), k1) && AnnouncesOrphans(k, Dead(k, [c]), k1)
    ensures Dead(k1, k1.table[p].children) == Dead(k, k1.table[p].children)
  {
    c, k1 := k.table[p].children[0], TransferFirst(k, p);
    TransferOneIs(k, p);
    NotOwnChild(k, p);
    OtherChildren(k, p, c, k1);
  }

  lemma NotOwnChild(k: Kernel, p: Pid)
    requires FamilyOk(k, p) && p in k.table && Ordinary(p)
    ensures ChildrenOk(k, p) && p !in k.table[p].children && INIT_PID !in k.table[p].children
  {
    assert ParentOk(k, p, p);
  }

  lemma OtherChildren(k: Kernel, p: Pid, c: Pid, k1: Kernel)
    requires p in k.table && INIT_PID in k.table && p != INIT_PID && ChildrenOk(k, p) && p !in k.table[p].children
    requires k.table[p].children != [] && k.table[p].children[0] == c && MovesChildren(k, p, [c], Dead(k, [c]), k1)
    ensures k.table[p].children == [c] + k1.table[p].children
    ensures Dead(k1, k1.table[p].children) == Dead(k, k1.table[p].children)
  {
    var rest := k1.table[p].children;
    assert k.table[p].children == [c] + rest;
    assert forall x :: x in rest ==> x in k.table[p].children;
    DeadFrame(k, k1, rest);
  }

  /** The dead ones are announced ... */
  lemma {:induction false} TransferAnnounces(k: Kernel, p: Pid, n: nat) returns (k': Kernel)
    requires Orphaning(k, p) && n == |k.table[p].children|
    ensures k' == TransferTimes(k, p, n) && AnnouncesOrphans(k, Dead(k, k.table[p].children), k')
    decreases n
  {
    if n == 0 {
      k' := k;
      assert k.ready + [] == k.ready;
    } else {
      var k1, c := NextTransfer(k, p);
      k' := TransferAnnounces(k1, p, n - 1);
      DeadCons(k, c, k1.table[p].children);
      AnnouncesCompose(k, Dead(k, [c]), k1, Dead(k, k1.table[p].children), k');
    }
  }

  lemma DeadCons(k: Kernel, c: Pid, cs: seq<Pid>)
    ensures Dead(k, [c] + cs) == Dead(k, [c]) + Dead(k, cs)
  {
    assert ([c] + cs)[1..] == cs && [c][1..] == [];
  }

  lemma AnnouncesCompose(k: Kernel, d1: seq<Pid>, k1: Kernel, d2: seq<Pid>, k': Kernel)
    requires AnnouncesOrphans(k, d1, k1) && AnnouncesOrphans(k1, d2, k')
    ensures AnnouncesOrphans(k, d1 + d2, k')
  {
    assert d1 + d2 == [] <==> d1 == [] && d2 == [];
  }

  /** ... and all of them hang under init. */
  lemma {:induction false} TransferMoves(k: Kernel, p: Pid, n: nat) returns (k': Kernel)
    requires Orphaning(k, p) && n == |k.table[p].children|
    ensures k' == TransferTimes(k, p, n)
    ensures MovesChildren(k, p, k.table[p].children, Dead(k, k.table[p].children), k')
    decreases n
  {
    if n == 0 {
      k' := k;
      assert k.table[p].children == [];
    } else {
      var k1, c := NextTransfer(k, p);
      k' := TransferMoves(k1, p, n - 1);
      DeadCons(k, c, k1.table[p].children);
      MovesCompose(k, p, c, k1.table[p].children, Dead(k, [c]), Dead(k, k1.table[p].children), k1, k');
    }
  }

  lemma MovesCompose(k: Kernel, p: Pid, c: Pid, rest: seq<Pid>, d1: seq<Pid>, d2: seq<Pid>, k1: Kernel, k': Kernel)
    requires p in k.table && INIT_PID in k.table && p != INIT_PID && k.table[p].children == [c] + rest
    requires c != p && c != INIT_PID && p !in rest && INIT_PID !in rest && c !in rest
    requires MovesChildren(k, p, [c], d1, k1) && AnnouncesOrphans(k, d1, k1)
    requires MovesChildren(k1, p, rest, d2, k')
    ensures MovesChildren(k, p, [c] + rest, d1 + d2, k')
  {
    assert rest[|rest|..] == ([c] + rest)[|rest| + 1..];
    assert d1 + d2 == [] <==> d1 == [] && d2 == [];
  }

  // ----- termination as a whole

  /** Who is made ready by the termination of p: its parent, if it sleeps until p or some child terminates, and init, if
      it sleeps for a terminated child and inherits one. */
  predicate WokenByDeath(k: Kernel, p: Pid, x: Pid)
    requires p in k.table
  {
    || (x == k.table[p].ppid && WokenByChild(k, p))
    || (x == INIT_PID && WokenByOrphans(k, Dead(k, k.table[p].children)))
  }

  /** How often a termination announces a terminated child to x. */
  function Announcements(k: Kernel, p: Pid, x: Pid): nat
    requires p in k.table
  {
    (if x == k.table[p].ppid then 1 else 0) + (if x == INIT_PID then |Dead(k, k.table[p].children)| else 0)
  }

  /** The parent of p, or init, afterwards: p and the inherited zombies are on its terminated list, in this order. */
  function Bereaved(k: Kernel, p: Pid, x: Pid): Pcb
    requires p in k.table && x in k.table
  {
    var pcb, cs := k.table[x], k.table[p].children;
    pcb.(state := if WokenByDeath(k, p, x) then READY else pcb.state,
         children := pcb.children + (if x == INIT_PID then cs else []),
         terminatedChildren := pcb.terminatedChildren + (if x == k.table[p].ppid then [p] else [])
                               + (if x == INIT_PID then Dead(k, cs) else []))
  }

  /** The processes after the termination of p: it is a zombie without children, which are init's now, and besides only
      its parent and init have changed. */
  ghost predicate DiesInTable(k: Kernel, p: Pid, k': Kernel) {
    && p in k.table && k.table[p].ppid in k.table && INIT_PID in k.table
    && var q, cs := k.table[p].ppid, k.table[p].children;
       && k'.table.Keys == k.table.Keys && k'.current == k.current && k'.clock == k.clock
       && k'.table[p] == k.table[p].(state := ZOMBIE, children := [])
       && k'.table[q] == Bereaved(k, p, q) && k'.table[INIT_PID] == Bereaved(k, p, INIT_PID)
       && forall x :: x in k.table && x != p && x != q && x != INIT_PID ==>
            k'.table[x] == if x in cs then k.table[x].(ppid := INIT_PID) else k.table[x]
  }

  /** The queues after the termination of p: it has left the ready queue, which the woken ones have entered, and each
      announcement is a unit more or has woken its sleeper. */
  ghost predicate DiesInQueues(k: Kernel, p: Pid, k': Kernel) {
    && p in k.table
    && var q := k.table[p].ppid;
       && OnlyChangesSems(k, k', {Terminated(p), ChildTerminated(q), ChildTerminated(INIT_PID)})
       && Terminated(p) in k.sems && ChildTerminated(q) in k.sems && ChildTerminated(INIT_PID) in k.sems
       && (forall x :: x in k'.ready <==> x != p && (x in k.ready || WokenByDeath(k, p, x)))
       && Remove(k.ready, p) <= k'.ready
       && Units(k'.sems[Terminated(p)]) + (if Sleeps(k, q, Terminated(p)) then 1 else 0)
            == Units(k.sems[Terminated(p)]) + 1
       && forall x :: x == q || x == INIT_PID ==> Hears(k, p, k', x)
  }

  ghost predicate Hears(k: Kernel, p: Pid, k': Kernel, x: Pid)
    requires p in k.table && ChildTerminated(x) in k.sems && ChildTerminated(x) in k'.sems
  {
    var id, n := ChildTerminated(x), Announcements(k, p, x);
    Units(k'.sems[id]) + (if n > 0 && Sleeps(k, x, id) then 1 else 0) == Units(k.sems[id]) + n
  }

  /** p, its parent q, its children and init are what they are in every tree of processes. */
  ghost predicate Kin(k: Kernel, p: Pid, q: Pid, cs: seq<Pid>) {
    && p in k.table && q in k.table && INIT_PID in k.table && k.table[p].ppid == q && k.table[p].children == cs
    && p != q && p != INIT_PID && p !in cs && q !in cs && INIT_PID !in cs && forall c :: c in cs ==> c in k.table
  }

  lemma KinOf(k: Kernel, p: Pid)
    requires FamilyOk(k, NONE) && NONE !in k.table && p in k.table && Ordinary(p)
    ensures Kin(k, p, k.table[p].ppid, k.table[p].children)
  {
    var q := k.table[p].ppid;
    assert ParentOk(k, p, NONE) && ChildrenOk(k, p);
    assert Ordinary(q) ==> ParentOk(k, q, NONE);
  }

  lemma DeathInTable(k: Kernel, p: Pid, q: Pid, cs: seq<Pid>, k1: Kernel, k': Kernel)
    requires Kin(k, p, q, cs) && Terminated(p) in k.sems && ChildTerminated(q) in k.sems && NotifyEffect(k, p, k1)
    requires MovesChildren(k1, p, cs, Dead(k, cs), k') && ChildTerminated(INIT_PID) in k.sems
    ensures DiesInTable(k, p, k')
  {
    assert cs[|cs|..] == [];
    var id := ChildTerminated(INIT_PID);
    assert q != INIT_PID ==> (Sleeps(k1, INIT_PID, id) <==> Sleeps(k, INIT_PID, id));
    assert Sleeps(k1, INIT_PID, id) ==> Sleeps(k, INIT_PID, id);
  }

  lemma DeathInQueues(k: Kernel, p: Pid, q: Pid, cs: seq<Pid>, k1: Kernel, k': Kernel)
    requires Kin(k, p, q, cs) && Terminated(p) in k.sems && ChildTerminated(q) in k.sems && NotifyEffect(k, p, k1)
    requires AnnouncesOrphans(k1, Dead(k, cs), k') && forall x :: x in k.ready ==> InState(k, x, READY)
    ensures DiesInQueues(k, p, k')
  {
    var id := ChildTerminated(INIT_PID);
    RemoveMembers(k.ready, p);
    assert q != INIT_PID ==> (Sleeps(k1, INIT_PID, id) <==> Sleeps(k, INIT_PID, id));
    assert Sleeps(k1, INIT_PID, id) ==> Sleeps(k, INIT_PID, id);
  }

  ghost predicate Dies(k: Kernel, p: Pid, k': Kernel) {
    DiesInTable(k, p, k') && DiesInQueues(k, p, k')
  }

  /** Terminating any live process but idle and init, the running one included, does exactly that; other PIDs do
      nothing. */
  lemma TerminateEffect(k: Kernel, p: Pid)
    requires Good(k) && !InState(k, p, ZOMBIE)
    ensures if p in k.table && Ordinary(p) then Dies(k, p, Terminate(k, p)) else Terminate(k, p) == k
  {
    if p in k.table && Ordinary(p) {
      KinOf(k, p);
      var k1 := NotifiedParent(k, p);
      var cs := k.table[p].children;
      var k' := TransferMoves(k1, p, |cs|);
      var k'' := TransferAnnounces(k1, p, |cs|);
      DeathInTable(k, p, k.table[p].ppid, cs, k1, k');
      DeathInQueues(k, p, k.table[p].ppid, cs, k1, k');
    }
  }

  lemma NotifiedParent(k: Kernel, p: Pid) returns (k1: Kernel)
    requires Good(k) && Live(k, p) && Ordinary(p) && Kin(k, p, k.table[p].ppid, k.table[p].children)
    ensures Terminated(p) in k.sems && ChildTerminated(k.table[p].ppid) in k.sems && ChildTerminated(INIT_PID) in k.sems
    ensures k1 == NotifyTermination(k, p, k.table[p].ppid) && NotifyEffect(k, p, k1) && Orphaning(k1, p)
    ensures Dead(k1, k.table[p].children) == Dead(k, k.table[p].children)
  {
    var q := k.table[p].ppid;
    ParentSleeps(k, p);
    NotifyHasEffect(k, p);
    k1 := NotifyTermination(k, p, q);
    assert CallOk(k, INIT_PID);
    NotifiedIsOrphaning(k, p, q, k1);
    assert forall c :: c in k.table[p].children ==> (InState(k1, c, ZOMBIE) <==> InState(k, c, ZOMBIE));
    DeadFrame(k, k1, k.table[p].children);
  }

  lemma NotifiedIsOrphaning(k: Kernel, p: Pid, q: Pid, k1: Kernel)
    requires FamilyOk(k, NONE) && NONE !in k.table && Ordinary(p) && Live(k, INIT_PID) && Live(k, q)
    requires p in k.table && k.table[p].ppid == q && p != q
    requires Terminated(p) in k.sems && ChildTerminated(q) in k.sems && NotifyEffect(k, p, k1) && QueuesOk(k1)
    requires forall x :: Waits(k, x, ChildTerminated(INIT_PID)) ==> x == INIT_PID
    ensures Orphaning(k1, p)
  {
    ZombieKeepsFamily(k, p);
    FamilyFrame(MakeZombie(k, p), k1, p);
  }
}

/** Every step of the kernel acts: what the steps of a run do to processes, queues and semaphores, kind by kind. */
module KernelActions {
  import opened Semaphores
  import opened KernelState
  import opened KernelInvariant
  import opened KernelSteps
  import opened KernelWaits
  import opened KernelReaping
  import opened KernelStart
  import opened KernelEffects

  // ----- waiting and reaping

  /** The zombie c, a child of p, is gone with its semaphores; p has the given terminated list and childTerminated, and
      has finished its call if it is the one that runs; nothing else is different. */
  ghost predicate Reaps(k: Kernel, p: Pid, c: Pid, rest: seq<Pid>, left: Sem, k': Kernel) {
    && InState(k, c, ZOMBIE) && k.table[c].ppid == p && p in k.table && p != c && c in k.table[p].children
    && c in k.table[p].terminatedChildren
    && k'.table.Keys == k.table.Keys - {c}
    && (forall x :: x in k'.table && x != p ==> k'.table[x] == k.table[x])
    && k'.table[p] == k.table[p].(terminatedChildren := rest, children := Remove(k.table[p].children, c),
                                  call := if p == k.current then NoCall else k.table[p].call)
    && k'.ready == k.ready && k'.current == k.current && k'.clock == k.clock
    && k'.sems.Keys == k.sems.Keys - {Terminated(c), ChildTerminated(c)}
    && (forall id :: id in k'.sems && id != ChildTerminated(p) ==> k'.sems[id] == k.sems[id])
    && ChildTerminated(p) in k'.sems && k'.sems[ChildTerminated(p)] == left
  }

  lemma ForgetReaps(k: Kernel, k1: Kernel, p: Pid, c: Pid, rest: seq<Pid>)
    requires p in k.table && p != c && InState(k, c, ZOMBIE) && k.table[c].ppid == p && c in k.table[p].children
    requires c in k.table[p].terminatedChildren && ChildTerminated(p) in k1.sems
    requires k1.table == k.table[p := k.table[p].(call := if p == k.current then NoCall else k.table[p].call)]
    requires k1.ready == k.ready && k1.current == k.current && k1.clock == k.clock && k1.sems.Keys == k.sems.Keys
    requires forall id :: id in k.sems && id != ChildTerminated(p) && id != Terminated(c) ==> k1.sems[id] == k.sems[id]
    ensures Reaps(k, p, c, rest, k1.sems[ChildTerminated(p)], Forget(k1, p, c, rest))
  {
    ForgetIs(k1, p, c, rest);
  }

  /** A zombie is a listed child of its parent, in both lists. */
  lemma ZombieInLists(k: Kernel, c: Pid)
    requires Good(k) && InState(k, c, ZOMBIE)
    ensures var p := k.table[c].ppid;
      && p in k.table && p != c && c in k.table[p].children && c in k.table[p].terminatedChildren
      && ChildTerminated(p) in k.sems
  {
    ZombieIsListed(k, k.table[c].ppid, c);
    assert ParentOk(k, c, NONE);
  }

  /** wait_any takes a unit and reaps the oldest terminated child, or blocks at the end of the queue. */
  ghost predicate WaitAnyEffect(k: Kernel, k': Kernel) {
    && k.current in k.table && ChildTerminated(k.current) in k.sems
    && var p, sem, ts := k.current, k.sems[ChildTerminated(k.current)], k.table[k.current].terminatedChildren;
       if sem.value > 0 then ts != [] && Reaps(k, p, ts[0], ts[1..], Sem(sem.value - 1, sem.queue), k')
       else BlockEffect(k, ChildTerminated(p), InWaitAny, k')
  }

  lemma WaitAnyActs(k: Kernel)
    requires Good(k) && InState(k, k.current, RUNNING) && k.table[k.current].call == NoCall
    ensures WaitAnyEffect(k, WaitAny(k))
  {
    var p, id := k.current, ChildTerminated(k.current);
    assert id in k.sems;
    if WaitPasses(k.sems[id]) {
      var k1 := SemWait(k, id, InWaitAny);
      TakeChildMakesOwed(k, k1);
      PolledIsZombieChild(k1, p);
      var ts := k.table[p].terminatedChildren;
      ZombieInLists(k, ts[0]);
      ForgetReaps(k, k1, p, ts[0], ts[1..]);
    } else {
      BlockIs(k, id, InWaitAny);
    }
  }

  /** What a process woken inside wait_any or wait_pid does when it is dispatched. */
  ghost predicate ResumeEffect(k: Kernel, k': Kernel) {
    && k.current in k.table && ChildTerminated(k.current) in k.sems
    && var p, sem, ts := k.current, k.sems[ChildTerminated(k.current)], k.table[k.current].terminatedChildren;
       match k.table[p].call
       case NoCall => k' == k
       case InWaitAny => ts != [] && Reaps(k, p, ts[0], ts[1..], sem, k')
       case InWaitPid(c) => sem.value > 0 && Reaps(k, p, c, Remove(ts, c), Sem(sem.value - 1, sem.queue), k')
  }

  lemma ResumeActs(k: Kernel)
    requires Good(k) && InState(k, k.current, RUNNING)
    ensures ResumeEffect(k, Resume(k))
  {
    var p := k.current;
    assert ChildTerminated(p) in k.sems;
    match k.table[p].call {
      case NoCall =>
      case InWaitAny =>
        GrantedIsOwed(k, p);
        PolledIsZombieChild(ClearCall(k, p), p);
        var ts := k.table[p].terminatedChildren;
        ZombieInLists(k, ts[0]);
        ForgetReaps(k, ClearCall(k, p), p, ts[0], ts[1..]);
      case InWaitPid(c) =>
        AwaitedIsZombie(k, p, c);
        ZombieInLists(k, c);
        ZombieIsListed(k, p, c);
        FinishWaitPidIsForget(ClearCall(k, p), p, c);
        ForgetReaps(k, SemTryWait(ClearCall(k, p), ChildTerminated(p)), p, c,
                    Remove(k.table[p].terminatedChildren, c));
    }
  }

  lemma AwaitedIsZombie(k: Kernel, p: Pid, c: Pid)
    requires Good(k) && InState(k, p, RUNNING) && k.table[p].call == InWaitPid(c)
    ensures InState(k, c, ZOMBIE) && k.table[c].ppid == p
  {
    NotWaiting(k, p);
    assert CallOk(k, p) && AwaitsChild(k, p, c);
    assert Waits(k, p, Terminated(c)) ==> Queued(k, p);
  }

  /** wait_pid reaps an announced zombie, whose parent loses a unit if it has one, and otherwise blocks. */
  ghost predicate WaitPidEffect(k: Kernel, c: Pid, k': Kernel) {
    if c !in k.table then k' == k
    else if Announced(k, c) then
      var p := k.table[c].ppid;
      && p in k.table && ChildTerminated(p) in k.sems
      && Reaps(k, p, c, Remove(k.table[p].terminatedChildren, c), TryWait(k.sems[ChildTerminated(p)]), k')
    else BlockEffect(k, Terminated(c), InWaitPid(c), k')
  }

  lemma WaitPidActs(k: Kernel, c: Pid)
    requires Good(k) && InState(k, k.current, RUNNING) && k.table[k.current].call == NoCall
    ensures WaitPidEffect(k, c, WaitPid(k, c))
  {
    if c in k.table {
      assert Terminated(c) in k.sems;
      if Announced(k, c) {
        assert AnnouncedOk(k, c);
        ZombieInLists(k, c);
        AnnouncedIsReaped(k, k.table[c].ppid, c);
      } else {
        BlockIs(k, Terminated(c), InWaitPid(c));
      }
    }
  }

  lemma AnnouncedIsReaped(k: Kernel, p: Pid, c: Pid)
    requires k.current in k.table && k.table[k.current].call == NoCall && Announced(k, c)
    requires InState(k, c, ZOMBIE) && k.table[c].ppid == p && p in k.table && p != c && c in k.table[p].children
    requires c in k.table[p].terminatedChildren && ChildTerminated(p) in k.sems
    ensures Reaps(k, p, c, Remove(k.table[p].terminatedChildren, c), TryWait(k.sems[ChildTerminated(p)]), WaitPid(k, c))
  {
    var k1 := SemWait(k, Terminated(c), InWaitPid(c));
    FinishWaitPidIsForget(k1, p, c);
    ForgetReaps(k, SemTryWait(k1, ChildTerminated(p)), p, c, Remove(k.table[p].terminatedChildren, c));
  }

  function ZombiesOf(k: Kernel, p: Pid): set<Pid> {
    set c | c in k.table && k.table[c].state == ZOMBIE && k.table[c].ppid == p
  }

  /** The semaphore belongs to one of the processes. */
  predicate BelongsTo(id: SemId, ps: set<Pid>) {
    (id.Terminated? || id.ChildTerminated?) && id.pid in ps
  }

  /** All zombie children of p are gone, with their semaphores, p has no unit left, and nothing else is different. */
  ghost predicate ReapsAll(k: Kernel, p: Pid, k': Kernel) {
    && p in k.table && p !in ZombiesOf(k, p)
    && k'.table.Keys == k.table.Keys - ZombiesOf(k, p)
    && (forall x :: x in k'.table && x != p ==> k'.table[x] == k.table[x])
    && k'.table[p] == k.table[p].(terminatedChildren := [], children := k'.table[p].children)
    && (forall c :: c in k'.table[p].children <==> c in k.table[p].children && c !in ZombiesOf(k, p))
    && k'.ready == k.ready && k'.current == k.current && k'.clock == k.clock
    && (forall id :: id in k'.sems <==> id in k.sems && !BelongsTo(id, ZombiesOf(k, p)))
    && (forall id :: id in k'.sems && id != ChildTerminated(p) ==> k'.sems[id] == k.sems[id])
    && ChildTerminated(p) in k'.sems && Units(k'.sems[ChildTerminated(p)]) == 0
  }

  lemma ReapAllActs(k: Kernel)
    requires Good(k) && InState(k, k.current, RUNNING) && k.table[k.current].call == NoCall
    ensures ReapsAll(k, k.current, ReapZombies(k))
  {
    assert ChildTerminated(k.current) in k.sems;
    var k' := ReapTimesActs(k, k.current, Units(k.sems[ChildTerminated(k.current)]));
  }

  lemma {:induction false} ReapTimesActs(k: Kernel, p: Pid, n: nat) returns (k': Kernel)
    requires Good(k) && p == k.current && InState(k, p, RUNNING) && k.table[p].call == NoCall
    requires ChildTerminated(p) in k.sems && n == Units(k.sems[ChildTerminated(p)])
    ensures k' == ReapTimes(k, n) && ReapsAll(k, p, k')
    decreases n
  {
    if n == 0 {
      k' := k;
      NothingToReap(k);
    } else {
      var k1 := ReapTurnComposes(k, p);
      k' := ReapTimesActs(k1, p, n - 1);
    }
  }

  /** Reaping all after the next turn is reaping all. */
  lemma ReapTurnComposes(k: Kernel, p: Pid) returns (k1: Kernel)
    requires Good(k) && p == k.current && InState(k, p, RUNNING) && k.table[p].call == NoCall
    requires ChildTerminated(p) in k.sems && Units(k.sems[ChildTerminated(p)]) > 0
    ensures k1 == ReapFirst(SemTryWait(k, ChildTerminated(p)), p)
    ensures Good(k1) && k1.current == p && InState(k1, p, RUNNING) && k1.table[p].call == NoCall
    ensures ChildTerminated(p) in k1.sems
    ensures Units(k1.sems[ChildTerminated(p)]) == Units(k.sems[ChildTerminated(p)]) - 1
    ensures forall k' :: ReapsAll(k1, p, k') ==> ReapsAll(k, p, k')
  {
    var c, rest;
    k1, c, rest := ReapOne(k);
    forall k' | ReapsAll(k1, p, k')
      ensures ReapsAll(k, p, k')
    {
      ReapsCompose(k, p, c, rest, k1, k');
    }
  }

  lemma NothingToReap(k: Kernel)
    requires Good(k) && InState(k, k.current, RUNNING) && k.table[k.current].call == NoCall
    requires ChildTerminated(k.current) in k.sems && Units(k.sems[ChildTerminated(k.current)]) == 0
    ensures ReapsAll(k, k.current, k)
  {
    assert AccountOk(k, k.current, {});
    assert !Granted(k, k.current);
    NothingListed(k, k.current);
    assert (forall c :: c !in ZombiesOf(k, k.current)) ==> ZombiesOf(k, k.current) == {};
  }

  /** One turn of reap_zombies. */
  lemma ReapOne(k: Kernel) returns (k1: Kernel, c: Pid, rest: seq<Pid>)
    requires Good(k) && InState(k, k.current, RUNNING) && k.table[k.current].call == NoCall
    requires ChildTerminated(k.current) in k.sems && Units(k.sems[ChildTerminated(k.current)]) > 0
    ensures k1 == ReapFirst(SemTryWait(k, ChildTerminated(k.current)), k.current)
    ensures Good(k1) && k1.current == k.current && InState(k1, k.current, RUNNING)
    ensures k1.table[k.current].call == NoCall
    ensures Reaps(k, k.current, c, rest, TryWait(k.sems[ChildTerminated(k.current)]), k1)
    ensures Units(k1.sems[ChildTerminated(k.current)]) == Units(k.sems[ChildTerminated(k.current)]) - 1
  {
    k1 := TakeAndReap(k);
    c, rest := OldestIsReaped(k);
  }

  lemma OldestIsReaped(k: Kernel) returns (c: Pid, rest: seq<Pid>)
    requires Good(k) && InState(k, k.current, RUNNING) && k.table[k.current].call == NoCall
    requires ChildTerminated(k.current) in k.sems && Units(k.sems[ChildTerminated(k.current)]) > 0
    ensures Reaps(k, k.current, c, rest, TryWait(k.sems[ChildTerminated(k.current)]),
                  ReapFirst(SemTryWait(k, ChildTerminated(k.current)), k.current))
  {
    var p := k.current;
    var k0 := SemTryWait(k, ChildTerminated(p));
    TakeChildMakesOwed(k, k0);
    PolledIsZombieChild(k0, p);
    c, rest := k.table[p].terminatedChildren[0], k.table[p].terminatedChildren[1..];
    ZombieInLists(k, c);
    ForgetReaps(k, k0, p, c, rest);
  }

  lemma ReapsCompose(k: Kernel, p: Pid, c: Pid, rest: seq<Pid>, k1: Kernel, k': Kernel)
    requires ChildTerminated(p) in k.sems && Reaps(k, p, c, rest, TryWait(k.sems[ChildTerminated(p)]), k1)
    requires p == k.current && k.table[p].call == NoCall && ReapsAll(k1, p, k')
    ensures ReapsAll(k, p, k')
  {
    RemoveMembers(k.table[p].children, c);
    assert forall x :: x in ZombiesOf(k1, p) <==> x in ZombiesOf(k, p) && x != c;
  }

  // ----- creation

  /** The new process has the lowest free PID; when all are taken nothing happens. */
  ghost predicate StartsLowest(k: Kernel, priority: nat, k': Kernel) {
    if forall p :: 0 <= p < MAX_PROCESSES ==> p in k.table then k' == k
    else exists p :: 0 <= p < MAX_PROCESSES && (forall q :: 0 <= q < p ==> q in k.table)
                     && StartEffect(k, p, priority, k')
  }

  lemma StartActs(k: Kernel, priority: nat)
    requires k.current in k.table && k.current != IDLE_PID
    ensures StartsLowest(k, priority, Start(k, priority))
  {
    var p := FreePidFrom(k, 0);
    if p < MAX_PROCESSES {
      StartIs(k, p, priority);
    }
  }

  // ----- stopping, continuing, priorities

  /** p alone changes, from ready or running to blocked, and is not in the ready queue any more. */
  ghost predicate Stops(k: Kernel, p: Pid, k': Kernel) {
    if Ordinary(p) && (InState(k, p, READY) || InState(k, p, RUNNING)) then
      && OnlyChanges(k, k', {p}) && k'.table[p] == k.table[p].(state := BLOCKED)
      && k'.ready == Remove(k.ready, p) && p !in k'.ready
      && k'.sems == k.sems && k'.current == k.current && k'.clock == k.clock
    else k' == k
  }

  lemma {:induction false} RemoveAbsent(s: seq<Pid>, p: Pid)
    requires p !in s
    ensures Remove(s, p) == s
  {
    if s != [] {
      RemoveAbsent(s[1..], p);
    }
  }

  lemma StopActs(k: Kernel, p: Pid)
    requires ReadyOk(k)
    ensures Stops(k, p, SetBlocked(k, p))
  {
    RemoveMembers(k.ready, p);
    if p !in k.ready {
      RemoveAbsent(k.ready, p);
    }
  }

  /** p alone changes, from blocked to ready, at the end of the ready queue. */
  ghost predicate Continues(k: Kernel, p: Pid, k': Kernel) {
    if InState(k, p, BLOCKED) then
      && OnlyChanges(k, k', {p}) && k'.table[p] == k.table[p].(state := READY)
      && k'.ready == k.ready + [p] && k'.sems == k.sems && k'.current == k.current && k'.clock == k.clock
    else k' == k
  }

  /** p alone changes: it has the priority, and as many quanta. */
  ghost predicate Renices(k: Kernel, p: Pid, priority: nat, k': Kernel) {
    if p in k.table && priority > 0 then
      && OnlyChanges(k, k', {p}) && k'.table[p] == k.table[p].(priority := priority, remaining := priority)
      && k'.ready == k.ready && k'.sems == k.sems && k'.current == k.current && k'.clock == k.clock
    else k' == k
  }

  // ----- the scheduler

  /** A running process with quanta left uses one.  Otherwise the head of the ready queue runs, to whose end a process
      that was still running has gone before. */
  ghost predicate Ticks(k: Kernel, k': Kernel) {
    var c, runs := k.current, InState(k, k.current, RUNNING);
    && k'.sems == k.sems && k'.clock == k.clock
    && if runs && k.table[c].remaining > 0 then
         && OnlyChanges(k, k', {c}) && k'.table[c] == k.table[c].(remaining := k.table[c].remaining - 1)
         && k'.ready == k.ready && k'.current == c
       else
         var queue := k.ready + if runs then [c] else [];
         && queue != [] && k'.current == queue[0] && k'.ready == queue[1..]
         && queue[0] in k.table && k.table[queue[0]].priority > 0
         && OnlyChanges(k, k', {c, queue[0]})
         && (c in k.table && c != queue[0] ==>
               k'.table[c] == if runs then k.table[c].(state := READY) else k.table[c])
         && k'.table[queue[0]] == k.table[queue[0]].(state := RUNNING, remaining := k.table[queue[0]].priority - 1)
  }

  lemma TickActs(k: Kernel)
    requires ReadyOk(k)
    ensures Ticks(k, Schedule(k))
  {
    if !InState(k, k.current, RUNNING) {
      NextPidIsReady(k);
    } else if k.ready != [] {
      assert k.ready[0] in k.ready;
    }
  }

  // ----- all steps

  /** The semaphore has one unit less and nothing else is different. */
  ghost predicate Takes(k: Kernel, id: SemId, k': Kernel) {
    && id in k.sems && OnlyChangesSems(k, k', {id})
    && k'.sems[id] == Sem(k.sems[id].value - 1, k.sems[id].queue)
    && k'.table == k.table && k'.ready == k.ready && k'.current == k.current && k'.clock == k.clock
  }

  ghost predicate TakesOrBlocks(k: Kernel, id: SemId, call: Call, k': Kernel) {
    id in k.sems && if k.sems[id].value > 0 then Takes(k, id, k') else BlockEffect(k, id, call, k')
  }

  ghost predicate TakesOrFails(k: Kernel, id: SemId, k': Kernel) {
    if id in k.sems && k.sems[id].value > 0 then Takes(k, id, k') else k' == k
  }

  ghost predicate Wakes(k: Kernel, id: SemId, k': Kernel) {
    if id in k.sems then exists w :: PostEffect(k, id, k', w) else k' == k
  }

  ghost predicate Opens(k: Kernel, id: SemId, value: int, k': Kernel) {
    && k'.sems.Keys == k.sems.Keys + {id} && (forall i :: i in k.sems && i != id ==> k'.sems[i] == k.sems[i])
    && id in k'.sems && k'.sems[id] == Sem(value, [])
    && k'.table == k.table && k'.ready == k.ready && k'.current == k.current && k'.clock == k.clock
  }

  ghost predicate Kills(k: Kernel, p: Pid, k': Kernel) {
    if p in k.table && Ordinary(p) then Dies(k, p, k') else k' == k
  }

  /** What the step of each kind does. */
  ghost predicate Acts(k: Kernel, s: Step, k': Kernel) {
    match s
    case Tick => Ticks(k, k')
    case StartProcess(priority) => StartsLowest(k, priority, k')
    case WaitOn(id) => TakesOrBlocks(k, Other(id), NoCall, k')
    case PostOn(id) => Wakes(k, Other(id), k')
    case TryWaitOn(id) => TakesOrFails(k, Other(id), k')
    case Stop(p) => Stops(k, p, k')
    case Continue(p) => Continues(k, p, k')
    case Nice(p, priority) => Renices(k, p, priority, k')
    case Kill(p) => Kills(k, p, k')
    case WaitForPid(c) => WaitPidEffect(k, c, k')
    case WaitForAny => WaitAnyEffect(k, k')
    case ReapAll => ReapsAll(k, k.current, k')
    case Finish => ResumeEffect(k, k')
    case NewSemaphore(id, value) => Opens(k, Other(id), value, k')
  }

  lemma WaitActs(k: Kernel, id: SemId, call: Call)
    requires id in k.sems && k.current in k.table
    ensures TakesOrBlocks(k, id, call, SemWait(k, id, call))
  {
    if !WaitPasses(k.sems[id]) {
      BlockIs(k, id, call);
    }
  }

  lemma PostActs(k: Kernel, id: SemId)
    requires QueuesOk(k) && NOBODY !in k.table
    ensures Wakes(k, id, SemPost(k, id))
  {
    if id in k.sems {
      var w := PostIs(k, id);
    }
  }

  lemma TryWaitActs(k: Kernel, id: SemId)
    ensures TakesOrFails(k, id, SemTryWait(k, id))
  {
    if id in k.sems && k.sems[id].value <= 0 {
      assert k.sems[id := k.sems[id]] == k.sems;
    }
  }

  /** Every step any process can take in a good state acts as its kind says. */
  lemma EveryStepActs(k: Kernel, s: Step)
    requires Good(k) && CanStep(k, s)
    ensures Acts(k, s, Next(k, s))
  {
    if s.Kill? {
      KillStepActs(k, s);
    } else if ForChildren(s) {
      ReapingStepActs(k, s);
    } else {
      SchedulingStepActs(k, s);
    }
  }

  lemma KillStepActs(k: Kernel, s: Step)
    requires Good(k) && CanStep(k, s) && s.Kill?
    ensures Acts(k, s, Next(k, s))
  {
    TerminateEffect(k, s.pid);
  }

  lemma ReapingStepActs(k: Kernel, s: Step)
    requires Good(k) && CanStep(k, s) && ForChildren(s) && !s.Kill?
    ensures Acts(k, s, Next(k, s))
  {
    match s
    case WaitForPid(c) => WaitPidActs(k, c);
    case WaitForAny => WaitAnyActs(k);
    case ReapAll => ReapAllActs(k);
    case Finish => ResumeActs(k);
  }

  predicate ForChildren(s: Step) {
    s.Kill? || s.WaitForPid? || s.WaitForAny? || s.ReapAll? || s.Finish?
  }

  lemma SchedulingStepActs(k: Kernel, s: Step)
    requires ReadyOk(k) && QueuesOk(k) && CanStep(k, s) && !ForChildren(s)
    ensures Acts(k, s, Next(k, s))
  {
    match s
    case Tick => TickActs(k);
    case StartProcess(priority) => StartActs(k, priority);
    case WaitOn(id) => WaitActs(k, Other(id), NoCall);
    case PostOn(id) => PostActs(k, Other(id));
    case TryWaitOn(id) => TryWaitActs(k, Other(id));
    case Stop(p) => StopActs(k, p);
    case Continue(p) =>
    case Nice(p, priority) =>
    case NewSemaphore(id, value) =>
  }
}

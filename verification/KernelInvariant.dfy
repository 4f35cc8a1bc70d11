/** What every reachable kernel state satisfies. */
module KernelInvariant {
  import opened Semaphores
  import opened Sequences
  import opened KernelState

  predicate Live(k: Kernel, p: Pid) {
    p in k.table && k.table[p].state != ZOMBIE
  }

  /** The ready queue holds exactly the READY processes, once each; only the current process runs; idle is never
      stuck. */
  ghost predicate ReadyOk(k: Kernel) {
    && NoRepeats(k.ready)
    && (forall p :: p in k.ready <==> InState(k, p, READY))
    && (forall p :: InState(k, p, RUNNING) ==> p == k.current)
    && (k.current == -1 || k.current in k.table) && !InState(k, k.current, READY)
    && (InState(k, IDLE_PID, READY) || InState(k, IDLE_PID, RUNNING))
    && Live(k, INIT_PID)
    && (forall p :: p in k.table ==> 0 <= p < MAX_PROCESSES && k.table[p].priority >= 1)
  }

  /** Queue lengths match the values, nobody waits twice, and whoever waits and lives is BLOCKED. */
  ghost predicate QueuesOk(k: Kernel) {
    && (forall id :: id in k.sems ==> Balanced(k.sems[id]) && NoRepeats(k.sems[id].queue))
    && (forall p, id, id' :: Waits(k, p, id) && Waits(k, p, id') ==> id == id')
    && (forall p, id :: Waits(k, p, id) && Live(k, p) ==> InState(k, p, BLOCKED))
    && (forall p :: p in k.table <==> Terminated(p) in k.sems)
    && (forall p :: p in k.table <==> ChildTerminated(p) in k.sems)
  }

  /** The parent is alive, is not init, and is not already past its wait for c. */
  predicate AwaitableByParent(k: Kernel, c: Pid) {
    c in k.table && k.table[c].ppid != INIT_PID && Live(k, k.table[c].ppid)
        && k.table[k.table[c].ppid].call != InWaitPid(c)
  }

  /** What the process waits for is what its unfinished call says. */
  predicate WaitFits(p: Pid, call: Call, id: SemId) {
    match id
    case ChildTerminated(q) => p == q && call == InWaitAny
    case Terminated(c) => call == InWaitPid(c)
    case Other(_) => call == NoCall
  }

  /** A live process waits for what its call says; a wait_pid waits exactly until the child is a zombie. */
  ghost predicate CallOk(k: Kernel, p: Pid)
    requires p in k.table
  {
    && (forall id :: Waits(k, p, id) ==> WaitFits(p, k.table[p].call, id))
    && (forall q :: Waits(k, q, ChildTerminated(p)) ==> q == p)
    && (k.table[p].call.InWaitPid? ==> AwaitsChild(k, p, k.table[p].call.child))
  }

  predicate AwaitsChild(k: Kernel, p: Pid, c: Pid) {
    Ordinary(c) && c in k.table && k.table[c].ppid == p && (Waits(k, p, Terminated(c)) <==> k.table[c].state != ZOMBIE)
  }

  /** Only zombies are announced, and a zombie stays announced for a parent that may still wait for it. */
  predicate AnnouncedOk(k: Kernel, c: Pid)
    requires c in k.table
  {
    && (Announced(k, c) ==> k.table[c].state == ZOMBIE)
    && (k.table[c].state == ZOMBIE && AwaitableByParent(k, c) ==> Announced(k, c))
  }

  ghost predicate CallsOk(k: Kernel) {
    && (forall p :: Live(k, p) ==> CallOk(k, p))
    && (forall c :: c in k.table ==> AnnouncedOk(k, c))
  }

  predicate Ordinary(p: Pid) {
    p != IDLE_PID && p != INIT_PID
  }

  /** The parent of p exists, lists p, is older, and is not a zombie unless it is just dying. */
  predicate ParentOk(k: Kernel, p: Pid, dying: Pid)
    requires p in k.table
  {
    var q := k.table[p].ppid;
    && q in k.table && q != IDLE_PID && p in k.table[q].children
    && k.table[q].born < k.table[p].born
    && (k.table[q].state == ZOMBIE ==> q == dying)
  }

  ghost predicate ChildrenOk(k: Kernel, p: Pid)
    requires p in k.table
  {
    && NoRepeats(k.table[p].children)
    && (forall c :: c in k.table[p].children ==> c in k.table && Ordinary(c) && k.table[c].ppid == p)
  }

  /** Parent links and children lists mirror each other, and init is the oldest of all but idle. */
  ghost predicate FamilyOk(k: Kernel, dying: Pid) {
    && IDLE_PID in k.table && INIT_PID in k.table
    && k.table[IDLE_PID].ppid == INIT_PID && k.table[INIT_PID].ppid == INIT_PID
    && (forall p :: p in k.table && Ordinary(p) ==> ParentOk(k, p, dying) && k.table[INIT_PID].born < k.table[p].born)
    && (forall p :: p in k.table ==> ChildrenOk(k, p) && k.table[p].born < k.clock)
  }

  /** The terminated list of a live process holds each of its zombie children once,
      and childTerminated counts them, up to one unit already granted to a wait_any. */
  ghost predicate AccountsOk(k: Kernel, unlisted: set<Pid>) {
    forall p :: Live(k, p) ==> AccountOk(k, p, unlisted)
  }

  ghost predicate AccountOk(k: Kernel, p: Pid, unlisted: set<Pid>)
    requires p in k.table
  {
    var ts := k.table[p].terminatedChildren;
    && NoRepeats(ts)
    && (forall c :: c in ts <==> InState(k, c, ZOMBIE) && k.table[c].ppid == p && c !in unlisted)
    && ChildTerminated(p) in k.sems
    && |ts| == Units(k.sems[ChildTerminated(p)]) + if Granted(k, p) then 1 else 0
  }

  /** Inside terminateProcess one process is dying and may not yet be listed; otherwise nobody is. */
  ghost predicate Inv(k: Kernel, dying: Pid, unlisted: set<Pid>) {
    ReadyOk(k) && QueuesOk(k) && CallsOk(k) && FamilyOk(k, dying) && AccountsOk(k, unlisted)
  }

  const NONE: Pid := -1

  ghost predicate Good(k: Kernel) {
    Inv(k, NONE, {})
  }
}

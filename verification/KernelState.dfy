/**
 * Processes, the ready queue and their semaphores as one state, and what each kernel operation does to it.
 * Kernel code between two context switches is atomic, so each function below is one indivisible step.
 */
module KernelState {
  import opened Semaphores
  import Queue

  const MAX_PROCESSES: int := 64
  const IDLE_PID: Pid := 0
  const INIT_PID: Pid := 1

  datatype State = READY | RUNNING | BLOCKED | ZOMBIE

  /** The system call a process has to finish when it is dispatched again. */
  datatype Call = NoCall | InWaitAny | InWaitPid(child: Pid)

  /** A process control block.  born orders processes by creation; the kernel has no such field. */
  datatype Pcb = Pcb(state: State, priority: nat, remaining: nat, ppid: Pid,
                     children: seq<Pid>, terminatedChildren: seq<Pid>, call: Call, born: nat)

  /** The two semaphores each process owns, and the others (named ones and those of pipes). */
  datatype SemId = Terminated(pid: Pid) | ChildTerminated(pid: Pid) | Other(id: int)

  datatype Kernel = Kernel(table: map<Pid, Pcb>, ready: seq<Pid>, current: Pid, sems: map<SemId, Sem>, clock: nat)

  // ----- small pieces

  predicate InState(k: Kernel, p: Pid, st: State) {
    p in k.table && k.table[p].state == st
  }

  function SetState(k: Kernel, p: Pid, st: State): Kernel
    requires p in k.table
  {
    k.(table := k.table[p := k.table[p].(state := st)])
  }

  /** removeFromQueue with comparePIDs. */
  function Remove(s: seq<Pid>, p: Pid): seq<Pid> {
    if s == [] then [] else (if s[0] == p then [] else [s[0]]) + Remove(s[1..], p)
  }

  /** ... which is what the linked queue does with that comparison. */
  lemma {:induction false} RemoveIsWithout(s: seq<Pid>, p: Pid)
    ensures Remove(s, p) == Queue.Without(s, p, (a: int, b: int) => a - b)
  {
    if s != [] {
      RemoveIsWithout(s[1..], p);
    }
  }

  function Blocked(k: Kernel): set<Pid> {
    set p | p in k.table && k.table[p].state == BLOCKED
  }

  // ----- semaphores

  /** setReady as semPost uses it: a blocked process goes to the end of the ready queue. */
  function MakeReady(k: Kernel, p: Pid): Kernel {
    if InState(k, p, BLOCKED) then SetState(k, p, READY).(ready := k.ready + [p]) else k
  }

  function SemPost(k: Kernel, id: SemId): Kernel {
    if id in k.sems then
      var posted := Post(k.sems[id], Blocked(k));
      MakeReady(k.(sems := k.sems[id := posted.sem]), posted.woken)
    else k
  }

  /** semWait by the current process, which has to finish the given call if it blocks. */
  function SemWait(k: Kernel, id: SemId, call: Call): Kernel
    requires id in k.sems && k.current in k.table
  {
    var k' := k.(sems := k.sems[id := Wait(k.sems[id], k.current)]);
    if WaitPasses(k.sems[id]) then k'
    else k'.(table := k.table[k.current := k.table[k.current].(state := BLOCKED, call := call)])
  }

  function SemTryWait(k: Kernel, id: SemId): Kernel {
    if id in k.sems then k.(sems := k.sems[id := TryWait(k.sems[id])]) else k
  }

  // ----- scheduling

  /** The head of the ready queue; idle when it is empty. */
  function NextPid(k: Kernel): Pid {
    if k.ready == [] then IDLE_PID else k.ready[0]
  }

  /** Make the next process current, with a full set of quanta of which one is used at once. */
  function Dispatch(k: Kernel): Kernel {
    var p := NextPid(k);
    var k' := if k.ready == [] then k else k.(ready := k.ready[1..]);
    if p in k.table then
      k'.(current := p, table := k.table[p := k.table[p].(state := RUNNING,
        remaining := if k.table[p].priority > 0 then k.table[p].priority - 1 else 0)])
    else k'
  }

  function Schedule(k: Kernel): Kernel {
    if !InState(k, k.current, RUNNING) then Dispatch(k)
    else
      var pcb := k.table[k.current];
      if pcb.remaining > 0 then k.(table := k.table[k.current := pcb.(remaining := pcb.remaining - 1)])
      else Dispatch(SetState(k, k.current, READY).(ready := k.ready + [k.current]))
  }

  // ----- creation

  /** The lowest unused PID, or MAX_PROCESSES. */
  function FreePidFrom(k: Kernel, p: Pid): (r: Pid)
    requires p <= MAX_PROCESSES
    ensures p <= r <= MAX_PROCESSES
    ensures r < MAX_PROCESSES ==> r !in k.table
    ensures forall i :: p <= i < r ==> i in k.table
    decreases MAX_PROCESSES - p
  {
    if p == MAX_PROCESSES || p !in k.table then p else FreePidFrom(k, p + 1)
  }

  /** A new process in slot p: a child of the current process, or of init when idle or nobody is current. */
  function StartWithPid(k: Kernel, p: Pid, priority: nat): Kernel {
    var family := k.current in k.table && k.current != IDLE_PID;
    var parent := if family then k.current else INIT_PID;
    var table :=
      if family then k.table[parent := k.table[parent].(children := k.table[parent].children + [p])] else k.table;
    Kernel(table[p := Pcb(READY, priority, priority, parent, [], [], NoCall, k.clock)],
           k.ready + [p], k.current,
           k.sems[Terminated(p) := Sem(0, [])][ChildTerminated(p) := Sem(0, [])],
           k.clock + 1)
  }

  function Start(k: Kernel, priority: nat): Kernel {
    var p := FreePidFrom(k, 0);
    if p < MAX_PROCESSES then StartWithPid(k, p, priority) else k
  }

  /** initializeScheduler: idle and init, both ready. */
  function Boot(): Kernel {
    StartWithPid(StartWithPid(Kernel(map[], [], -1, map[], 0), IDLE_PID, 1), INIT_PID, 1)
  }

  // ----- termination

  function AppendTerminated(k: Kernel, parent: Pid, child: Pid): Kernel {
    if parent in k.table then
      var pcb := k.table[parent];
      k.(table := k.table[parent := pcb.(terminatedChildren := pcb.terminatedChildren + [child])])
    else k
  }

  /** A zombie handed over to init is listed and announced there. */
  function Announce(k: Kernel, parent: Pid, child: Pid): Kernel {
    SemPost(AppendTerminated(k, parent, child), ChildTerminated(parent))
  }

  /** The first child of p becomes a child of init. */
  function MoveFirstChild(k: Kernel, p: Pid): Kernel {
    if p in k.table && k.table[p].children != [] && INIT_PID in k.table then
      var c := k.table[p].children[0];
      var t1 := k.table[p := k.table[p].(children := k.table[p].children[1..])];
      if c in t1 then
        var t2 := t1[INIT_PID := t1[INIT_PID].(children := t1[INIT_PID].children + [c])];
        k.(table := t2[c := t2[c].(ppid := INIT_PID)])
      else k.(table := t1)
    else k
  }

  function TransferFirst(k: Kernel, p: Pid): Kernel {
    if p in k.table && k.table[p].children != [] && INIT_PID in k.table then
      var c := k.table[p].children[0];
      var k' := MoveFirstChild(k, p);
      if InState(k', c, ZOMBIE) then Announce(k', INIT_PID, c) else k'
    else k
  }

  function TransferTimes(k: Kernel, p: Pid, n: nat): Kernel
    decreases n
  {
    if n == 0 then k else TransferTimes(TransferFirst(k, p), p, n - 1)
  }

  /** transferOrphanChildren: all children of p move to init. */
  function TransferOrphans(k: Kernel, p: Pid): Kernel {
    if p in k.table then TransferTimes(k, p, |k.table[p].children|) else k
  }

  function MakeZombie(k: Kernel, p: Pid): Kernel
    requires p in k.table
  {
    SetState(k, p, ZOMBIE).(ready := Remove(k.ready, p))
  }

  function NotifyTermination(k: Kernel, p: Pid, parent: Pid): Kernel
    requires p in k.table
  {
    AppendTerminated(SemPost(SemPost(MakeZombie(k, p), Terminated(p)), ChildTerminated(parent)), parent, p)
  }

  predicate Killable(k: Kernel, p: Pid) {
    p in k.table && p != IDLE_PID && p != INIT_PID && k.table[p].ppid in k.table
  }

  /** terminateProcess and killFromIsr, up to the forced call of the scheduler. */
  function Terminate(k: Kernel, p: Pid): Kernel {
    if Killable(k, p) then TransferOrphans(NotifyTermination(k, p, k.table[p].ppid), p) else k
  }

  // ----- reaping

  /** Forget child c of p: off the children list, and its slot and semaphores are released. */
  function Reap(k: Kernel, p: Pid, c: Pid): Kernel {
    var t := if p in k.table then k.table[p := k.table[p].(children := Remove(k.table[p].children, c))] else k.table;
    k.(table := t - {c}, sems := k.sems - {Terminated(c), ChildTerminated(c)})
  }

  /** The oldest terminated child; NULL reads as PID 0. */
  function FirstTerminated(k: Kernel, p: Pid): Pid
    requires p in k.table
  {
    if k.table[p].terminatedChildren == [] then 0 else k.table[p].terminatedChildren[0]
  }

  /** Reap the first terminated child of p. */
  function ReapFirst(k: Kernel, p: Pid): Kernel {
    if p !in k.table then k
    else
      var ts := k.table[p].terminatedChildren;
      var rest := if ts == [] then ts else ts[1..];
      Reap(k.(table := k.table[p := k.table[p].(terminatedChildren := rest)]), p, FirstTerminated(k, p))
  }

  function WaitAny(k: Kernel): Kernel {
    if k.current !in k.table || ChildTerminated(k.current) !in k.sems then k
    else
      var k' := SemWait(k, ChildTerminated(k.current), InWaitAny);
      if WaitPasses(k.sems[ChildTerminated(k.current)]) then ReapFirst(k', k.current) else k'
  }

  /** What is left of wait_pid once the termination of c, a child of p, is known. */
  function FinishWaitPid(k: Kernel, p: Pid, c: Pid): Kernel {
    if p !in k.table then Reap(k, p, c)
    else
      var k1 := SemTryWait(k, ChildTerminated(p));
      var pcb := k1.table[p].(terminatedChildren := Remove(k1.table[p].terminatedChildren, c));
      Reap(k1.(table := k1.table[p := pcb]), p, c)
  }

  /** wait_pid by whoever is current; its bookkeeping is that of the parent of c, as read before the wait. */
  function WaitPid(k: Kernel, c: Pid): Kernel {
    if c !in k.table || k.current !in k.table || Terminated(c) !in k.sems then k
    else
      var k' := SemWait(k, Terminated(c), InWaitPid(c));
      if WaitPasses(k.sems[Terminated(c)]) then FinishWaitPid(k', k.table[c].ppid, c) else k'
  }

  function ClearCall(k: Kernel, p: Pid): Kernel
    requires p in k.table
  {
    k.(table := k.table[p := k.table[p].(call := NoCall)])
  }

  /** The current process, dispatched again, finishes the call it was blocked in; only a parent blocks in wait_pid. */
  function Resume(k: Kernel): Kernel {
    if k.current !in k.table then k
    else
      match k.table[k.current].call
      case NoCall => k
      case InWaitAny => ReapFirst(ClearCall(k, k.current), k.current)
      case InWaitPid(c) => FinishWaitPid(ClearCall(k, k.current), k.current, c)
  }

  function ReapTimes(k: Kernel, n: nat): Kernel
    decreases n
  {
    if n == 0 || k.current !in k.table then k
    else ReapTimes(ReapFirst(SemTryWait(k, ChildTerminated(k.current)), k.current), n - 1)
  }

  /** reap_zombies: as often as childTerminated has units. */
  function ReapZombies(k: Kernel): Kernel {
    if ChildTerminated(k.current) in k.sems then ReapTimes(k, Units(k.sems[ChildTerminated(k.current)])) else k
  }

  // ----- stopping, continuing, priorities

  function SetBlocked(k: Kernel, p: Pid): Kernel {
    if p == IDLE_PID || p == INIT_PID then k
    else if InState(k, p, READY) then SetState(k, p, BLOCKED).(ready := Remove(k.ready, p))
    else if InState(k, p, RUNNING) then SetState(k, p, BLOCKED)
    else k
  }

  function SetPriority(k: Kernel, p: Pid, priority: nat): Kernel {
    if p in k.table && priority > 0 then
      k.(table := k.table[p := k.table[p].(priority := priority, remaining := priority)])
    else k
  }

  // ----- steps

  datatype Step =
    | Tick                                   // the timer, or a forced scheduler call
    | StartProcess(priority: nat)
    | WaitOn(id: int)
    | PostOn(id: int)
    | TryWaitOn(id: int)
    | Stop(pid: Pid)
    | Continue(pid: Pid)
    | Nice(pid: Pid, priority: nat)
    | Kill(pid: Pid)
    | WaitForPid(pid: Pid)
    | WaitForAny
    | ReapAll
    | Finish                                 // of the call the current process was blocked in
    | NewSemaphore(id: int, value: nat)

  predicate Queued(k: Kernel, p: Pid) {
    exists id :: id in k.sems && p in k.sems[id].queue
  }

  predicate Waits(k: Kernel, p: Pid, id: SemId) {
    id in k.sems && p in k.sems[id].queue
  }

  predicate Announced(k: Kernel, c: Pid) {
    Terminated(c) in k.sems && k.sems[Terminated(c)].value > 0
  }

  /** A process that was granted its wait_any but has not run since. */
  predicate Granted(k: Kernel, p: Pid) {
    p in k.table && k.table[p].call == InWaitAny && !Waits(k, p, ChildTerminated(p))
  }

  /** The parent p of the zombie c has neither a grant that only c can settle nor a wait_pid for c to finish. */
  predicate CanSpare(k: Kernel, p: Pid, c: Pid) {
    && p in k.table && k.table[p].call != InWaitPid(c)
    && (Granted(k, p) ==> ChildTerminated(p) in k.sems && k.sems[ChildTerminated(p)].value > 0)
  }

  /** When wait_pid is safe: nobody else is about to reap the announced zombie, or the caller is the parent of a live
      child. */
  predicate MayWaitFor(k: Kernel, c: Pid) {
    c in k.table ==>
      if Announced(k, c) then CanSpare(k, k.table[c].ppid, c)
      else c != IDLE_PID && c != INIT_PID && k.table[c].ppid == k.current && !InState(k, c, ZOMBIE)
  }

  /** When a step can happen: a current process that was just stopped or killed is followed by the scheduler,
      a process that was blocked in a call first finishes it, and the restrictions listed in the README hold. */
  predicate CanStep(k: Kernel, s: Step) {
    s.Tick? || (
      && InState(k, k.current, RUNNING)
      && (s.Finish? <==> k.table[k.current].call != NoCall)
      && match s
         case StartProcess(priority) => priority > 0 && k.current != IDLE_PID && !Queued(k, FreePidFrom(k, 0))
         case WaitOn(id) => k.current != IDLE_PID && Other(id) in k.sems
         case Continue(p) => p != IDLE_PID && p != INIT_PID && !Queued(k, p)
         case Kill(p) => !InState(k, p, ZOMBIE)
         case WaitForPid(p) => MayWaitFor(k, p)
         case WaitForAny => k.current != IDLE_PID
         case NewSemaphore(id, _) => Other(id) !in k.sems
         case _ => true)
  }

  function Next(k: Kernel, s: Step): Kernel
    requires CanStep(k, s)
  {
    match s
    case Tick => Schedule(k)
    case StartProcess(priority) => Start(k, priority)
    case WaitOn(id) => SemWait(k, Other(id), NoCall)
    case PostOn(id) => SemPost(k, Other(id))
    case TryWaitOn(id) => SemTryWait(k, Other(id))
    case Stop(p) => SetBlocked(k, p)
    case Continue(p) => MakeReady(k, p)
    case Nice(p, priority) => SetPriority(k, p, priority)
    case Kill(p) => Terminate(k, p)
    case WaitForPid(p) => WaitPid(k, p)
    case WaitForAny => WaitAny(k)
    case ReapAll => ReapZombies(k)
    case Finish => Resume(k)
    case NewSemaphore(id, value) => k.(sems := k.sems[Other(id) := Sem(value, [])])
  }
}

/** Bounded waiting: how many scheduler calls a ready process can be kept from the processor. */
module KernelFairness {
  import opened Semaphores
  import opened Sequences
  import opened KernelState
  import opened KernelInvariant
  import opened KernelSteps
  import opened KernelReaping
  import opened KernelStart
  import opened KernelRuns

  /** The processes queued before p. */
  function Ahead(q: seq<Pid>, p: Pid): seq<Pid> {
    if q == [] || q[0] == p then [] else [q[0]] + Ahead(q[1..], p)
  }

  function Priority(k: Kernel, p: Pid): nat {
    if p in k.table then k.table[p].priority else 0
  }

  function PrioritySum(k: Kernel, q: seq<Pid>): nat {
    if q == [] then 0 else Priority(k, q[0]) + PrioritySum(k, q[1..])
  }

  /** The quanta the current process has left, if it runs. */
  function Turn(k: Kernel): nat {
    if InState(k, k.current, RUNNING) then k.table[k.current].remaining else 0
  }

  /** In how many scheduler calls p is dispatched at the latest. */
  function Bound(k: Kernel, p: Pid): nat {
    Turn(k) + 1 + PrioritySum(k, Ahead(k.ready, p))
  }

  lemma {:induction false} AheadAppend(q: seq<Pid>, t: seq<Pid>, p: Pid)
    requires p in q
    ensures Ahead(q + t, p) == Ahead(q, p)
  {
    if q[0] != p {
      assert (q + t)[1..] == q[1..] + t;
      AheadAppend(q[1..], t, p);
    }
  }

  lemma {:induction false} AheadMembers(q: seq<Pid>, p: Pid)
    ensures forall x :: x in Ahead(q, p) ==> x in q && x != p
  {
    if q != [] && q[0] != p {
      AheadMembers(q[1..], p);
    }
  }

  /** Nobody's bound grows when someone else leaves the queue. */
  lemma {:induction false} SumWithout(k: Kernel, q: seq<Pid>, x: Pid, p: Pid)
    requires x != p && p in q
    ensures p in Remove(q, x) && PrioritySum(k, Ahead(Remove(q, x), p)) <= PrioritySum(k, Ahead(q, p))
  {
    if q[0] != p {
      SumWithout(k, q[1..], x, p);
      if q[0] != x {
        assert Remove(q, x) == [q[0]] + Remove(q[1..], x);
      } else {
        assert Remove(q, x) == Remove(q[1..], x);
      }
    } else {
      assert Remove(q, x) == [q[0]] + Remove(q[1..], x);
    }
  }

  /** Priorities of the listed processes did not grow. */
  lemma {:induction false} SumFrame(k: Kernel, k': Kernel, q: seq<Pid>)
    requires forall x :: x in q ==> Priority(k', x) <= Priority(k, x)
    ensures PrioritySum(k', q) <= PrioritySum(k, q)
  {
    if q != [] {
      assert q[0] in q;
      SumFrame(k, k', q[1..]);
    }
  }

  /** Priorities and quanta stay, and nobody starts running. */
  ghost predicate Tame(k: Kernel, k': Kernel) {
    && k'.current == k.current
    && forall q :: q in k'.table && q in k.table ==>
         && k'.table[q].priority == k.table[q].priority && k'.table[q].remaining == k.table[q].remaining
         && (k'.table[q].state == RUNNING ==> k.table[q].state == RUNNING)
  }

  /** p stays queued and its bound does not grow. */
  ghost predicate NoLater(k: Kernel, k': Kernel, p: Pid) {
    p in k'.ready && Bound(k', p) <= Bound(k, p)
  }

  lemma TameIsNoLater(k: Kernel, k': Kernel, p: Pid, t: seq<Pid>)
    requires Tame(k, k') && p in k.ready && (forall q :: q in k.ready ==> q in k.table)
    requires k'.ready == k.ready + t && (k.current in k'.table ==> k.current in k.table)
    ensures NoLater(k, k', p)
  {
    AheadAppend(k.ready, t, p);
    AheadMembers(k.ready, p);
    SumFrame(k, k', Ahead(k.ready, p));
  }

  lemma TameRemovalIsNoLater(k: Kernel, k': Kernel, p: Pid, x: Pid)
    requires Tame(k, k') && p in k.ready && p != x && (forall q :: q in k.ready ==> q in k.table)
    requires k'.ready == Remove(k.ready, x) && (k.current in k'.table ==> k.current in k.table)
    ensures NoLater(k, k', p)
  {
    SumWithout(k, k.ready, x, p);
    AheadMembers(k'.ready, p);
    RemoveMembers(k.ready, x);
    SumFrame(k, k', Ahead(k'.ready, p));
  }

  predicate ReadyInTable(k: Kernel) {
    forall q :: q in k.ready ==> q in k.table
  }

  lemma PostIsNoLater(k: Kernel, id: SemId, p: Pid)
    requires p in k.ready && ReadyInTable(k)
    ensures NoLater(k, SemPost(k, id), p) && ReadyInTable(SemPost(k, id))
  {
    var k' := SemPost(k, id);
    var w := if id in k.sems then Post(k.sems[id], Blocked(k)).woken else NOBODY;
    var t := if id in k.sems && InState(k, w, BLOCKED) then [w] else [];
    assert k'.ready == k.ready + t;
    TameIsNoLater(k, k', p, t);
  }

  lemma ZombieIsNoLater(k: Kernel, x: Pid, p: Pid)
    requires p in k.ready && ReadyInTable(k) && x in k.table && p != x
    ensures NoLater(k, MakeZombie(k, x), p) && ReadyInTable(MakeZombie(k, x))
  {
    RemoveMembers(k.ready, x);
    TameRemovalIsNoLater(k, MakeZombie(k, x), p, x);
  }

  lemma AppendIsNoLater(k: Kernel, q: Pid, c: Pid, p: Pid)
    requires p in k.ready && ReadyInTable(k)
    ensures NoLater(k, AppendTerminated(k, q, c), p) && ReadyInTable(AppendTerminated(k, q, c))
  {
    var k' := AppendTerminated(k, q, c);
    assert k'.ready == k.ready + [];
    TameIsNoLater(k, k', p, []);
  }

  lemma TransferFirstIsNoLater(k: Kernel, x: Pid, p: Pid)
    requires p in k.ready && ReadyInTable(k)
    ensures NoLater(k, TransferFirst(k, x), p) && ReadyInTable(TransferFirst(k, x))
  {
    var k1 := MoveFirstChild(k, x);
    assert k1.ready == k.ready + [];
    MoveIsTame(k, x);
    TameIsNoLater(k, k1, p, []);
    var c := if x in k.table && k.table[x].children != [] then k.table[x].children[0] else 0;
    AppendIsNoLater(k1, INIT_PID, c, p);
    PostIsNoLater(AppendTerminated(k1, INIT_PID, c), ChildTerminated(INIT_PID), p);
  }

  lemma MoveIsTame(k: Kernel, x: Pid)
    ensures Tame(k, MoveFirstChild(k, x)) && MoveFirstChild(k, x).ready == k.ready
    ensures MoveFirstChild(k, x).table.Keys == k.table.Keys
  {
  }

  lemma {:induction false} TransferTimesIsNoLater(k: Kernel, x: Pid, n: nat, p: Pid)
    requires p in k.ready && ReadyInTable(k)
    ensures NoLater(k, TransferTimes(k, x, n), p)
    decreases n
  {
    if n > 0 {
      TransferFirstIsNoLater(k, x, p);
      TransferTimesIsNoLater(TransferFirst(k, x), x, n - 1, p);
    }
  }

  lemma KillIsNoLater(k: Kernel, x: Pid, p: Pid)
    requires p in k.ready && ReadyInTable(k) && p != x
    ensures NoLater(k, Terminate(k, x), p)
  {
    if Killable(k, x) {
      var q, z := k.table[x].ppid, MakeZombie(k, x);
      ZombieIsNoLater(k, x, p);
      PostIsNoLater(z, Terminated(x), p);
      var k1 := SemPost(z, Terminated(x));
      PostIsNoLater(k1, ChildTerminated(q), p);
      var k2 := SemPost(k1, ChildTerminated(q));
      AppendIsNoLater(k2, q, x, p);
      var k3 := AppendTerminated(k2, q, x);
      if x in k3.table {
        TransferTimesIsNoLater(k3, x, |k3.table[x].children|, p);
      }
    }
  }

  lemma ForgetIsNoLater(k: Kernel, q: Pid, c: Pid, rest: seq<Pid>, p: Pid)
    requires p in k.ready && ReadyInTable(k) && q in k.table
    ensures NoLater(k, Forget(k, q, c, rest), p)
  {
    var k' := Forget(k, q, c, rest);
    assert k'.ready == k.ready + [];
    TameIsNoLater(k, k', p, []);
  }

  lemma TryWaitIsNoLater(k: Kernel, id: SemId, p: Pid)
    requires p in k.ready && ReadyInTable(k)
    ensures NoLater(k, SemTryWait(k, id), p) && ReadyInTable(SemTryWait(k, id))
  {
    var k' := SemTryWait(k, id);
    assert k'.ready == k.ready + [];
    TameIsNoLater(k, k', p, []);
  }

  lemma WaitIsNoLater(k: Kernel, id: SemId, call: Call, p: Pid)
    requires p in k.ready && ReadyInTable(k) && id in k.sems && k.current in k.table
    ensures NoLater(k, SemWait(k, id, call), p) && ReadyInTable(SemWait(k, id, call))
  {
    var k' := SemWait(k, id, call);
    assert k'.ready == k.ready + [];
    TameIsNoLater(k, k', p, []);
  }

  lemma ReapFirstIsNoLater(k: Kernel, q: Pid, p: Pid)
    requires p in k.ready && ReadyInTable(k)
    ensures NoLater(k, ReapFirst(k, q), p)
  {
    if q in k.table {
      var ts := k.table[q].terminatedChildren;
      ForgetIsNoLater(k, q, FirstTerminated(k, q), if ts == [] then ts else ts[1..], p);
    }
  }

  lemma FinishWaitPidIsNoLater(k: Kernel, q: Pid, c: Pid, p: Pid)
    requires p in k.ready && ReadyInTable(k)
    ensures NoLater(k, FinishWaitPid(k, q, c), p)
  {
    if q !in k.table {
      assert Reap(k, q, c).ready == k.ready + [];
      TameIsNoLater(k, Reap(k, q, c), p, []);
    } else {
      TryWaitIsNoLater(k, ChildTerminated(q), p);
      FinishWaitPidIsForget(k, q, c);
      ForgetIsNoLater(SemTryWait(k, ChildTerminated(q)), q, c, Remove(k.table[q].terminatedChildren, c), p);
    }
  }

  lemma ClearCallIsNoLater(k: Kernel, q: Pid, p: Pid)
    requires p in k.ready && ReadyInTable(k) && q in k.table
    ensures NoLater(k, ClearCall(k, q), p) && ReadyInTable(ClearCall(k, q))
  {
    assert ClearCall(k, q).ready == k.ready + [];
    TameIsNoLater(k, ClearCall(k, q), p, []);
  }

  lemma WaitAnyIsNoLater(k: Kernel, p: Pid)
    requires p in k.ready && ReadyInTable(k)
    ensures NoLater(k, WaitAny(k), p)
  {
    var id := ChildTerminated(k.current);
    if k.current in k.table && id in k.sems {
      WaitIsNoLater(k, id, InWaitAny, p);
      ReapFirstIsNoLater(SemWait(k, id, InWaitAny), k.current, p);
    } else {
      assert Bound(k, p) <= Bound(k, p);
    }
  }

  lemma WaitPidIsNoLater(k: Kernel, c: Pid, p: Pid)
    requires p in k.ready && ReadyInTable(k)
    ensures NoLater(k, WaitPid(k, c), p)
  {
    if c in k.table && k.current in k.table && Terminated(c) in k.sems {
      WaitIsNoLater(k, Terminated(c), InWaitPid(c), p);
      FinishWaitPidIsNoLater(SemWait(k, Terminated(c), InWaitPid(c)), k.table[c].ppid, c, p);
    }
  }

  /** One turn of reap_zombies. */
  lemma ReapTurnIsNoLater(k: Kernel, p: Pid) returns (k': Kernel)
    requires Good(k) && InState(k, k.current, RUNNING) && k.table[k.current].call == NoCall && p in k.ready
    requires ChildTerminated(k.current) in k.sems && k.sems[ChildTerminated(k.current)].value > 0
    ensures k' == ReapFirst(SemTryWait(k, ChildTerminated(k.current)), k.current) && k'.current == k.current
    ensures Good(k') && InState(k', k'.current, RUNNING) && k'.table[k'.current].call == NoCall && p in k'.ready
    ensures ChildTerminated(k'.current) in k'.sems
    ensures k'.sems[ChildTerminated(k'.current)].value == k.sems[ChildTerminated(k.current)].value - 1
    ensures NoLater(k, k', p)
  {
    var q := k.current;
    var k1 := SemTryWait(k, ChildTerminated(q));
    k' := ReapFirst(k1, q);
    TryWaitIsNoLater(k, ChildTerminated(q), p);
    ReapFirstIsNoLater(k1, q, p);
    TakeChildMakesOwed(k, k1);
    ReapTurn(k1);
  }

  lemma {:induction false} ReapTimesIsNoLater(k: Kernel, n: nat, p: Pid)
    requires Good(k) && InState(k, k.current, RUNNING) && k.table[k.current].call == NoCall && p in k.ready
    requires ChildTerminated(k.current) in k.sems && n == Units(k.sems[ChildTerminated(k.current)])
    ensures NoLater(k, ReapTimes(k, n), p)
    decreases n
  {
    if n > 0 {
      var k' := ReapTurnIsNoLater(k, p);
      ReapTimesIsNoLater(k', n - 1, p);
    }
  }

  lemma StartIsNoLater(k: Kernel, priority: nat, p: Pid)
    requires Good(k) && p in k.ready && InState(k, k.current, RUNNING) && k.current != IDLE_PID
    ensures NoLater(k, Start(k, priority), p)
  {
    var c := FreePidFrom(k, 0);
    if c < MAX_PROCESSES {
      StartIs(k, c, priority);
      TameIsNoLater(k, Start(k, priority), p, [c]);
    }
  }

  lemma StopIsNoLater(k: Kernel, x: Pid, p: Pid)
    requires p in k.ready && ReadyInTable(k) && p != x
    ensures NoLater(k, SetBlocked(k, x), p)
  {
    var k' := SetBlocked(k, x);
    if k'.ready == k.ready {
      assert k'.ready == k.ready + [];
      TameIsNoLater(k, k', p, []);
    } else {
      TameRemovalIsNoLater(k, k', p, x);
    }
  }

  lemma ContinueIsNoLater(k: Kernel, x: Pid, p: Pid)
    requires p in k.ready && ReadyInTable(k)
    ensures NoLater(k, MakeReady(k, x), p)
  {
    var t := if InState(k, x, BLOCKED) then [x] else [];
    assert MakeReady(k, x).ready == k.ready + t;
    TameIsNoLater(k, MakeReady(k, x), p, t);
  }

  /** Whatever others do, a ready process is not put back; only stopping or killing it takes it out of the queue. */
  lemma OtherStepsAreNoLater(k: Kernel, s: Step, p: Pid)
    requires Good(k) && CanStep(k, s) && InState(k, p, READY) && !s.Tick? && !s.Nice?
    requires s != Stop(p) && s != Kill(p)
    ensures NoLater(k, Next(k, s), p)
  {
    assert p in k.ready && ReadyInTable(k);
    match s
    case StartProcess(priority) => StartIsNoLater(k, priority, p);
    case WaitOn(id) => WaitIsNoLater(k, Other(id), NoCall, p);
    case PostOn(id) => PostIsNoLater(k, Other(id), p);
    case TryWaitOn(id) => TryWaitIsNoLater(k, Other(id), p);
    case Stop(x) => StopIsNoLater(k, x, p);
    case Continue(x) => ContinueIsNoLater(k, x, p);
    case Kill(x) => KillIsNoLater(k, x, p);
    case WaitForPid(c) => WaitPidIsNoLater(k, c, p);
    case WaitForAny => WaitAnyIsNoLater(k, p);
    case ReapAll =>
      assert ChildTerminated(k.current) in k.sems;
      ReapTimesIsNoLater(k, Units(k.sems[ChildTerminated(k.current)]), p);
    case Finish =>
      ClearCallIsNoLater(k, k.current, p);
      ReapFirstIsNoLater(ClearCall(k, k.current), k.current, p);
      if k.table[k.current].call.InWaitPid? {
        FinishWaitPidIsNoLater(ClearCall(k, k.current), k.current, k.table[k.current].call.child, p);
      }
    case NewSemaphore(id, value) =>
      assert k.ready == k.ready + [];
      TameIsNoLater(k, Next(k, s), p, []);
  }

  // ----- priority changes

  /** By how much a priority change moves p's bound: the quanta it gives to the running process, or to one queued before
      p, less what that one had.  Anybody else's priority does not matter, nor does p's own. */
  function Shift(k: Kernel, s: Step, p: Pid): int {
    if !s.Nice? || s.pid !in k.table || s.priority == 0 then 0
    else if s.pid == k.current && InState(k, k.current, RUNNING) then s.priority - k.table[s.pid].remaining
    else if s.pid in Ahead(k.ready, p) then s.priority - k.table[s.pid].priority
    else 0
  }

  /** One priority has changed. */
  lemma {:induction false} SumWithOneChange(k: Kernel, k': Kernel, q: seq<Pid>, p: Pid, x: Pid)
    requires NoRepeats(q) && forall y :: y in q && y != x ==> Priority(k', y) == Priority(k, y)
    ensures PrioritySum(k', Ahead(q, p))
        == PrioritySum(k, Ahead(q, p)) + (if x in Ahead(q, p) then Priority(k', x) - Priority(k, x) else 0)
  {
    if q != [] && q[0] != p {
      SumWithOneChange(k, k', q[1..], p, x);
      AheadMembers(q[1..], p);
      assert Ahead(q, p)[1..] == Ahead(q[1..], p);
      assert x in Ahead(q, p) <==> x == q[0] || x in Ahead(q[1..], p);
    }
  }

  lemma PriorityChangeShiftsBound(k: Kernel, x: Pid, priority: nat, p: Pid)
    requires NoRepeats(k.ready) && (InState(k, k.current, RUNNING) ==> k.current !in k.ready)
    ensures Bound(SetPriority(k, x, priority), p) == Bound(k, p) + Shift(k, Nice(x, priority), p)
  {
    AheadMembers(k.ready, p);
    SumWithOneChange(k, SetPriority(k, x, priority), k.ready, p, x);
  }

  lemma PriorityChangeShifts(k: Kernel, x: Pid, priority: nat, p: Pid)
    requires Good(k) && InState(k, p, READY)
    ensures var k' := SetPriority(k, x, priority);
      InState(k', p, READY) && p in k'.ready && Bound(k', p) == Bound(k, p) + Shift(k, Nice(x, priority), p)
  {
    assert p in k.ready;
    PriorityChangeShiftsBound(k, x, priority, p);
  }

  // ----- the scheduler call itself

  lemma DispatchComesCloser(k: Kernel, p: Pid)
    requires p in k.ready && ReadyInTable(k) && k.ready[0] != p && NoRepeats(k.ready)
    requires Priority(k, k.ready[0]) > 0
    ensures var k' := Dispatch(k);
      p in k'.ready && Bound(k', p) == 1 + PrioritySum(k, Ahead(k.ready, p)) - 1
  {
    var h, k' := k.ready[0], Dispatch(k);
    assert k.ready == [h] + k.ready[1..];
    AheadMembers(k.ready[1..], p);
    SamePriorities(k, k', Ahead(k.ready[1..], p));
    assert InState(k', h, RUNNING) && k'.current == h;
    assert Turn(k') == Priority(k, h) - 1;
    assert Ahead(k.ready, p) == [h] + Ahead(k.ready[1..], p);
  }

  lemma {:induction false} SamePriorities(k: Kernel, k': Kernel, q: seq<Pid>)
    requires forall x :: x in q ==> Priority(k', x) == Priority(k, x)
    ensures PrioritySum(k', q) == PrioritySum(k, q)
  {
    if q != [] {
      assert q[0] in q;
      SamePriorities(k, k', q[1..]);
    }
  }

  /** One scheduler call either dispatches p or lowers its bound. */
  lemma TickComesCloser(k: Kernel, p: Pid)
    requires Good(k) && InState(k, p, READY)
    ensures var k' := Schedule(k);
      InState(k', p, RUNNING) || (p in k'.ready && Bound(k', p) < Bound(k, p))
  {
    var c := k.current;
    assert k.ready[0] in k.ready;
    if !InState(k, c, RUNNING) {
      if k.ready[0] != p {
        DispatchComesCloser(k, p);
      }
    } else if k.table[c].remaining > 0 {
      var k' := Schedule(k);
      SamePriorities(k, k', Ahead(k.ready, p));
    } else {
      var k1 := SetState(k, c, READY).(ready := k.ready + [c]);
      AheadAppend(k.ready, [c], p);
      SamePriorities(k, k1, Ahead(k.ready, p));
      RequeueReady(k);
      if k.ready[0] != p {
        DispatchComesCloser(k1, p);
      }
    }
  }

  // ----- runs

  function Ticks(run: seq<Step>): nat {
    if run == [] then 0 else (if run[0].Tick? then 1 else 0) + Ticks(run[1..])
  }

  /** By how much the priority changes of a run move p's bound, all together. */
  ghost function Shifts(k: Kernel, run: seq<Step>, p: Pid): int
    requires Legal(k, run)
    decreases |run|
  {
    if run == [] then 0 else Shift(k, run[0], p) + Shifts(Next(k, run[0]), run[1..], p)
  }

  /** p itself is neither stopped nor killed. */
  ghost predicate Undisturbed(run: seq<Step>, p: Pid) {
    forall i :: 0 <= i < |run| ==> run[i] != Stop(p) && run[i] != Kill(p)
  }

  /** At some point of the run p is running. */
  ghost predicate Dispatched(k: Kernel, run: seq<Step>, p: Pid)
    requires Legal(k, run)
    decreases |run|
  {
    InState(k, p, RUNNING) || (run != [] && Dispatched(Next(k, run[0]), run[1..], p))
  }

  /** A ready process that is neither stopped nor killed is dispatched within Bound scheduler calls, and as many more
      as priority changes hand out to those before it, whatever everybody else does in between. */
  lemma {:induction false} BoundedWaiting(k: Kernel, run: seq<Step>, p: Pid)
    requires Good(k) && Legal(k, run) && InState(k, p, READY) && Undisturbed(run, p)
    requires Ticks(run) >= Bound(k, p) + Shifts(k, run, p)
    ensures Dispatched(k, run, p)
    decreases |run|
  {
    if run != [] {
      var k' := Next(k, run[0]);
      StepKeepsGood(k, run[0]);
      if run[0].Tick? {
        TickComesCloser(k, p);
      } else if run[0].Nice? {
        PriorityChangeShifts(k, run[0].pid, run[0].priority, p);
      } else {
        OtherStepsAreNoLater(k, run[0], p);
      }
      if !InState(k', p, RUNNING) {
        BoundedWaiting(k', run[1..], p);
      }
    }
  }

  /** p runs in every state from here to the end of the run, and nobody changes its priority. */
  ghost predicate KeepsRunning(k: Kernel, run: seq<Step>, p: Pid)
    requires Legal(k, run)
    decreases |run|
  {
    && InState(k, p, RUNNING)
    && (run != [] ==> !(run[0].Nice? && run[0].pid == p) && KeepsRunning(Next(k, run[0]), run[1..], p))
  }

  /** A running process other than idle uses up its quanta and is then put back, so it cannot hold the processor. */
  lemma {:induction false} QuantaRunOut(k: Kernel, run: seq<Step>, p: Pid)
    requires Good(k) && Legal(k, run) && KeepsRunning(k, run, p) && p != IDLE_PID
    ensures Ticks(run) <= k.table[p].remaining
    decreases |run|
  {
    if run != [] {
      var k' := Next(k, run[0]);
      StepKeepsGood(k, run[0]);
      if run[0].Tick? {
        TickUsesQuantum(k, p);
      } else {
        QuantaKept(k, run[0], p);
      }
      QuantaRunOut(k', run[1..], p);
    }
  }

  lemma TickUsesQuantum(k: Kernel, p: Pid)
    requires ReadyOk(k) && InState(k, p, RUNNING) && InState(Schedule(k), p, RUNNING) && p != IDLE_PID
    ensures k.table[p].remaining > 0 && Schedule(k).table[p].remaining == k.table[p].remaining - 1
  {
    if k.table[p].remaining == 0 {
      OutOfQuantaIsReady(k, p);
    }
  }

  /** Idle is queued whenever somebody else runs, so whoever has no quanta left gives way. */
  lemma OutOfQuantaIsReady(k: Kernel, p: Pid)
    requires ReadyOk(k) && InState(k, p, RUNNING) && k.table[p].remaining == 0 && p != IDLE_PID
    ensures InState(Schedule(k), p, READY)
  {
    assert IDLE_PID in k.ready && p == k.current;
    assert k.ready[0] in k.ready && p !in k.ready;
    var k1 := SetState(k, p, READY).(ready := k.ready + [p]);
    assert NextPid(k1) == k.ready[0];
  }

  /** A fresh dispatch gives as many quanta as the priority says, one of them already used. */
  lemma DispatchGivesQuanta(k: Kernel)
    requires Good(k) && Schedule(k).current != k.current
    ensures var k' := Schedule(k);
      InState(k', k'.current, RUNNING) && k'.table[k'.current].remaining == k'.table[k'.current].priority - 1
  {
    TickKeepsGood(k);
    if InState(k, k.current, RUNNING) {
      RequeueReady(k);
    }
  }

  /** No step but a scheduler call or a change of its own priority touches the quanta of the running process. */
  lemma QuantaKept(k: Kernel, s: Step, p: Pid)
    requires p == k.current && CanStep(k, s) && InState(k, p, RUNNING) && !s.Tick? && !(s.Nice? && s.pid == p)
    requires InState(Next(k, s), p, RUNNING)
    ensures Next(k, s).table[p].remaining == k.table[p].remaining
  {
    match s
    case Kill(x) => KillKeepsQuanta(k, x, p);
    case ReapAll =>
      var id := ChildTerminated(k.current);
      ReapTimesKeepsQuanta(k, if id in k.sems then Units(k.sems[id]) else 0, p);
    case WaitForPid(c) => WaitPidKeepsQuanta(k, c, p);
    case Finish => ResumeKeepsQuanta(k, p);
    case StartProcess(priority) =>
    case WaitForAny =>
    case WaitOn(id) =>
    case PostOn(id) =>
    case TryWaitOn(id) =>
    case Stop(x) =>
    case Continue(x) =>
    case Nice(x, priority) =>
    case NewSemaphore(id, value) =>
  }

  lemma WaitPidKeepsQuanta(k: Kernel, c: Pid, p: Pid)
    requires p in k.table
    ensures SameQuanta(k, WaitPid(k, c), p)
  {
  }

  lemma ResumeKeepsQuanta(k: Kernel, p: Pid)
    requires p in k.table
    ensures SameQuanta(k, Resume(k), p)
  {
  }

  predicate SameQuanta(k: Kernel, k': Kernel, p: Pid) {
    p in k'.table && p in k.table ==> k'.table[p].remaining == k.table[p].remaining
  }

  lemma {:induction false} TransferKeepsQuanta(k: Kernel, x: Pid, n: nat, p: Pid)
    requires p in k.table
    ensures p in TransferTimes(k, x, n).table && SameQuanta(k, TransferTimes(k, x, n), p)
    decreases n
  {
    if n > 0 {
      TransferKeepsQuanta(TransferFirst(k, x), x, n - 1, p);
    }
  }

  lemma KillKeepsQuanta(k: Kernel, x: Pid, p: Pid)
    requires p in k.table
    ensures SameQuanta(k, Terminate(k, x), p)
  {
    if Killable(k, x) {
      var k1 := NotifyTermination(k, x, k.table[x].ppid);
      NotifyKeepsQuanta(k, x, k.table[x].ppid, p);
      TransferKeepsQuanta(k1, x, |k1.table[x].children|, p);
    }
  }

  lemma NotifyKeepsQuanta(k: Kernel, x: Pid, q: Pid, p: Pid)
    requires p in k.table && x in k.table
    ensures var k' := NotifyTermination(k, x, q);
      p in k'.table && x in k'.table && SameQuanta(k, k', p)
  {
    PostKeepsQuanta(MakeZombie(k, x), Terminated(x));
    PostKeepsQuanta(SemPost(MakeZombie(k, x), Terminated(x)), ChildTerminated(q));
  }

  lemma PostKeepsQuanta(k: Kernel, id: SemId)
    ensures var k' := SemPost(k, id);
      k'.table.Keys == k.table.Keys && forall p :: p in k.table ==> SameQuanta(k, k', p)
  {
  }

  lemma {:induction false} ReapTimesKeepsQuanta(k: Kernel, n: nat, p: Pid)
    requires p in k.table && p == k.current && p in ReapTimes(k, n).table
    ensures SameQuanta(k, ReapTimes(k, n), p)
    decreases n
  {
    if n > 0 {
      var k1 := ReapFirst(SemTryWait(k, ChildTerminated(k.current)), k.current);
      if p in k1.table {
        ReapTimesKeepsQuanta(k1, n - 1, p);
      }
    }
  }
}

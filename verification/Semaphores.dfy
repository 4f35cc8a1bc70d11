/** The counting semaphore on values: a count and the processes blocked on it, longest waiting first. */
module Semaphores {

  type Pid = int

  datatype Sem = Sem(value: int, queue: seq<Pid>)

  /** The queue is as long as the value is below zero. */
  predicate Balanced(s: Sem) {
    |s.queue| == if s.value < 0 then -s.value else 0
  }

  /** semWait: take a unit, or go to the end of the queue. */
  function Wait(s: Sem, pid: Pid): Sem {
    if s.value - 1 < 0 then Sem(s.value - 1, s.queue + [pid]) else Sem(s.value - 1, s.queue)
  }

  /** Whether semWait returns at once. */
  predicate WaitPasses(s: Sem) {
    s.value > 0
  }

  datatype Posted = Posted(sem: Sem, woken: Pid)

  const NOBODY: Pid := -1

  /** semPost: each waiter that is no longer blocked is dropped and gives its place back to the value. */
  function Post(s: Sem, blocked: set<Pid>): Posted {
    Hand(Sem(s.value + 1, s.queue), blocked)
  }

  function Hand(s: Sem, blocked: set<Pid>): Posted
    decreases |s.queue|
  {
    if s.value <= 0 && s.queue != [] then
      if s.queue[0] in blocked then Posted(Sem(s.value, s.queue[1..]), s.queue[0])
      else Hand(Sem(s.value + 1, s.queue[1..]), blocked)
    else Posted(s, NOBODY)
  }

  /** The index of the longest-waiting process that is still blocked, or the length of the queue. */
  function FirstBlocked(q: seq<Pid>, blocked: set<Pid>): (i: nat)
    ensures i <= |q|
    ensures i < |q| ==> q[i] in blocked
    ensures forall j :: 0 <= j < i ==> q[j] !in blocked
  {
    if q == [] || q[0] in blocked then 0 else 1 + FirstBlocked(q[1..], blocked)
  }

  /** A post goes to the longest-waiting process still blocked, and to the value when there is none;
      the dead waiters in front are dropped, and the queue length matches the value again. */
  lemma PostExact(s: Sem, blocked: set<Pid>)
    requires Balanced(s) && NOBODY !in blocked
    ensures var i, p := FirstBlocked(s.queue, blocked), Post(s, blocked);
      && Balanced(p.sem)
      && (if i < |s.queue| then p.woken == s.queue[i] && p.sem.queue == s.queue[i + 1..] && p.sem.value <= 0
          else p.woken == NOBODY && p.sem.queue == [] && p.sem.value == (if s.value < 0 then 0 else s.value) + 1)
  {
    if s.queue != [] {
      HandExact(Sem(s.value + 1, s.queue), blocked);
    }
  }

  lemma {:induction false} HandExact(s: Sem, blocked: set<Pid>)
    requires s.value <= 0 && |s.queue| == 1 - s.value && NOBODY !in blocked
    ensures var i, p := FirstBlocked(s.queue, blocked), Hand(s, blocked);
      && Balanced(p.sem)
      && (if i < |s.queue| then p.woken == s.queue[i] && p.sem.queue == s.queue[i + 1..] && p.sem.value <= 0
          else p.woken == NOBODY && p.sem.queue == [] && p.sem.value == 1)
    decreases |s.queue|
  {
    if s.queue[0] !in blocked {
      var rest := Sem(s.value + 1, s.queue[1..]);
      if rest.value <= 0 {
        HandExact(rest, blocked);
      }
    }
  }

  /** When every waiter is still blocked a post goes to the head of the queue. */
  lemma PostToHead(s: Sem)
    requires Balanced(s) && NOBODY !in s.queue
    ensures var p := Post(s, set p | p in s.queue);
      if s.queue == [] then p == Posted(Sem(s.value + 1, []), NOBODY)
      else p == Posted(Sem(s.value + 1, s.queue[1..]), s.queue[0])
  {
    var all := set p | p in s.queue;
    PostExact(s, all);
    if s.queue != [] {
      assert s.queue[0] in all && FirstBlocked(s.queue, all) == 0;
    }
  }

  // ----- conservation over any history of waits and posts

  /** One operation on the semaphore, with the processes blocked at that moment. */
  datatype Op = WaitOp(pid: Pid) | PostOp(blocked: set<Pid>) | TryWaitOp

  function TryWait(s: Sem): Sem {
    if s.value > 0 then Sem(s.value - 1, s.queue) else s
  }

  function Apply(s: Sem, op: Op): Sem {
    match op
    case WaitOp(pid) => Wait(s, pid)
    case PostOp(blocked) => Post(s, blocked).sem
    case TryWaitOp => TryWait(s)
  }

  /** Waits granted by one operation: at once, to a woken process, or to a successful try. */
  function Grants(s: Sem, op: Op): nat {
    match op
    case WaitOp(_) => if WaitPasses(s) then 1 else 0
    case PostOp(blocked) => if Post(s, blocked).woken != NOBODY then 1 else 0
    case TryWaitOp => if s.value > 0 then 1 else 0
  }

  function ApplyAll(s: Sem, ops: seq<Op>): Sem
    decreases |ops|
  {
    if ops == [] then s else ApplyAll(Apply(s, ops[0]), ops[1..])
  }

  function TotalGrants(s: Sem, ops: seq<Op>): nat
    decreases |ops|
  {
    if ops == [] then 0 else Grants(s, ops[0]) + TotalGrants(Apply(s, ops[0]), ops[1..])
  }

  function Posts(ops: seq<Op>): nat {
    if ops == [] then 0 else (if ops[0].PostOp? then 1 else 0) + Posts(ops[1..])
  }

  function Units(s: Sem): nat {
    if s.value > 0 then s.value else 0
  }

  /** In every history the queue length is what the value owes, and every unit ever posted was granted or is still
      there. */
  lemma {:induction false} Conservation(s: Sem, ops: seq<Op>)
    requires Balanced(s) && forall i :: 0 <= i < |ops| && ops[i].PostOp? ==> NOBODY !in ops[i].blocked
    ensures Balanced(ApplyAll(s, ops))
    ensures TotalGrants(s, ops) + Units(ApplyAll(s, ops)) == Units(s) + Posts(ops)
    decreases |ops|
  {
    if ops != [] {
      if ops[0].PostOp? {
        PostExact(s, ops[0].blocked);
      }
      Conservation(Apply(s, ops[0]), ops[1..]);
    }
  }
}

/**
 * One shared slot passed from producers to consumers with three semaphores, for any number of processes and any
 * interleaving: a step runs from one semaphore call to the next.
 */
module Mvar {
  import opened Semaphores
  import opened Sequences

  type Value = char

  /** slotLibre, slotOcupado and exclusion. */
  datatype Which = Free | Full | Lock

  /** Where a process is in its loop. */
  datatype At = Start | AwaitsUnit | HasUnit | AwaitsLock | HasLock | Accessed | Unlocked

  datatype Process = Process(producer: bool, at: At)

  datatype Event = Wrote(value: Value) | Took(value: Value)

  datatype State = State(free: Sem, full: Sem, lock: Sem, slotValue: Value, procs: map<Pid, Process>, log: seq<Event>)

  function Get(s: State, w: Which): Sem {
    match w
    case Free => s.free
    case Full => s.full
    case Lock => s.lock
  }

  function Put(s: State, w: Which, sem: Sem): State {
    match w
    case Free => s.(free := sem)
    case Full => s.(full := sem)
    case Lock => s.(lock := sem)
  }

  /** A producer takes the free unit and gives the full one; a consumer the other way round. */
  function Takes(producer: bool): Which {
    if producer then Free else Full
  }

  function Gives(producer: bool): Which {
    Takes(!producer)
  }

  predicate BlockedOn(q: Process, w: Which) {
    (q.at == AwaitsUnit && w == Takes(q.producer)) || (q.at == AwaitsLock && w == Lock)
  }

  function Granted(q: Process): Process {
    if q.at == AwaitsUnit then q.(at := HasUnit) else if q.at == AwaitsLock then q.(at := HasLock) else q
  }

  function MoveTo(s: State, p: Pid, at: At): State
    requires p in s.procs
  {
    s.(procs := s.procs[p := s.procs[p].(at := at)])
  }

  /** sys_sem_wait by p, blocked at waiting if there is no unit. */
  function WaitOn(s: State, w: Which, p: Pid, waiting: At): State
    requires p in s.procs
  {
    var q := s.procs[p].(at := waiting);
    Put(s, w, Wait(Get(s, w), p)).(procs := s.procs[p := if WaitPasses(Get(s, w)) then Granted(q) else q])
  }

  function PostOn(s: State, w: Which): State {
    var posted := Post(Get(s, w), set p | p in Get(s, w).queue);
    var s' := Put(s, w, posted.sem);
    if posted.woken in s.procs then s'.(procs := s.procs[posted.woken := Granted(s.procs[posted.woken])]) else s'
  }

  /** The write or the read of the slot, inside the critical section. */
  function Access(s: State, p: Pid, ch: Value): State
    requires p in s.procs
  {
    var s' := MoveTo(s, p, Accessed);
    if s.procs[p].producer then s'.(slotValue := ch, log := s.log + [Wrote(ch)])
    else s'.(log := s.log + [Took(s.slotValue)])
  }

  predicate CanStep(s: State, p: Pid) {
    p in s.procs && s.procs[p].at != AwaitsUnit && s.procs[p].at != AwaitsLock
  }

  /** p goes on; ch is what it writes if it is a producer about to write. */
  function Next(s: State, p: Pid, ch: Value): State
    requires CanStep(s, p)
  {
    match s.procs[p].at
    case Start => WaitOn(s, Takes(s.procs[p].producer), p, AwaitsUnit)
    case HasUnit => WaitOn(s, Lock, p, AwaitsLock)
    case HasLock => Access(s, p, ch)
    case Accessed => PostOn(MoveTo(s, p, Unlocked), Lock)
    case Unlocked => PostOn(MoveTo(s, p, Start), Gives(s.procs[p].producer))
  }

  /** The semaphores as opened and the workers as created: true marks a producer. */
  function Initial(workers: map<Pid, bool>, slotValue: Value): State {
    State(Sem(1, []), Sem(0, []), Sem(1, []), slotValue, map p | p in workers :: Process(workers[p], Start), [])
  }

  // ----- the invariant

  ghost predicate QueueOk(s: State, w: Which) {
    && Balanced(Get(s, w)) && NoRepeats(Get(s, w).queue)
    && (forall p :: p in Get(s, w).queue <==> p in s.procs && BlockedOn(s.procs[p], w))
  }

  ghost predicate QueuesOk(s: State) {
    (forall w :: QueueOk(s, w)) && NOBODY !in s.procs
  }

  /** Between taking its unit and giving the other one. */
  predicate IsBetween(s: State, p: Pid) {
    p in s.procs && s.procs[p].at != Start && s.procs[p].at != AwaitsUnit
  }

  function Between(s: State): set<Pid> {
    set p | p in s.procs && IsBetween(s, p)
  }

  /** The free unit, the full unit and the processes in between total one; the lock is held by at most that process. */
  ghost predicate UnitsOk(s: State) {
    && Units(s.free) + Units(s.full) + |Between(s)| == 1
    && (forall p :: p in s.procs ==> s.procs[p].at != AwaitsLock)
    && s.lock.value == (if exists p :: HoldsLock(s, p) then 0 else 1)
  }

  predicate HoldsLock(s: State, p: Pid) {
    p in s.procs && (s.procs[p].at == HasLock || s.procs[p].at == Accessed)
  }

  /** Every second event takes what the one before it wrote. */
  predicate Alternates(log: seq<Event>) {
    && (forall i :: 0 <= i < |log| && i % 2 == 0 ==> log[i].Wrote?)
    && (forall i :: 0 <= i < |log| && i % 2 == 1 ==> log[i] == Took(log[i - 1].value))
  }

  /** The last value written has not been taken. */
  predicate Occupied(s: State) {
    |s.log| % 2 == 1
  }

  predicate PastAccess(at: At) {
    at == Accessed || at == Unlocked
  }

  /** Whether the slot is occupied follows from where the unit is. */
  ghost predicate SlotOk(s: State) {
    && (Occupied(s) ==> s.slotValue == s.log[|s.log| - 1].value)
    && (Units(s.free) > 0 ==> !Occupied(s)) && (Units(s.full) > 0 ==> Occupied(s))
    && (forall p :: IsBetween(s, p) ==> (Occupied(s) <==> s.procs[p].producer == PastAccess(s.procs[p].at)))
  }

  ghost predicate Inv(s: State) {
    QueuesOk(s) && UnitsOk(s) && Alternates(s.log) && SlotOk(s)
  }

  // ----- units and processes in between

  lemma OnlyOneBetween(s: State, p: Pid, q: Pid)
    requires UnitsOk(s) && IsBetween(s, p) && IsBetween(s, q)
    ensures p == q && Units(s.free) == 0 && Units(s.full) == 0 && Between(s) == {p}
  {
    var rest := Between(s) - {p};
    assert Between(s) == rest + {p};
    assert |rest| == 0;
    assert rest == {};
    assert q in Between(s);
  }

  lemma NobodyBetween(s: State, p: Pid)
    requires UnitsOk(s) && (Units(s.free) > 0 || Units(s.full) > 0)
    ensures !IsBetween(s, p) && Between(s) == {}
  {
    assert |Between(s)| == 0;
    assert Between(s) == {};
    assert IsBetween(s, p) ==> p in Between(s);
  }

  /** A post wakes the process at the head of the queue, or adds a unit when nobody waits. */
  ghost predicate PostEffect(s: State, w: Which, s': State, h: Pid) {
    var sem := Get(s, w);
    if sem.queue == [] then h == NOBODY && s' == Put(s, w, Sem(sem.value + 1, []))
    else
      && h == sem.queue[0] && h in s.procs && BlockedOn(s.procs[h], w)
      && s' == Put(s, w, Sem(sem.value + 1, sem.queue[1..])).(procs := s.procs[h := Granted(s.procs[h])])
  }

  lemma PostIs(s: State, w: Which) returns (h: Pid)
    requires QueuesOk(s)
    ensures PostEffect(s, w, PostOn(s, w), h)
  {
    assert QueueOk(s, w);
    var sem := Get(s, w);
    PostToHead(sem);
    h := if sem.queue == [] then NOBODY else sem.queue[0];
  }

  lemma PostKeepsQueues(s: State, w: Which, s': State, h: Pid)
    requires QueuesOk(s) && PostEffect(s, w, s', h)
    ensures QueuesOk(s')
  {
    assert QueueOk(s, w);
    var q := Get(s, w).queue;
    assert q != [] ==> q == [q[0]] + q[1..];
    forall v
      ensures QueueOk(s', v)
    {
      assert QueueOk(s, v);
    }
  }

  /** Moving a process that is not blocked to a place where it is not blocked. */
  lemma MoveKeepsQueues(s: State, p: Pid, at: At)
    requires QueuesOk(s) && CanStep(s, p) && at != AwaitsUnit && at != AwaitsLock
    ensures QueuesOk(MoveTo(s, p, at))
  {
    var t := MoveTo(s, p, at);
    forall v
      ensures QueueOk(t, v)
    {
      assert QueueOk(s, v);
    }
  }

  lemma WaitKeepsQueues(s: State, w: Which, p: Pid, waiting: At)
    requires QueuesOk(s) && CanStep(s, p) && BlockedOn(s.procs[p].(at := waiting), w)
    ensures QueuesOk(WaitOn(s, w, p, waiting))
  {
    var t := WaitOn(s, w, p, waiting);
    forall v
      ensures QueueOk(t, v)
    {
      assert QueueOk(s, v);
      assert p !in Get(s, v).queue;
    }
  }

  // ----- each step

  /** Waiting for a unit: it is there and p is now in between, or p sleeps. */
  lemma StartKeepsInv(s: State, p: Pid)
    requires Inv(s) && p in s.procs && s.procs[p].at == Start
    ensures Inv(WaitOn(s, Takes(s.procs[p].producer), p, AwaitsUnit))
  {
    var w := Takes(s.procs[p].producer);
    var t := WaitOn(s, w, p, AwaitsUnit);
    WaitKeepsQueues(s, w, p, AwaitsUnit);
    assert forall q :: HoldsLock(t, q) <==> HoldsLock(s, q);
    if WaitPasses(Get(s, w)) {
      NobodyBetween(s, p);
      assert Between(t) == {p};
      forall q | IsBetween(t, q)
        ensures q == p
      {
        NobodyBetween(s, q);
      }
    } else {
      assert Between(t) == Between(s);
      assert forall q :: IsBetween(t, q) ==> IsBetween(s, q) && t.procs[q] == s.procs[q];
    }
  }

  /** Nobody else is in between, so the lock is free: a process never sleeps on it. */
  lemma LockKeepsInv(s: State, p: Pid)
    requires Inv(s) && p in s.procs && s.procs[p].at == HasUnit
    ensures Inv(WaitOn(s, Lock, p, AwaitsLock))
    ensures WaitPasses(s.lock)
  {
    var t := WaitOn(s, Lock, p, AwaitsLock);
    WaitKeepsQueues(s, Lock, p, AwaitsLock);
    forall q | HoldsLock(s, q)
      ensures false
    {
      OnlyOneBetween(s, p, q);
    }
    assert HoldsLock(t, p);
    assert Between(t) == Between(s);
    OnlyPStays(s, t, p);
  }

  /** When only p, in between before and after, has moved, it is the only one in between. */
  lemma OnlyPStays(s: State, t: State, p: Pid)
    requires UnitsOk(s) && IsBetween(s, p) && p in t.procs && t.procs == s.procs[p := t.procs[p]]
    ensures forall q :: IsBetween(t, q) ==> q == p
  {
    forall q | IsBetween(t, q)
      ensures q == p
    {
      if q != p {
        assert IsBetween(s, q);
        OnlyOneBetween(s, p, q);
      }
    }
  }

  lemma AccessKeepsInv(s: State, p: Pid, ch: Value)
    requires Inv(s) && p in s.procs && s.procs[p].at == HasLock
    ensures Inv(Access(s, p, ch))
  {
    var t := Access(s, p, ch);
    var m := MoveTo(s, p, Accessed);
    MoveKeepsQueues(s, p, Accessed);
    assert forall w :: QueueOk(m, w) ==> QueueOk(t, w);
    OnlyOneBetween(s, p, p);
    OnlyPStays(s, t, p);
    assert Between(t) == Between(s);
    assert HoldsLock(s, p) && HoldsLock(t, p);
    assert |t.log| == |s.log| + 1;
    assert forall i :: 0 <= i < |s.log| ==> t.log[i] == s.log[i];
  }

  lemma UnlockKeepsInv(s: State, p: Pid)
    requires Inv(s) && p in s.procs && s.procs[p].at == Accessed
    ensures Inv(PostOn(MoveTo(s, p, Unlocked), Lock))
  {
    var m := MoveTo(s, p, Unlocked);
    MoveKeepsQueues(s, p, Unlocked);
    assert HoldsLock(s, p);
    assert QueueOk(m, Lock);
    var h := PostIs(m, Lock);
    var t := PostOn(m, Lock);
    PostKeepsQueues(m, Lock, t, h);
    OnlyOneBetween(s, p, p);
    OnlyPStays(s, t, p);
    assert Between(t) == Between(s);
    assert forall q :: !HoldsLock(t, q) by {
      assert forall q :: HoldsLock(t, q) ==> IsBetween(t, q);
    }
  }

  /** The unit goes to a sleeping process, which is then the one in between, or to the value. */
  lemma GiveKeepsInv(s: State, p: Pid)
    requires Inv(s) && p in s.procs && s.procs[p].at == Unlocked
    ensures Inv(PostOn(MoveTo(s, p, Start), Gives(s.procs[p].producer)))
  {
    var m, w := MoveTo(s, p, Start), Gives(s.procs[p].producer);
    MoveKeepsQueues(s, p, Start);
    var h := PostIs(m, w);
    PostKeepsQueues(m, w, PostOn(m, w), h);
    LeavingEmpties(s, p);
    if Get(m, w).queue == [] {
      AddUnit(s, m, PostOn(m, w), p, w);
    } else {
      HandUnit(s, m, PostOn(m, w), p, w, h);
    }
  }

  lemma LeavingEmpties(s: State, p: Pid)
    requires UnitsOk(s) && p in s.procs && s.procs[p].at == Unlocked
    ensures s.lock.value == 1 && Units(s.free) == 0 && Units(s.full) == 0
    ensures forall q :: !IsBetween(MoveTo(s, p, Start), q)
  {
    var m := MoveTo(s, p, Start);
    OnlyOneBetween(s, p, p);
    forall q
      ensures !HoldsLock(s, q) && !IsBetween(m, q)
    {
      if q != p && IsBetween(s, q) {
        OnlyOneBetween(s, p, q);
      }
    }
  }

  lemma AddUnit(s: State, m: State, t: State, p: Pid, w: Which)
    requires Inv(s) && p in s.procs && s.procs[p].at == Unlocked && m == MoveTo(s, p, Start)
        && w == Gives(s.procs[p].producer)
    requires QueuesOk(m) && Get(m, w).queue == [] && PostEffect(m, w, t, NOBODY)
    requires Units(s.free) == 0 && Units(s.full) == 0 && s.lock.value == 1 && forall q :: !IsBetween(m, q)
    ensures UnitsOk(t) && Alternates(t.log) && SlotOk(t)
  {
    assert QueueOk(m, w);
    assert Get(m, w).value == 0;
    assert forall q :: IsBetween(t, q) ==> IsBetween(m, q);
    assert Between(t) == {};
    assert forall q :: HoldsLock(t, q) ==> IsBetween(t, q);
    assert IsBetween(s, p);
  }

  lemma HandUnit(s: State, m: State, t: State, p: Pid, w: Which, h: Pid)
    requires Inv(s) && p in s.procs && s.procs[p].at == Unlocked && m == MoveTo(s, p, Start)
        && w == Gives(s.procs[p].producer)
    requires QueuesOk(m) && Get(m, w).queue != [] && PostEffect(m, w, t, h)
    requires Units(s.free) == 0 && Units(s.full) == 0 && s.lock.value == 1 && forall q :: !IsBetween(m, q)
    ensures UnitsOk(t) && Alternates(t.log) && SlotOk(t)
  {
    assert QueueOk(m, w);
    assert m.procs[h] == Process(!s.procs[p].producer, AwaitsUnit);
    assert forall q :: IsBetween(t, q) ==> q == h || IsBetween(m, q);
    assert IsBetween(t, h);
    assert Between(t) == {h};
    assert forall q :: !HoldsLock(t, q) by {
      assert forall q :: HoldsLock(t, q) ==> IsBetween(t, q);
    }
    assert IsBetween(s, p);
  }

  lemma StepKeepsInv(s: State, p: Pid, ch: Value)
    requires Inv(s) && CanStep(s, p)
    ensures Inv(Next(s, p, ch))
  {
    match s.procs[p].at
    case Start => StartKeepsInv(s, p);
    case HasUnit => LockKeepsInv(s, p);
    case HasLock => AccessKeepsInv(s, p, ch);
    case Accessed => UnlockKeepsInv(s, p);
    case Unlocked => GiveKeepsInv(s, p);
  }

  // ----- what each step does

  /** Nobody but p and the process at the head of the queue, who gets the unit, is elsewhere. */
  ghost predicate OthersStay(s: State, s': State, p: Pid, woken: seq<Pid>) {
    && s'.procs.Keys == s.procs.Keys
    && forall r :: r in s.procs && r != p ==> s'.procs[r] == if r in woken then Granted(s.procs[r]) else s.procs[r]
  }

  ghost predicate SlotStays(s: State, s': State) {
    s'.slotValue == s.slotValue && s'.log == s.log
  }

  function Head(q: seq<Pid>): seq<Pid> {
    if q == [] then [] else [q[0]]
  }

  /** A turn of the loop: take the unit or go to the end of its queue, lock, write or read the slot, unlock, and give
      the other unit to the first in its queue, or leave it there. */
  ghost predicate Advances(s: State, p: Pid, ch: Value, s': State) {
    && p in s.procs && p in s'.procs && s'.procs[p].producer == s.procs[p].producer
    && var q, at := s.procs[p], s'.procs[p].at;
       match q.at
       case Start =>
         var sem := Get(s, Takes(q.producer));
         && SlotStays(s, s') && OthersStay(s, s', p, [])
         && at == (if sem.value > 0 then HasUnit else AwaitsUnit)
         && Get(s', Takes(q.producer)) == Sem(sem.value - 1, if sem.value > 0 then sem.queue else sem.queue + [p])
         && Get(s', Gives(q.producer)) == Get(s, Gives(q.producer)) && s'.lock == s.lock
       case HasUnit =>
         && SlotStays(s, s') && OthersStay(s, s', p, []) && at == HasLock
         && s.lock.value == 1 && s'.lock.value == 0 && s'.free == s.free && s'.full == s.full
       case HasLock =>
         && OthersStay(s, s', p, []) && at == Accessed
         && s'.free == s.free && s'.full == s.full && s'.lock == s.lock
         && (if q.producer then s'.slotValue == ch && s'.log == s.log + [Wrote(ch)]
             else s'.slotValue == s.slotValue && s'.log == s.log + [Took(s.slotValue)])
       case Accessed =>
         && SlotStays(s, s') && OthersStay(s, s', p, []) && at == Unlocked
         && s.lock.value == 0 && s'.lock.value == 1 && s'.free == s.free && s'.full == s.full
       case Unlocked =>
         var sem := Get(s, Gives(q.producer));
         && SlotStays(s, s') && OthersStay(s, s', p, Head(sem.queue)) && at == Start
         && Get(s', Gives(q.producer)) == Sem(sem.value + 1, sem.queue[|Head(sem.queue)|..])
         && Get(s', Takes(q.producer)) == Get(s, Takes(q.producer)) && s'.lock == s.lock
       case _ => false
  }

  /** The one process in between finds the lock free, and its own is the only one to give back. */
  lemma StepAdvances(s: State, p: Pid, ch: Value)
    requires Inv(s) && CanStep(s, p)
    ensures Advances(s, p, ch, Next(s, p, ch))
  {
    match s.procs[p].at
    case Start =>
    case HasUnit => LockKeepsInv(s, p);
    case HasLock =>
    case Accessed => UnlockAdvances(s, p);
    case Unlocked => GiveAdvances(s, p);
  }

  lemma UnlockAdvances(s: State, p: Pid)
    requires Inv(s) && p in s.procs && s.procs[p].at == Accessed
    ensures var s' := PostOn(MoveTo(s, p, Unlocked), Lock);
      && p in s'.procs && s'.procs[p] == s.procs[p].(at := Unlocked) && SlotStays(s, s') && OthersStay(s, s', p, [])
      && s.lock.value == 0 && s'.lock.value == 1 && s'.free == s.free && s'.full == s.full
  {
    assert HoldsLock(s, p) && QueueOk(s, Lock);
    MoveKeepsQueues(s, p, Unlocked);
    var h := PostIs(MoveTo(s, p, Unlocked), Lock);
  }

  lemma GiveAdvances(s: State, p: Pid)
    requires Inv(s) && p in s.procs && s.procs[p].at == Unlocked
    ensures var w := Gives(s.procs[p].producer);
      var s', sem := PostOn(MoveTo(s, p, Start), w), Get(s, w);
      && p in s'.procs && s'.procs[p] == s.procs[p].(at := Start) && SlotStays(s, s')
      && OthersStay(s, s', p, Head(sem.queue)) && Get(s', w) == Sem(sem.value + 1, sem.queue[|Head(sem.queue)|..])
      && (forall v :: v != w ==> Get(s', v) == Get(s, v))
  {
    var w := Gives(s.procs[p].producer);
    MoveKeepsQueues(s, p, Start);
    var h := PostIs(MoveTo(s, p, Start), w);
    assert QueueOk(s, w);
  }

  // ----- whole runs

  datatype Step = Step(pid: Pid, ch: Value)

  predicate Legal(s: State, run: seq<Step>)
    decreases |run|
  {
    run == [] || (CanStep(s, run[0].pid) && Legal(Next(s, run[0].pid, run[0].ch), run[1..]))
  }

  function After(s: State, run: seq<Step>): State
    requires Legal(s, run)
    decreases |run|
  {
    if run == [] then s else After(Next(s, run[0].pid, run[0].ch), run[1..])
  }

  lemma {:induction false} RunKeepsInv(s: State, run: seq<Step>)
    requires Inv(s) && Legal(s, run)
    ensures Inv(After(s, run))
    decreases |run|
  {
    if run != [] {
      StepKeepsInv(s, run[0].pid, run[0].ch);
      RunKeepsInv(Next(s, run[0].pid, run[0].ch), run[1..]);
    }
  }

  lemma InitialIsGood(workers: map<Pid, bool>, slotValue: Value)
    requires NOBODY !in workers
    ensures Inv(Initial(workers, slotValue))
  {
    var s := Initial(workers, slotValue);
    assert Between(s) == {};
  }

  function Written(log: seq<Event>): seq<Value> {
    if log == [] then [] else if log[0].Wrote? then [log[0].value] + Written(log[1..]) else Written(log[1..])
  }

  function Taken(log: seq<Event>): seq<Value> {
    if log == [] then [] else if log[0].Took? then [log[0].value] + Taken(log[1..]) else Taken(log[1..])
  }

  lemma {:induction false} TakenIsWritten(log: seq<Event>)
    requires Alternates(log)
    ensures |Written(log)| == |Taken(log)| + |log| % 2
    ensures Taken(log) == Written(log)[..|Taken(log)|]
    decreases |log|
  {
    if |log| >= 2 {
      var rest := log[2..];
      DropPair(log);
      TakenIsWritten(rest);
      assert Written(log) == [log[0].value] + Written(rest);
      assert Taken(log) == [log[0].value] + Taken(rest);
    } else if |log| == 1 {
      assert log[1..] == [];
    }
  }

  /** A log begins with a value written and the same value taken. */
  lemma DropPair(log: seq<Event>)
    requires Alternates(log) && |log| >= 2
    ensures Alternates(log[2..]) && log[1..][1..] == log[2..]
    ensures log[0].Wrote? && log[1..][0] == Took(log[0].value)
  {
    var rest := log[2..];
    assert forall i :: 0 <= i < |rest| ==> rest[i] == log[i + 2];
    forall i | 0 <= i < |rest| && i % 2 == 1
      ensures rest[i] == Took(rest[i - 1].value)
    {
      assert log[i + 2] == Took(log[i + 2 - 1].value);
    }
  }

  /** In every run the free unit, the full unit and the processes in between total one; reads and writes of the
      slot alternate; nobody ever sleeps on the mutex; and the k-th value taken is the k-th value written, with at
      most one value not yet taken. */
  lemma EveryRunHandsOver(workers: map<Pid, bool>, slotValue: Value, run: seq<Step>)
    requires NOBODY !in workers && Legal(Initial(workers, slotValue), run)
    ensures var s := After(Initial(workers, slotValue), run);
      && Units(s.free) + Units(s.full) + |Between(s)| == 1
      && (forall p :: p in s.procs ==> s.procs[p].at != AwaitsLock)
      && Alternates(s.log)
      && |Taken(s.log)| <= |Written(s.log)| <= |Taken(s.log)| + 1
      && Taken(s.log) == Written(s.log)[..|Taken(s.log)|]
  {
    InitialIsGood(workers, slotValue);
    RunKeepsInv(Initial(workers, slotValue), run);
    TakenIsWritten(After(Initial(workers, slotValue), run).log);
  }

  /** With a producer and a consumer somebody can always go on. */
  lemma NoDeadlock(s: State, producer: Pid, consumer: Pid)
    requires Inv(s) && producer in s.procs && consumer in s.procs && s.procs[producer].producer
        && !s.procs[consumer].producer
    ensures exists p :: CanStep(s, p)
  {
    if !CanStep(s, producer) && !CanStep(s, consumer) {
      assert QueueOk(s, Free) && producer in s.free.queue;
      assert QueueOk(s, Full) && consumer in s.full.queue;
      NotEmpty(Between(s));
      var p :| p in Between(s);
      assert CanStep(s, p);
    }
  }

  lemma NotEmpty(pids: set<Pid>)
    requires |pids| > 0
    ensures exists p :: p in pids
  {
    assert (forall p :: p !in pids) ==> pids == {};
  }
}

/** What every reachable state of a pipe satisfies, and how posting and waiting keep it. */
module PipeInvariant {
  import opened Semaphores
  import opened Sequences
  import opened Pipe

  /** The queue of a semaphore holds exactly the processes blocked on it. */
  ghost predicate QueueOk(s: State, w: Which) {
    && Balanced(Get(s, w)) && NoRepeats(Get(s, w).queue)
    && (forall p :: p in Get(s, w).queue <==> p in s.pcs && BlockedOn(s.pcs[p], w))
  }

  ghost predicate QueuesOk(s: State) {
    (forall w :: QueueOk(s, w)) && NOBODY !in s.pcs
  }

  /** Between taking a lock and giving it back. */
  predicate Holds(pc: Pc, w: Which) {
    match w
    case ReadLock => pc.HRead?
    case WriteLock => pc.HWrite? || pc.WSpace? || pc.HSpace?
    case _ => false
  }

  predicate Holder(s: State, p: Pid, w: Which) {
    p in s.pcs && Holds(s.pcs[p], w)
  }

  ghost predicate NoHolder(s: State, w: Which) {
    forall p :: !Holder(s, p, w)
  }

  /** Mutual exclusion: at most one holder, and the lock is free exactly when there is none. */
  ghost predicate LockOk(s: State, w: Which) {
    && (forall p, q :: Holder(s, p, w) && Holder(s, q, w) ==> p == q)
    && (if Get(s, w).value > 0 then Get(s, w).value == 1 && NoHolder(s, w) else !NoHolder(s, w))
  }

  /** A writer past the head of its loop, about to put a byte. */
  predicate Putting(s: State, p: Pid) {
    p in s.pcs && (s.pcs[p].WSpace? || s.pcs[p].HSpace?)
  }

  ghost predicate SomeonePuts(s: State) {
    exists p :: Putting(s, p)
  }

  /** Every place in the buffer is filled, free, or promised to the writer at work. */
  ghost predicate SpaceOk(s: State) {
    && |s.buffer| + s.space.value + (if SomeonePuts(s) then 1 else 0) == PIPE_BUF_SIZE
    && (forall p :: p in s.pcs ==> InBounds(s.pcs[p]))
  }

  predicate InBounds(pc: Pc) {
    match pc
    case HWrite(buf, n, _) => n <= |buf|
    case WSpace(buf, n, _) => n < |buf|
    case HSpace(buf, n, _) => n < |buf|
    case _ => true
  }

  /** A blocking reader that has been granted a unit of data and has not finished with it. */
  predicate HasUnit(pc: Pc) {
    match pc
    case HData(_) => true
    case WRead(_, blocking) => blocking
    case HRead(_, blocking) => blocking
    case _ => false
  }

  predicate UnitHolder(s: State, p: Pid) {
    p in s.pcs && HasUnit(s.pcs[p])
  }

  /** Bytes in the buffer are announced: a unit is available or a reader is on its way with one. */
  ghost predicate AnnouncedOk(s: State) {
    s.buffer != [] ==> s.data.value > 0 || exists p :: UnitHolder(s, p)
  }

  function Flatten(ws: seq<seq<Byte>>): seq<Byte> {
    if ws == [] then [] else Flatten(ws[..|ws| - 1]) + ws[|ws| - 1]
  }

  /** What the write in progress has put so far. */
  function PutSoFar(pc: Pc): seq<Byte>
    requires InBounds(pc)
  {
    match pc
    case HWrite(buf, n, _) => buf[..n]
    case WSpace(buf, n, _) => buf[..n]
    case HSpace(buf, n, _) => buf[..n]
    case _ => []
  }

  /** Bytes come out in the order they went in, and each write's bytes are contiguous. */
  ghost predicate StreamOk(s: State) {
    && s.accepted == s.delivered + s.buffer
    && (NoHolder(s, WriteLock) ==> s.accepted == Flatten(s.writes))
    && (forall p :: Holder(s, p, WriteLock) ==>
        InBounds(s.pcs[p]) && s.accepted == Flatten(s.writes) + PutSoFar(s.pcs[p]))
  }

  function UnitHolders(s: State): set<Pid> {
    set p | p in s.pcs && HasUnit(s.pcs[p])
  }

  /** After the last writer closed nobody writes or sleeps on data, and there are units for all while bytes are left. */
  ghost predicate EofOk(s: State) {
    && |s.pcs| <= MAX_PROCESSES
    && (s.writers == 0 ==>
          && NobodyWrites(s) && s.data.queue == []
          && (s.buffer != [] ==> Units(s.data) + |UnitHolders(s)| >= MAX_PROCESSES))
  }

  ghost predicate Inv(s: State) {
    && QueuesOk(s) && LockOk(s, ReadLock) && LockOk(s, WriteLock) && SpaceOk(s)
    && AnnouncedOk(s) && StreamOk(s) && EofOk(s)
  }

  // ----- posting

  /** A post wakes the process h at the head of the queue, or adds a unit when nobody waits. */
  ghost predicate PostEffect(s: State, w: Which, s': State, h: Pid) {
    var sem := Get(s, w);
    if sem.queue == [] then h == NOBODY && s' == Put(s, w, Sem(sem.value + 1, []))
    else
      && h == sem.queue[0] && h in s.pcs && BlockedOn(s.pcs[h], w)
      && s' == Put(s, w, Sem(sem.value + 1, sem.queue[1..])).(pcs := s.pcs[h := Granted(s.pcs[h])])
  }

  lemma PostIs(s: State, w: Which) returns (h: Pid)
    requires QueuesOk(s)
    ensures PostEffect(s, w, PostOn(s, w), h)
  {
    assert QueueOk(s, w);
    var sem := Get(s, w);
    PostToHead(sem);
    h := if sem.queue == [] then NOBODY else sem.queue[0];
  }

  lemma PostKeepsQueues(s: State, w: Which, s': State, h: Pid)
    requires QueuesOk(s) && PostEffect(s, w, s', h)
    ensures QueuesOk(s')
  {
    assert QueueOk(s, w);
    var q := Get(s, w).queue;
    assert q != [] ==> q == [q[0]] + q[1..];
    forall v
      ensures QueueOk(s', v)
    {
      assert QueueOk(s, v);
    }
  }

  /** A post changes the woken process from blocked to past its wait and nothing else about processes. */
  lemma PostStates(s: State, w: Which, s': State, h: Pid)
    requires QueuesOk(s) && PostEffect(s, w, s', h)
    ensures s'.pcs.Keys == s.pcs.Keys
    ensures forall p :: p in s.pcs && p != h ==> s'.pcs[p] == s.pcs[p]
    ensures h != NOBODY ==> s'.pcs[h] == Granted(s.pcs[h])
    ensures h != NOBODY ==> h in s.pcs && BlockedOn(s.pcs[h], w)
    ensures Get(s', w).value == Get(s, w).value + 1
    ensures forall v :: v != w ==> Get(s', v) == Get(s, v)
    ensures s'.buffer == s.buffer && s'.writers == s.writers && s'.accepted == s.accepted
        && s'.delivered == s.delivered && s'.writes == s.writes
  {
    assert QueueOk(s, w);
  }

  /** Data and space posts change no lock holder. */
  lemma PostKeepsLock(s: State, w: Which, s': State, h: Pid, lock: Which)
    requires QueuesOk(s) && PostEffect(s, w, s', h) && LockOk(s, lock) && w != lock
    ensures LockOk(s', lock)
  {
    PostStates(s, w, s', h);
    assert forall p :: Holder(s', p, lock) <==> Holder(s, p, lock);
  }

  /** A lock whose holder has just left is handed to the first in the queue or becomes free. */
  lemma PostHandsLock(s: State, s': State, h: Pid, lock: Which)
    requires QueuesOk(s) && PostEffect(s, lock, s', h) && (lock == ReadLock || lock == WriteLock)
    requires NoHolder(s, lock) && Get(s, lock).value <= 0
    ensures LockOk(s', lock)
  {
    PostStates(s, lock, s', h);
    assert QueueOk(s, lock);
    assert forall p :: Holder(s', p, lock) ==> p == h || Holder(s, p, lock);
    if h != NOBODY {
      assert Holder(s', h, lock);
    }
  }

  lemma PostKeepsInBounds(s: State, w: Which, s': State, h: Pid)
    requires QueuesOk(s) && PostEffect(s, w, s', h) && forall p :: p in s.pcs ==> InBounds(s.pcs[p])
    ensures forall p :: p in s'.pcs ==> InBounds(s'.pcs[p])
    ensures SomeonePuts(s') <==> SomeonePuts(s)
  {
    PostStates(s, w, s', h);
    assert forall p :: Putting(s', p) <==> Putting(s, p);
  }

  /** A post wakes no reader without giving it a unit, and takes no unit away. */
  lemma PostUnits(s: State, w: Which, s': State, h: Pid)
    requires QueuesOk(s) && PostEffect(s, w, s', h)
    ensures w != Data ==> (forall p :: UnitHolder(s', p) <==> UnitHolder(s, p)) && UnitHolders(s') == UnitHolders(s)
    ensures w == Data ==> (forall p :: UnitHolder(s', p) <==> UnitHolder(s, p) || (h != NOBODY && p == h))
    ensures w == Data ==> Units(s'.data) + |UnitHolders(s')| == Units(s.data) + |UnitHolders(s)| + 1
  {
    PostStates(s, w, s', h);
    assert QueueOk(s, w);
    assert forall p :: p in UnitHolders(s) <==> UnitHolder(s, p);
    assert forall p :: p in UnitHolders(s') <==> UnitHolder(s', p);
    if w == Data && h != NOBODY {
      assert UnitHolders(s') == UnitHolders(s) + {h};
    } else {
      assert UnitHolders(s') == UnitHolders(s);
    }
  }

  lemma PostKeepsStream(s: State, w: Which, s': State, h: Pid)
    requires QueuesOk(s) && PostEffect(s, w, s', h) && StreamOk(s) && w != WriteLock
    ensures StreamOk(s')
  {
    PostStates(s, w, s', h);
    assert forall p :: Holder(s', p, WriteLock) <==> Holder(s, p, WriteLock);
  }

  lemma PostKeepsEof(s: State, w: Which, s': State, h: Pid)
    requires QueuesOk(s) && PostEffect(s, w, s', h) && EofOk(s)
    ensures EofOk(s')
  {
    PostStates(s, w, s', h);
    PostUnits(s, w, s', h);
    assert forall p :: p in s'.pcs ==> (IsWriting(s'.pcs[p]) <==> IsWriting(s.pcs[p]));
    assert s'.pcs.Keys == s.pcs.Keys;
    assert |s'.pcs| == |s'.pcs.Keys| && |s.pcs| == |s.pcs.Keys|;
  }

  // ----- waiting

  /** p, which is not blocked, waits on w: it is past the wait at once if there is a unit. */
  ghost predicate WaitEffect(s: State, w: Which, p: Pid, waiting: Pc, s': State) {
    && p in s.pcs && BlockedOn(waiting, w) && (forall v :: !BlockedOn(s.pcs[p], v))
    && s' == WaitOn(s, w, p, waiting)
  }

  lemma WaitStates(s: State, w: Which, p: Pid, waiting: Pc, s': State)
    requires WaitEffect(s, w, p, waiting, s')
    ensures s'.pcs == s.pcs[p := if Get(s, w).value > 0 then Granted(waiting) else waiting]
    ensures Get(s', w) == Sem(Get(s, w).value - 1, if Get(s, w).value > 0 then Get(s, w).queue
                              else Get(s, w).queue + [p])
    ensures forall v :: v != w ==> Get(s', v) == Get(s, v)
    ensures s'.buffer == s.buffer && s'.writers == s.writers && s'.accepted == s.accepted
        && s'.delivered == s.delivered && s'.writes == s.writes
  {
  }

  lemma WaitKeepsQueues(s: State, w: Which, p: Pid, waiting: Pc, s': State)
    requires QueuesOk(s) && WaitEffect(s, w, p, waiting, s')
    ensures QueuesOk(s')
  {
    WaitStates(s, w, p, waiting, s');
    assert forall v :: QueueOk(s, v);
    forall v
      ensures QueueOk(s', v)
    {
      assert QueueOk(s, v);
      assert p !in Get(s, v).queue;
    }
  }

  lemma WaitKeepsLock(s: State, w: Which, p: Pid, waiting: Pc, s': State, lock: Which)
    requires WaitEffect(s, w, p, waiting, s') && LockOk(s, lock) && w != lock
    requires Holds(s.pcs[p], lock) <==> Holds(s'.pcs[p], lock)
    ensures LockOk(s', lock)
  {
    WaitStates(s, w, p, waiting, s');
    assert forall q :: Holder(s', q, lock) <==> Holder(s, q, lock);
  }

  lemma WaitTakesLock(s: State, p: Pid, waiting: Pc, s': State, lock: Which)
    requires WaitEffect(s, lock, p, waiting, s') && LockOk(s, lock) && (lock == ReadLock || lock == WriteLock)
    requires !Holds(s.pcs[p], lock)
    ensures LockOk(s', lock)
  {
    WaitStates(s, lock, p, waiting, s');
    if Get(s, lock).value > 0 {
      assert forall q :: Holder(s', q, lock) ==> q == p || Holder(s, q, lock);
      assert Holder(s', p, lock);
    } else {
      assert forall q :: Holder(s', q, lock) <==> Holder(s, q, lock);
    }
  }
}

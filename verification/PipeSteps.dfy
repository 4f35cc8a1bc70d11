/** Every step of every process keeps the invariant of the pipe. */
module PipeSteps {
  import opened Semaphores
  import opened Sequences
  import opened Pipe
  import opened PipeInvariant

  // ----- waiting on data or on the read lock

  lemma WaitKeepsSpace(s: State, w: Which, p: Pid, waiting: Pc, s': State)
    requires WaitEffect(s, w, p, waiting, s') && SpaceOk(s) && w != Space
    requires !Putting(s, p) && InBounds(s'.pcs[p]) && !Putting(s', p)
    ensures SpaceOk(s')
  {
    WaitStates(s, w, p, waiting, s');
    assert forall q :: Putting(s', q) <==> Putting(s, q);
  }

  lemma WaitKeepsStream(s: State, w: Which, p: Pid, waiting: Pc, s': State)
    requires WaitEffect(s, w, p, waiting, s') && StreamOk(s)
    requires !Holds(s.pcs[p], WriteLock) && !Holds(s'.pcs[p], WriteLock)
    ensures StreamOk(s')
  {
    WaitStates(s, w, p, waiting, s');
    assert forall q :: Holder(s', q, WriteLock) <==> Holder(s, q, WriteLock);
  }

  /** Taking a unit of data, or sleeping when there is none. */
  lemma WaitDataKeepsAnnounced(s: State, p: Pid, count: nat, s': State)
    requires WaitEffect(s, Data, p, WData(count), s') && AnnouncedOk(s) && !UnitHolder(s, p)
    ensures AnnouncedOk(s')
  {
    WaitStates(s, Data, p, WData(count), s');
    if s.data.value > 0 {
      assert UnitHolder(s', p);
    } else {
      assert forall q :: UnitHolder(s, q) ==> UnitHolder(s', q);
    }
  }

  lemma SubsetSize(a: set<Pid>, b: set<Pid>)
    requires a <= b
    ensures |a| <= |b|
  {
    assert b == a + (b - a);
  }

  /** When nobody can write any more a reader that still finds bytes does not sleep. */
  lemma WaitDataKeepsEof(s: State, p: Pid, count: nat, s': State)
    requires WaitEffect(s, Data, p, WData(count), s') && EofOk(s) && !UnitHolder(s, p) && !IsWriting(s.pcs[p])
    requires s.writers == 0 ==> s.buffer != []
    ensures EofOk(s')
    ensures s.writers == 0 ==> s'.pcs[p] == HData(count)
  {
    WaitStates(s, Data, p, WData(count), s');
    assert s'.pcs.Keys == s.pcs.Keys;
    assert |s'.pcs| == |s'.pcs.Keys| && |s.pcs| == |s.pcs.Keys|;
    if s.writers == 0 {
      assert p !in UnitHolders(s);
      SubsetSize(UnitHolders(s), s.pcs.Keys - {p});
      assert s.data.value > 0;
      assert UnitHolders(s') == UnitHolders(s) + {p};
    }
  }

  lemma WaitDataKeepsInv(s: State, p: Pid, count: nat)
    requires Inv(s) && p in s.pcs && s.pcs[p] == Idle
    requires s.writers == 0 ==> s.buffer != []
    ensures Inv(WaitOn(s, Data, p, WData(count)))
  {
    var s' := WaitOn(s, Data, p, WData(count));
    WaitStates(s, Data, p, WData(count), s');
    WaitKeepsQueues(s, Data, p, WData(count), s');
    WaitKeepsLock(s, Data, p, WData(count), s', ReadLock);
    WaitKeepsLock(s, Data, p, WData(count), s', WriteLock);
    WaitKeepsSpace(s, Data, p, WData(count), s');
    WaitDataKeepsAnnounced(s, p, count, s');
    WaitKeepsStream(s, Data, p, WData(count), s');
    WaitDataKeepsEof(s, p, count, s');
  }

  /** Units stay where they are when a reader goes for a lock. */
  lemma WaitKeepsUnits(s: State, w: Which, p: Pid, waiting: Pc, s': State)
    requires WaitEffect(s, w, p, waiting, s') && w != Data && AnnouncedOk(s) && EofOk(s)
    requires HasUnit(s'.pcs[p]) <==> HasUnit(s.pcs[p])
    requires IsWriting(s'.pcs[p]) ==> s.writers > 0
    ensures AnnouncedOk(s') && EofOk(s')
  {
    WaitStates(s, w, p, waiting, s');
    assert forall q :: UnitHolder(s', q) <==> UnitHolder(s, q);
    assert UnitHolders(s') == UnitHolders(s);
    assert s'.pcs.Keys == s.pcs.Keys;
    assert |s'.pcs| == |s'.pcs.Keys| && |s.pcs| == |s.pcs.Keys|;
  }

  /** A reader goes for the read lock: straight away, or with its unit of data. */
  lemma WaitReadLockKeepsInv(s: State, p: Pid, count: nat, blocking: bool)
    requires Inv(s) && p in s.pcs && (if blocking then s.pcs[p] == HData(count) else s.pcs[p] == Idle)
    ensures Inv(WaitOn(s, ReadLock, p, WRead(count, blocking)))
  {
    var s' := WaitOn(s, ReadLock, p, WRead(count, blocking));
    WaitStates(s, ReadLock, p, WRead(count, blocking), s');
    WaitKeepsQueues(s, ReadLock, p, WRead(count, blocking), s');
    WaitTakesLock(s, p, WRead(count, blocking), s', ReadLock);
    WaitKeepsLock(s, ReadLock, p, WRead(count, blocking), s', WriteLock);
    WaitKeepsSpace(s, ReadLock, p, WRead(count, blocking), s');
    WaitKeepsStream(s, ReadLock, p, WRead(count, blocking), s');
    WaitKeepsUnits(s, ReadLock, p, WRead(count, blocking), s');
  }

  lemma WaitWriteLockKeepsInv(s: State, p: Pid, buf: seq<Byte>, nonblocking: bool)
    requires Inv(s) && p in s.pcs && s.pcs[p] == Idle && s.writers > 0
    ensures Inv(StartWrite(s, p, buf, nonblocking))
  {
    var waiting := WWrite(buf, nonblocking);
    var s' := WaitOn(s, WriteLock, p, waiting);
    WaitStates(s, WriteLock, p, waiting, s');
    WaitKeepsQueues(s, WriteLock, p, waiting, s');
    WaitTakesLock(s, p, waiting, s', WriteLock);
    WaitKeepsLock(s, WriteLock, p, waiting, s', ReadLock);
    WaitKeepsSpace(s, WriteLock, p, waiting, s');
    WaitKeepsUnits(s, WriteLock, p, waiting, s');
    WaitWriteLockKeepsStream(s, p, waiting, s');
  }

  lemma WaitWriteLockKeepsStream(s: State, p: Pid, waiting: Pc, s': State)
    requires WaitEffect(s, WriteLock, p, waiting, s') && StreamOk(s) && LockOk(s, WriteLock) && waiting.WWrite?
        && s.pcs[p] == Idle
    ensures StreamOk(s')
  {
    WaitStates(s, WriteLock, p, waiting, s');
    if s.writeLock.value > 0 {
      assert forall q :: Holder(s', q, WriteLock) ==> q == p || Holder(s, q, WriteLock);
      assert s'.pcs[p] == HWrite(waiting.buf, 0, waiting.nonblocking);
      assert Holder(s', p, WriteLock);
    } else {
      assert forall q :: Holder(s', q, WriteLock) <==> Holder(s, q, WriteLock);
    }
  }

  lemma WaitSpaceKeepsInv(s: State, p: Pid, buf: seq<Byte>, n: nat, nonblocking: bool)
    requires Inv(s) && p in s.pcs && s.pcs[p] == HWrite(buf, n, nonblocking) && n < |buf|
    ensures Inv(WaitOn(s, Space, p, WSpace(buf, n, nonblocking)))
  {
    var waiting := WSpace(buf, n, nonblocking);
    var s' := WaitOn(s, Space, p, waiting);
    WaitStates(s, Space, p, waiting, s');
    WaitKeepsQueues(s, Space, p, waiting, s');
    WaitKeepsLock(s, Space, p, waiting, s', ReadLock);
    WaitKeepsLock(s, Space, p, waiting, s', WriteLock);
    WaitSpaceTakesSpace(s, p, waiting, s');
    assert s.writers > 0 by { assert IsWriting(s.pcs[p]); }
    WaitKeepsUnits(s, Space, p, waiting, s');
    WaitSpaceKeepsStream(s, p, waiting, s');
  }

  lemma WaitSpaceTakesSpace(s: State, p: Pid, waiting: Pc, s': State)
    requires WaitEffect(s, Space, p, waiting, s') && SpaceOk(s) && LockOk(s, WriteLock) && s.pcs[p].HWrite?
    requires waiting == WSpace(s.pcs[p].buf, s.pcs[p].n, s.pcs[p].nonblocking) && s.pcs[p].n < |s.pcs[p].buf|
    ensures SpaceOk(s')
  {
    WaitStates(s, Space, p, waiting, s');
    assert Holder(s, p, WriteLock);
    assert forall q :: Putting(s, q) ==> Holder(s, q, WriteLock);
    assert !SomeonePuts(s);
    assert Putting(s', p);
  }

  lemma WaitSpaceKeepsStream(s: State, p: Pid, waiting: Pc, s': State)
    requires WaitEffect(s, Space, p, waiting, s') && StreamOk(s) && s.pcs[p].HWrite?
    requires waiting == WSpace(s.pcs[p].buf, s.pcs[p].n, s.pcs[p].nonblocking) && s.pcs[p].n < |s.pcs[p].buf|
    ensures StreamOk(s')
  {
    WaitStates(s, Space, p, waiting, s');
    assert Holder(s, p, WriteLock);
    assert forall q :: Holder(s', q, WriteLock) <==> Holder(s, q, WriteLock);
  }

  // ----- putting a byte

  /** The buffer has room whenever a writer has been granted space. */
  lemma GrantedSpaceIsThere(s: State, p: Pid)
    requires QueuesOk(s) && SpaceOk(s) && LockOk(s, WriteLock) && p in s.pcs && s.pcs[p].HSpace?
    ensures |s.buffer| < PIPE_BUF_SIZE
  {
    assert Putting(s, p) && Holder(s, p, WriteLock);
    assert QueueOk(s, Space);
    if s.space.queue != [] {
      var q := s.space.queue[0];
      assert q in s.space.queue;
      assert Holder(s, q, WriteLock);
    }
  }

  /** The state just after the byte went in and before the post. */
  function WithByte(s: State, p: Pid, buf: seq<Byte>, n: nat, nonblocking: bool): State
    requires n < |buf|
  {
    s.(buffer := s.buffer + [buf[n]], accepted := s.accepted + [buf[n]],
       pcs := s.pcs[p := HWrite(buf, n + 1, nonblocking)])
  }

  lemma ByteKeepsSpaceAndLocks(s: State, p: Pid, buf: seq<Byte>, n: nat, nonblocking: bool)
    requires SpaceOk(s) && LockOk(s, ReadLock) && LockOk(s, WriteLock) && p in s.pcs
        && s.pcs[p] == HSpace(buf, n, nonblocking) && n < |buf|
    ensures var s' := WithByte(s, p, buf, n, nonblocking);
      SpaceOk(s') && LockOk(s', ReadLock) && LockOk(s', WriteLock)
  {
    var s' := WithByte(s, p, buf, n, nonblocking);
    assert forall q, w :: Holder(s', q, w) <==> Holder(s, q, w);
    assert Putting(s, p) && Holder(s, p, WriteLock);
    assert forall q :: Putting(s', q) ==> Putting(s, q) && Holder(s, q, WriteLock);
    assert !SomeonePuts(s');
  }

  lemma ByteKeepsQueues(s: State, p: Pid, buf: seq<Byte>, n: nat, nonblocking: bool)
    requires QueuesOk(s) && p in s.pcs && s.pcs[p] == HSpace(buf, n, nonblocking) && n < |buf|
    ensures QueuesOk(WithByte(s, p, buf, n, nonblocking))
  {
    var s' := WithByte(s, p, buf, n, nonblocking);
    forall w
      ensures QueueOk(s', w)
    {
      assert QueueOk(s, w);
    }
  }

  lemma ByteKeepsStream(s: State, p: Pid, buf: seq<Byte>, n: nat, nonblocking: bool)
    requires StreamOk(s) && LockOk(s, WriteLock) && p in s.pcs && s.pcs[p] == HSpace(buf, n, nonblocking) && n < |buf|
    ensures StreamOk(WithByte(s, p, buf, n, nonblocking))
  {
    var s' := WithByte(s, p, buf, n, nonblocking);
    assert Holder(s, p, WriteLock) && Holder(s', p, WriteLock);
    assert forall q :: Holder(s', q, WriteLock) ==> Holder(s, q, WriteLock) && q == p;
    assert buf[..n + 1] == buf[..n] + [buf[n]];
  }

  lemma PutByteKeepsInv(s: State, p: Pid, buf: seq<Byte>, n: nat, nonblocking: bool)
    requires Inv(s) && p in s.pcs && s.pcs[p] == HSpace(buf, n, nonblocking) && n < |buf|
    ensures Inv(PutByte(s, p, buf, n, nonblocking))
  {
    var s1 := WithByte(s, p, buf, n, nonblocking);
    GrantedSpaceIsThere(s, p);
    ByteKeepsSpaceAndLocks(s, p, buf, n, nonblocking);
    ByteKeepsQueues(s, p, buf, n, nonblocking);
    ByteKeepsStream(s, p, buf, n, nonblocking);
    assert s.writers > 0 by { assert IsWriting(s.pcs[p]); }
    assert s1.pcs.Keys == s.pcs.Keys;
    assert |s1.pcs| == |s1.pcs.Keys| && |s.pcs| == |s.pcs.Keys|;
    if s.buffer == [] {
      AnnounceByte(s1);
    } else {
      assert forall q :: UnitHolder(s1, q) <==> UnitHolder(s, q);
    }
  }

  /** The first byte into an empty buffer is announced by a post. */
  lemma AnnounceByte(s: State)
    requires QueuesOk(s) && SpaceOk(s) && LockOk(s, ReadLock) && LockOk(s, WriteLock) && StreamOk(s) && EofOk(s)
    ensures Inv(PostOn(s, Data))
  {
    var s' := PostOn(s, Data);
    var h := PostIs(s, Data);
    PostKeepsQueues(s, Data, s', h);
    PostKeepsLock(s, Data, s', h, ReadLock);
    PostKeepsLock(s, Data, s', h, WriteLock);
    PostKeepsInBounds(s, Data, s', h);
    PostStates(s, Data, s', h);
    PostKeepsStream(s, Data, s', h);
    PostKeepsEof(s, Data, s', h);
    PostAnnounces(s, s', h);
  }

  lemma PostAnnounces(s: State, s': State, h: Pid)
    requires QueuesOk(s) && PostEffect(s, Data, s', h)
    ensures s'.data.value > 0 || exists p :: UnitHolder(s', p)
  {
    PostStates(s, Data, s', h);
    assert QueueOk(s, Data);
    if h != NOBODY {
      assert UnitHolder(s', h);
    }
  }

  // ----- finishing a write

  lemma FinishWriteKeepsInv(s: State, p: Pid, buf: seq<Byte>, n: nat, nonblocking: bool)
    requires Inv(s) && p in s.pcs && s.pcs[p] == HWrite(buf, n, nonblocking) && n <= |buf|
    ensures Inv(FinishWrite(s, p, buf, n))
  {
    var s1 := Leave(s, p).(writes := s.writes + [buf[..n]]);
    LeaveKeepsQueues(s, p);
    assert QueuesOk(s1) by { assert forall w :: QueueOk(Leave(s, p), w) ==> QueueOk(s1, w); }
    var s' := PostOn(s1, WriteLock);
    var h := PostIs(s1, WriteLock);
    PostKeepsQueues(s1, WriteLock, s', h);
    FinishedWrite(s, p, buf, n, nonblocking);
    PostHandsLock(s1, s', h, WriteLock);
    PostKeepsLock(s1, WriteLock, s', h, ReadLock);
    PostKeepsInBounds(s1, WriteLock, s', h);
    PostStates(s1, WriteLock, s', h);
    PostUnits(s1, WriteLock, s', h);
    PostKeepsEof(s1, WriteLock, s', h);
    HandedLockKeepsStream(s1, s', h);
  }

  lemma LeaveKeepsQueues(s: State, p: Pid)
    requires QueuesOk(s) && p in s.pcs && (forall w :: !BlockedOn(s.pcs[p], w))
    ensures QueuesOk(Leave(s, p))
  {
    var s' := Leave(s, p);
    forall w
      ensures QueueOk(s', w)
    {
      assert QueueOk(s, w);
    }
  }

  /** Before the post: the lock is held by nobody, and all bytes belong to finished writes. */
  lemma FinishedWrite(s: State, p: Pid, buf: seq<Byte>, n: nat, nonblocking: bool)
    requires Inv(s) && p in s.pcs && s.pcs[p] == HWrite(buf, n, nonblocking) && n <= |buf|
    ensures var s1 := Leave(s, p).(writes := s.writes + [buf[..n]]);
      && NoHolder(s1, WriteLock) && s1.writeLock.value <= 0 && LockOk(s1, ReadLock) && SpaceOk(s1)
      && AnnouncedOk(s1) && EofOk(s1) && s1.accepted == s1.delivered + s1.buffer && s1.accepted == Flatten(s1.writes)
  {
    var s1 := Leave(s, p).(writes := s.writes + [buf[..n]]);
    assert Holder(s, p, WriteLock);
    assert forall q :: Holder(s1, q, WriteLock) ==> Holder(s, q, WriteLock) && q == p;
    assert forall q :: Holder(s1, q, ReadLock) <==> Holder(s, q, ReadLock);
    assert forall q :: Putting(s1, q) <==> Putting(s, q);
    assert forall q :: UnitHolder(s1, q) <==> UnitHolder(s, q);
    assert s.writers > 0 by { assert IsWriting(s.pcs[p]); }
    assert s1.pcs.Keys == s.pcs.Keys;
    assert |s1.pcs| == |s1.pcs.Keys| && |s.pcs| == |s.pcs.Keys|;
    assert s1.writes[..|s1.writes| - 1] == s.writes;
  }

  lemma HandedLockKeepsStream(s: State, s': State, h: Pid)
    requires QueuesOk(s) && PostEffect(s, WriteLock, s', h) && NoHolder(s, WriteLock)
    requires s.accepted == s.delivered + s.buffer && s.accepted == Flatten(s.writes)
    ensures StreamOk(s')
  {
    PostStates(s, WriteLock, s', h);
    assert forall q :: Holder(s', q, WriteLock) ==> q == h || Holder(s, q, WriteLock);
    if h != NOBODY {
      assert s'.pcs[h].HWrite? && s'.pcs[h].n == 0;
    }
  }

  lemma WriteLoopKeepsInv(s: State, p: Pid, buf: seq<Byte>, n: nat, nonblocking: bool)
    requires Inv(s) && p in s.pcs && s.pcs[p] == HWrite(buf, n, nonblocking) && n <= |buf|
    ensures Inv(WriteLoop(s, p, buf, n, nonblocking).state)
  {
    if n >= |buf| || (nonblocking && |s.buffer| == PIPE_BUF_SIZE) {
      FinishWriteKeepsInv(s, p, buf, n, nonblocking);
    } else {
      WaitSpaceKeepsInv(s, p, buf, n, nonblocking);
    }
  }

  // ----- reading: draining the buffer

  /** The invariant while n of the drained places have not been given back yet. */
  ghost predicate InvShort(s: State, n: nat) {
    && QueuesOk(s) && LockOk(s, ReadLock) && LockOk(s, WriteLock)
    && AnnouncedOk(s) && StreamOk(s) && EofOk(s)
    && |s.buffer| + s.space.value + (if SomeonePuts(s) then 1 else 0) + n == PIPE_BUF_SIZE
    && (forall p :: p in s.pcs ==> InBounds(s.pcs[p]))
  }

  lemma SpacePostKeepsInvShort(s: State, n: nat)
    requires InvShort(s, n) && n > 0
    ensures InvShort(PostOn(s, Space), n - 1)
    ensures PostOn(s, Space).buffer == s.buffer && PostOn(s, Space).delivered == s.delivered
        && PostOn(s, Space).writers == s.writers
    ensures forall p :: p in s.pcs && s.pcs[p].HRead? ==>
        p in PostOn(s, Space).pcs && PostOn(s, Space).pcs[p] == s.pcs[p]
  {
    var s' := PostOn(s, Space);
    var h := PostIs(s, Space);
    PostKeepsQueues(s, Space, s', h);
    PostStates(s, Space, s', h);
    PostKeepsLock(s, Space, s', h, ReadLock);
    PostKeepsLock(s, Space, s', h, WriteLock);
    PostKeepsInBounds(s, Space, s', h);
    PostUnits(s, Space, s', h);
    PostKeepsStream(s, Space, s', h);
    PostKeepsEof(s, Space, s', h);
  }

  lemma {:induction false} SpacePostsKeepInv(s: State, n: nat)
    requires InvShort(s, n)
    ensures var s' := PostTimes(s, Space, n);
      && Inv(s') && s'.buffer == s.buffer && s'.delivered == s.delivered && s'.writers == s.writers
      && (forall p :: p in s.pcs && s.pcs[p].HRead? ==> p in s'.pcs && s'.pcs[p] == s.pcs[p])
    decreases n
  {
    if n > 0 {
      SpacePostKeepsInvShort(s, n);
      SpacePostsKeepInv(PostOn(s, Space), n - 1);
    }
  }

  /** Taking bytes out of the buffer and giving their places back. */
  lemma DrainKeepsInv(s: State, p: Pid, count: nat)
    requires Inv(s) && p in s.pcs && s.pcs[p].HRead?
    ensures var s', n := Drain(s, count), Min(count, |s.buffer|);
      && Inv(s') && s'.buffer == s.buffer[n..] && s'.delivered == s.delivered + s.buffer[..n] && s'.writers == s.writers
      && p in s'.pcs && s'.pcs[p] == s.pcs[p]
  {
    var n := Min(count, |s.buffer|);
    var s0 := s.(buffer := s.buffer[n..], delivered := s.delivered + s.buffer[..n]);
    assert s.buffer == s.buffer[..n] + s.buffer[n..];
    assert forall w :: QueueOk(s, w) ==> QueueOk(s0, w);
    assert forall q, w :: Holder(s0, q, w) <==> Holder(s, q, w);
    assert forall q :: UnitHolder(s0, q) <==> UnitHolder(s, q);
    assert forall q :: Putting(s0, q) <==> Putting(s, q);
    assert UnitHolders(s0) == UnitHolders(s);
    SpacePostsKeepInv(s0, n);
  }

  // ----- reading: giving the lock back

  /** A reader has left its critical section; only the post on the read lock is missing. */
  ghost predicate Left(s: State) {
    && QueuesOk(s) && NoHolder(s, ReadLock) && s.readLock.value <= 0 && LockOk(s, WriteLock)
    && SpaceOk(s) && AnnouncedOk(s) && StreamOk(s) && EofOk(s)
  }

  lemma ReadLockPostKeepsInv(s: State)
    requires Left(s)
    ensures Inv(PostOn(s, ReadLock))
    ensures PostOn(s, ReadLock).writers == s.writers
    ensures forall p :: p in s.pcs && s.pcs[p] == Idle ==>
        p in PostOn(s, ReadLock).pcs && PostOn(s, ReadLock).pcs[p] == Idle
  {
    var s' := PostOn(s, ReadLock);
    var h := PostIs(s, ReadLock);
    PostKeepsQueues(s, ReadLock, s', h);
    PostStates(s, ReadLock, s', h);
    PostHandsLock(s, s', h, ReadLock);
    PostKeepsLock(s, ReadLock, s', h, WriteLock);
    PostKeepsInBounds(s, ReadLock, s', h);
    PostUnits(s, ReadLock, s', h);
    PostKeepsStream(s, ReadLock, s', h);
    PostKeepsEof(s, ReadLock, s', h);
  }

  /** Leaving does not touch writers, and the read lock is then held by nobody. */
  lemma LeaveReading(s: State, p: Pid)
    requires QueuesOk(s) && LockOk(s, ReadLock) && LockOk(s, WriteLock) && SpaceOk(s) && StreamOk(s)
    requires p in s.pcs && s.pcs[p].HRead?
    ensures var s' := Leave(s, p);
      && QueuesOk(s') && NoHolder(s', ReadLock) && s'.readLock.value <= 0 && LockOk(s', WriteLock) && SpaceOk(s')
          && StreamOk(s')
      && (forall q :: UnitHolder(s', q) <==> UnitHolder(s, q) && q != p)
  {
    var s' := Leave(s, p);
    LeaveKeepsQueues(s, p);
    assert Holder(s, p, ReadLock);
    assert forall q :: Holder(s', q, ReadLock) ==> Holder(s, q, ReadLock) && q != p;
    assert forall q :: Holder(s', q, WriteLock) <==> Holder(s, q, WriteLock);
    assert forall q :: Putting(s', q) <==> Putting(s, q);
  }

  lemma LeaveUnits(s: State, p: Pid)
    requires p in s.pcs && !IsWriting(s.pcs[p]) && EofOk(s)
    requires HasUnit(s.pcs[p]) ==>
        s.buffer == [] || (s.writers == 0 ==> Units(s.data) + |UnitHolders(s)| > MAX_PROCESSES)
    ensures EofOk(Leave(s, p))
  {
    var s' := Leave(s, p);
    assert s'.pcs.Keys == s.pcs.Keys;
    assert |s'.pcs| == |s'.pcs.Keys| && |s.pcs| == |s.pcs.Keys|;
    if HasUnit(s.pcs[p]) {
      assert UnitHolders(s) == UnitHolders(s') + {p};
    } else {
      assert UnitHolders(s) == UnitHolders(s');
    }
  }

  /** Leaving an empty buffer, or as a reader that held no unit. */
  lemma LeaveKeepsLeft(s: State, p: Pid)
    requires Inv(s) && p in s.pcs && s.pcs[p].HRead? && (s.buffer == [] || !s.pcs[p].blocking)
    ensures Left(Leave(s, p))
  {
    LeaveReading(s, p);
    LeaveUnits(s, p);
    if s.buffer != [] {
      assert forall q :: UnitHolder(Leave(s, p), q) <==> UnitHolder(s, q);
    }
  }

  /** A blocking reader that leaves bytes behind first passes its unit on. */
  lemma PassUnitOn(s: State, p: Pid)
    requires Inv(s) && p in s.pcs && s.pcs[p].HRead? && s.buffer != [] && s.pcs[p].blocking
    ensures Left(Leave(PostOn(s, Data), p))
  {
    var s1 := PostOn(s, Data);
    var h := PostIs(s, Data);
    PostKeepsQueues(s, Data, s1, h);
    PostStates(s, Data, s1, h);
    PostKeepsLock(s, Data, s1, h, ReadLock);
    PostKeepsLock(s, Data, s1, h, WriteLock);
    PostKeepsInBounds(s, Data, s1, h);
    PostUnits(s, Data, s1, h);
    PostKeepsStream(s, Data, s1, h);
    PostKeepsEof(s, Data, s1, h);
    LeaveReading(s1, p);
    LeaveUnits(s1, p);
    assert QueueOk(s, Data);
    if h != NOBODY {
      assert UnitHolder(Leave(s1, p), h);
    }
  }

  lemma ReadCriticalKeepsInv(s: State, p: Pid, count: nat, blocking: bool)
    requires Inv(s) && p in s.pcs && s.pcs[p] == HRead(count, blocking)
    ensures Inv(ReadCritical(s, p, count, blocking).state)
  {
    if s.buffer != [] {
      var s1 := Drain(s, count);
      DrainKeepsInv(s, p, count);
      if blocking && s1.buffer != [] {
        PassUnitOn(s1, p);
        ReadLockPostKeepsInv(Leave(PostOn(s1, Data), p));
      } else {
        LeaveKeepsLeft(s1, p);
        ReadLockPostKeepsInv(Leave(s1, p));
      }
    } else {
      LeaveKeepsLeft(s, p);
      ReadLockPostKeepsInv(Leave(s, p));
      if s.writers > 0 && blocking {
        WaitDataKeepsInv(PostOn(Leave(s, p), ReadLock), p, count);
      }
    }
  }

  // ----- the last writer closes

  /** After the close, with m of the posts still to come. */
  ghost predicate Closing(s: State, m: nat) {
    && QueuesOk(s) && LockOk(s, ReadLock) && LockOk(s, WriteLock) && SpaceOk(s) && AnnouncedOk(s) && StreamOk(s)
    && s.writers == 0 && NobodyWrites(s) && |s.pcs| <= MAX_PROCESSES
    && |s.data.queue| <= m && Units(s.data) + |UnitHolders(s)| + m >= MAX_PROCESSES
  }

  lemma ClosingPost(s: State, m: nat)
    requires Closing(s, m) && m > 0
    ensures Closing(PostOn(s, Data), m - 1)
  {
    var s' := PostOn(s, Data);
    var h := PostIs(s, Data);
    PostKeepsQueues(s, Data, s', h);
    PostStates(s, Data, s', h);
    PostKeepsLock(s, Data, s', h, ReadLock);
    PostKeepsLock(s, Data, s', h, WriteLock);
    PostKeepsInBounds(s, Data, s', h);
    PostUnits(s, Data, s', h);
    PostKeepsStream(s, Data, s', h);
    PostAnnounces(s, s', h);
    assert forall p :: p in s'.pcs ==> (IsWriting(s'.pcs[p]) <==> IsWriting(s.pcs[p]));
    assert |s'.pcs| == |s'.pcs.Keys| && |s.pcs| == |s.pcs.Keys|;
  }

  /** MAX_PROCESSES posts wake every sleeping reader and leave a unit for everybody else. */
  lemma {:induction false} ClosingPosts(s: State, m: nat)
    requires Closing(s, m)
    ensures Closing(PostTimes(s, Data, m), 0) && Inv(PostTimes(s, Data, m))
    decreases m
  {
    if m > 0 {
      ClosingPost(s, m);
      ClosingPosts(PostOn(s, Data), m - 1);
    }
  }

  lemma {:induction false} QueueSize(q: seq<Pid>, all: set<Pid>)
    requires NoRepeats(q) && forall p :: p in q ==> p in all
    ensures |q| <= |all|
    decreases |q|
  {
    if q != [] {
      assert q[0] in q;
      assert forall p :: p in q[1..] ==> p in q && p != q[0];
      QueueSize(q[1..], all - {q[0]});
      assert |all| == |all - {q[0]}| + 1;
    }
  }

  lemma CloseKeepsInv(s: State)
    requires Inv(s) && (s.writers > 1 || (s.writers == 1 && NobodyWrites(s)))
    ensures Inv(CloseWriter(s))
  {
    var s0 := s.(writers := s.writers - 1);
    assert forall w :: QueueOk(s, w) ==> QueueOk(s0, w);
    assert forall q, w :: Holder(s0, q, w) <==> Holder(s, q, w);
    assert forall q :: UnitHolder(s0, q) <==> UnitHolder(s, q);
    assert forall q :: Putting(s0, q) <==> Putting(s, q);
    if s0.writers <= 0 {
      assert QueueOk(s, Data);
      QueueSize(s.data.queue, s.pcs.Keys);
      assert |s.pcs| == |s.pcs.Keys|;
      assert Closing(s0, MAX_PROCESSES);
      ClosingPosts(s0, MAX_PROCESSES);
    }
  }

  lemma OpenKeepsInv(s: State)
    requires Inv(s) && s.writers > 0
    ensures Inv(s.(writers := s.writers + 1))
  {
    var s0 := s.(writers := s.writers + 1);
    assert forall w :: QueueOk(s, w) ==> QueueOk(s0, w);
    assert forall q, w :: Holder(s0, q, w) <==> Holder(s, q, w);
    assert forall q :: UnitHolder(s0, q) <==> UnitHolder(s, q);
    assert forall q :: Putting(s0, q) <==> Putting(s, q);
  }
}

/** Every interleaving of readers and writers of a pipe. */
module PipeRuns {
  import opened Semaphores
  import opened Sequences
  import opened Pipe
  import opened PipeInvariant
  import opened PipeSteps

  lemma StepKeepsInv(s: State, step: Step)
    requires Inv(s) && CanStep(s, step)
    ensures Inv(Next(s, step).state)
  {
    match step
    case Read(p, count, blocking) =>
      if count > 0 && (if blocking then s.buffer != [] || s.writers > 0 else s.buffer != []) {
        if blocking {
          WaitDataKeepsInv(s, p, count);
        } else {
          WaitReadLockKeepsInv(s, p, count, false);
        }
      }
    case Write(p, buf, nonblocking) => WaitWriteLockKeepsInv(s, p, buf, nonblocking);
    case Go(p) =>
      match s.pcs[p] {
        case HData(count) => WaitReadLockKeepsInv(s, p, count, true);
        case HRead(count, blocking) => ReadCriticalKeepsInv(s, p, count, blocking);
        case HWrite(buf, n, nonblocking) => WriteLoopKeepsInv(s, p, buf, n, nonblocking);
        case HSpace(buf, n, nonblocking) => PutByteKeepsInv(s, p, buf, n, nonblocking);
        case _ =>
      }
    case OpenWriter => OpenKeepsInv(s);
    case Close => CloseKeepsInv(s);
  }

  lemma NewPipeIsGood(pids: set<Pid>)
    requires |pids| <= MAX_PROCESSES && NOBODY !in pids
    ensures Inv(NewPipe(pids))
  {
    var s := NewPipe(pids);
    assert s.pcs.Keys == pids;
    assert |s.pcs| == |s.pcs.Keys|;
    assert forall p, w :: !Holder(s, p, w);
    assert forall p :: !Putting(s, p);
  }

  ghost predicate Legal(s: State, run: seq<Step>)
    decreases |run|
  {
    run != [] ==> CanStep(s, run[0]) && Legal(Next(s, run[0]).state, run[1..])
  }

  ghost function After(s: State, run: seq<Step>): State
    requires Legal(s, run)
    decreases |run|
  {
    if run == [] then s else After(Next(s, run[0]).state, run[1..])
  }

  lemma {:induction false} RunKeepsInv(s: State, run: seq<Step>)
    requires Inv(s) && Legal(s, run)
    ensures Inv(After(s, run))
    decreases |run|
  {
    if run != [] {
      StepKeepsInv(s, run[0]);
      RunKeepsInv(Next(s, run[0]).state, run[1..]);
    }
  }

  /** What the given run has returned to readers, in order. */
  ghost function Received(s: State, run: seq<Step>): seq<Byte>
    requires Legal(s, run)
    decreases |run|
  {
    if run == [] then []
    else
      var o := Next(s, run[0]);
      (if o.ret.Returned? then o.ret.bytes else []) + Received(o.state, run[1..])
  }

  lemma StepDelivers(s: State, step: Step)
    requires Inv(s) && CanStep(s, step)
    ensures var o := Next(s, step);
      o.state.delivered == s.delivered + if o.ret.Returned? then o.ret.bytes else []
  {
    match step
    case Read(_, _, _) =>
    case Write(_, _, _) =>
    case OpenWriter =>
    case Close =>
      if s.writers == 1 {
        PostsDeliverNothing(s.(writers := 0), Data, MAX_PROCESSES);
      }
    case Go(p) =>
      if s.pcs[p].HRead? {
        ReadDelivers(s, p, s.pcs[p].count, s.pcs[p].blocking);
      }
  }

  lemma {:induction false} PostsDeliverNothing(s: State, w: Which, n: nat)
    ensures PostTimes(s, w, n).delivered == s.delivered
    decreases n
  {
    if n > 0 {
      PostsDeliverNothing(PostOn(s, w), w, n - 1);
    }
  }

  lemma ReadDelivers(s: State, p: Pid, count: nat, blocking: bool)
    requires Inv(s) && p in s.pcs && s.pcs[p] == HRead(count, blocking)
    ensures var o := ReadCritical(s, p, count, blocking);
      o.state.delivered == s.delivered + if o.ret.Returned? then o.ret.bytes else []
  {
    if s.buffer != [] {
      DrainKeepsInv(s, p, count);
    }
  }

  /** The first step of a run: the state after it and the bytes it returned. */
  lemma FirstStep(s: State, run: seq<Step>) returns (s': State, bytes: seq<Byte>)
    requires Inv(s) && Legal(s, run) && run != []
    ensures Inv(s') && Legal(s', run[1..]) && After(s, run) == After(s', run[1..])
    ensures Received(s, run) == bytes + Received(s', run[1..]) && s'.delivered == s.delivered + bytes
  {
    var o := Next(s, run[0]);
    StepDelivers(s, run[0]);
    StepKeepsInv(s, run[0]);
    s', bytes := o.state, if o.ret.Returned? then o.ret.bytes else [];
  }

  lemma {:induction false} ReceivedIsDelivered(s: State, run: seq<Step>)
    requires Inv(s) && Legal(s, run)
    ensures After(s, run).delivered == s.delivered + Received(s, run)
    decreases |run|
  {
    if run != [] {
      var s', bytes := FirstStep(s, run);
      ReceivedIsDelivered(s', run[1..]);
      Associate(s.delivered, bytes, Received(s', run[1..]));
    }
  }

  lemma Associate(a: seq<Byte>, b: seq<Byte>, c: seq<Byte>)
    ensures a + b + c == a + (b + c)
  {
  }

  /** The bytes returned by all reads of a run, followed by what is in the buffer, are the bytes of the finished writes
      in order, each write in one piece, and then those of the write in progress. */
  lemma StreamIsCorrect(pids: set<Pid>, run: seq<Step>)
    requires |pids| <= MAX_PROCESSES && NOBODY !in pids && Legal(NewPipe(pids), run)
    ensures var s := After(NewPipe(pids), run);
      var stream := Received(NewPipe(pids), run) + s.buffer;
      && (NoHolder(s, WriteLock) ==> stream == Flatten(s.writes))
      && (forall p :: Holder(s, p, WriteLock) ==>
          InBounds(s.pcs[p]) && stream == Flatten(s.writes) + PutSoFar(s.pcs[p]))
  {
    NewPipeIsGood(pids);
    RunKeepsInv(NewPipe(pids), run);
    ReceivedIsDelivered(NewPipe(pids), run);
    StreamSoFar(After(NewPipe(pids), run), Received(NewPipe(pids), run));
  }

  lemma StreamSoFar(s: State, received: seq<Byte>)
    requires StreamOk(s) && s.delivered == [] + received
    ensures var stream := received + s.buffer;
      && (NoHolder(s, WriteLock) ==> stream == Flatten(s.writes))
      && (forall p :: Holder(s, p, WriteLock) ==>
            InBounds(s.pcs[p]) && stream == Flatten(s.writes) + PutSoFar(s.pcs[p]))
  {
    assert [] + received == received;
  }

  // ----- nobody sleeps for nothing

  /** A process that can go on. */
  predicate Runnable(s: State, p: Pid) {
    p in s.pcs && (s.pcs[p].HData? || s.pcs[p].HRead? || s.pcs[p].HWrite? || s.pcs[p].HSpace?)
  }

  predicate Asleep(s: State, p: Pid, w: Which) {
    p in s.pcs && BlockedOn(s.pcs[p], w)
  }

  /** While bytes are in the buffer, either the next reader will not sleep or some reader can go on:
      readers never all sleep on a nonempty pipe, although only the first byte into an empty pipe is announced. */
  lemma NoLostWakeup(s: State)
    requires Inv(s) && s.buffer != []
    ensures s.data.value > 0 || exists p :: Runnable(s, p) && (s.pcs[p].HData? || s.pcs[p].HRead?)
  {
    if s.data.value <= 0 {
      var p :| UnitHolder(s, p);
      if s.pcs[p].WRead? {
        SleeperOnReadLockHasHolder(s, p);
      } else {
        assert Runnable(s, p);
      }
    }
  }

  lemma SleeperOnReadLockHasHolder(s: State, p: Pid)
    requires Inv(s) && Asleep(s, p, ReadLock)
    ensures exists q :: Runnable(s, q) && s.pcs[q].HRead?
  {
    assert QueueOk(s, ReadLock) && p in s.readLock.queue;
    var q :| Holder(s, q, ReadLock);
    assert Runnable(s, q);
  }

  /** A writer sleeps on space only while the buffer is full. */
  lemma WriterSleepsOnlyOnFullBuffer(s: State, p: Pid)
    requires Inv(s) && Asleep(s, p, Space)
    ensures |s.buffer| == PIPE_BUF_SIZE
  {
    assert QueueOk(s, Space) && p in s.space.queue;
    assert Putting(s, p);
    assert Holder(s, p, WriteLock);
    assert forall q :: q in s.space.queue ==> Holder(s, q, WriteLock);
    TwoElements(s.space.queue);
  }

  lemma TwoElements(q: seq<Pid>)
    requires NoRepeats(q)
    ensures |q| > 1 ==> exists x, y :: x in q && y in q && x != y
  {
    if |q| > 1 {
      assert q[0] in q && q[1] in q && q[0] != q[1];
    }
  }

  /** A reader asleep on data: the buffer is empty or another reader can go on. */
  lemma ReaderSleepsForAReason(s: State, p: Pid)
    requires Inv(s) && Asleep(s, p, Data)
    ensures s.writers > 0
    ensures s.buffer == [] || exists q :: Runnable(s, q) && (s.pcs[q].HData? || s.pcs[q].HRead?)
  {
    assert QueueOk(s, Data) && p in s.data.queue;
    if s.buffer != [] {
      NoLostWakeup(s);
    }
  }

  /** A writer asleep on the write lock: the holder can go on, or itself sleeps on a full buffer. */
  lemma WriteLockHolderCanGoOn(s: State, p: Pid)
    requires Inv(s) && Asleep(s, p, WriteLock)
    ensures exists q ::
      Holder(s, q, WriteLock) && (Runnable(s, q) || (Asleep(s, q, Space) && |s.buffer| == PIPE_BUF_SIZE))
  {
    assert QueueOk(s, WriteLock) && p in s.writeLock.queue;
    var q :| Holder(s, q, WriteLock);
    if !Runnable(s, q) {
      WriterSleepsOnlyOnFullBuffer(s, q);
    }
  }

  // ----- end of file

  /** A blocking read of at least one byte returns 0 only at the end of file: every byte ever accepted has been
      delivered, all of them by finished writes, and no write access is left. */
  lemma ZeroMeansEndOfFile(s: State, step: Step)
    requires Inv(s) && CanStep(s, step) && Next(s, step).ret.Returned? && Next(s, step).ret.value == 0
    requires match step
      case Read(_, count, blocking) => blocking && count > 0
      case Go(p) => s.pcs[p].HRead? && s.pcs[p].blocking && s.pcs[p].count > 0
      case _ => false
    ensures s.buffer == [] && s.writers == 0 && s.delivered == s.accepted == Flatten(s.writes)
  {
    assert NoHolder(s, WriteLock) by {
      assert forall p :: Holder(s, p, WriteLock) ==> p in s.pcs && IsWriting(s.pcs[p]);
    }
  }

  /** Once the last write access is gone no reader sleeps on data, now or later, and nothing more is accepted. */
  lemma {:induction false} AfterCloseNobodySleeps(s: State, run: seq<Step>)
    requires Inv(s) && s.writers == 0 && Legal(s, run)
    ensures var s' := After(s, run);
      s'.writers == 0 && s'.accepted == s.accepted && forall p :: !Asleep(s', p, Data)
    decreases |run|
  {
    assert QueueOk(s, Data);
    if run != [] {
      StepKeepsInv(s, run[0]);
      ClosedStaysClosed(s, run[0]);
      AfterCloseNobodySleeps(Next(s, run[0]).state, run[1..]);
    }
  }

  lemma ClosedStaysClosed(s: State, step: Step)
    requires Inv(s) && s.writers == 0 && CanStep(s, step)
    ensures Next(s, step).state.writers == 0 && Next(s, step).state.accepted == s.accepted
  {
    if step.Go? {
      assert !IsWriting(s.pcs[step.pid]);
      if s.pcs[step.pid].HRead? && s.buffer != [] {
        DrainKeepsInv(s, step.pid, s.pcs[step.pid].count);
        DrainAcceptsNothing(s.(buffer := s.buffer[Min(s.pcs[step.pid].count, |s.buffer|)..],
                               delivered := s.delivered + s.buffer[..Min(s.pcs[step.pid].count, |s.buffer|)]),
                            Min(s.pcs[step.pid].count, |s.buffer|));
      }
    }
  }

  lemma {:induction false} DrainAcceptsNothing(s: State, n: nat)
    ensures PostTimes(s, Space, n).accepted == s.accepted
    decreases n
  {
    if n > 0 {
      DrainAcceptsNothing(PostOn(s, Space), n - 1);
    }
  }
}

/**
 * The pipe as the kernel keeps it: one object with a byte ring and four semaphores, changed in place.
 * Each method runs between two context switches and does exactly what the protocol's step says.
 */
module PipeHeap {
  import opened Semaphores
  import opened Pipe
  import opened CircularBuffer
  import PipeInvariant
  import PipeCalls

  // ----- posting and the bytes are independent of each other

  function WithBytes(s: State, buffer: seq<Byte>, delivered: seq<Byte>): State {
    s.(buffer := buffer, delivered := delivered)
  }

  lemma {:induction false} PostTimesEnd(s: State, w: Which, n: nat)
    ensures PostTimes(s, w, n + 1) == PostOn(PostTimes(s, w, n), w)
    decreases n
  {
    if n > 0 {
      PostTimesEnd(PostOn(s, w), w, n - 1);
    }
  }

  lemma {:induction false} PostTimesLeavesBytes(s: State, w: Which, n: nat, buffer: seq<Byte>, delivered: seq<Byte>)
    ensures PostTimes(WithBytes(s, buffer, delivered), w, n) == WithBytes(PostTimes(s, w, n), buffer, delivered)
    decreases n
  {
    if n > 0 {
      PostTimesLeavesBytes(PostOn(s, w), w, n - 1, buffer, delivered);
    }
  }

  /** Draining byte by byte, with a post after each, is draining them at once. */
  lemma DrainOneMore(s: State, n: nat)
    requires n < |s.buffer|
    ensures var d := Drain(s, n);
      Drain(s, n + 1) == PostOn(WithBytes(d, s.buffer[n + 1..], s.delivered + s.buffer[..n + 1]), Space)
  {
    var b, d := s.buffer[n..], s.delivered + s.buffer[..n];
    var b', d' := s.buffer[n + 1..], s.delivered + s.buffer[..n + 1];
    PostTimesLeavesBytes(s, Space, n, b, d);
    PostTimesLeavesBytes(s, Space, n, b', d');
    PostTimesEnd(WithBytes(s, b', d'), Space, n);
  }

  lemma {:induction false} PostTimesBytes(s: State, w: Which, n: nat)
    ensures PostTimes(s, w, n).buffer == s.buffer && PostTimes(s, w, n).delivered == s.delivered
    decreases n
  {
    if n > 0 {
      PostTimesBytes(PostOn(s, w), w, n - 1);
    }
  }

  lemma DrainBytes(s: State, n: nat)
    requires n <= |s.buffer|
    ensures Drain(s, n).buffer == s.buffer[n..] && Drain(s, n).delivered == s.delivered + s.buffer[..n]
  {
    PostTimesBytes(WithBytes(s, s.buffer[n..], s.delivered + s.buffer[..n]), Space, n);
  }

  class SharedPipe {
    const buffer: Ring
    var dataAvailable: Sem
    var freeSpaces: Sem
    var readMutex: Sem
    var writeMutex: Sem
    var writerCount: nat
    var pcs: map<Pid, Pc>
    ghost var accepted: seq<Byte>
    ghost var delivered: seq<Byte>
    ghost var writes: seq<seq<Byte>>

    ghost predicate Valid()
      reads this, buffer
    {
      buffer.Valid() && buffer.maxSize == PIPE_BUF_SIZE
    }

    ghost function Abs(): State
      reads this, buffer, buffer.data
      requires Valid()
    {
      State(buffer.Contents(), dataAvailable, freeSpaces, readMutex, writeMutex, writerCount, pcs, accepted,
            delivered, writes)
    }

    /** An empty pipe with no writer yet, and processes that are in no operation. */
    constructor (pids: set<Pid>)
      ensures Valid() && fresh(buffer) && fresh(buffer.data)
      ensures Abs() == NewPipe(pids).(writers := 0)
    {
      buffer := new Ring.NewBuffer(PIPE_BUF_SIZE);
      dataAvailable, freeSpaces, readMutex, writeMutex := Sem(0, []), Sem(PIPE_BUF_SIZE, []), Sem(1, []), Sem(1, []);
      writerCount := 0;
      pcs := map p | p in pids :: Idle;
      accepted, delivered, writes := [], [], [];
    }

    function Semaphore(w: Which): Sem
      reads this
    {
      match w
      case Data => dataAvailable
      case Space => freeSpaces
      case ReadLock => readMutex
      case WriteLock => writeMutex
    }

    method SetSemaphore(w: Which, sem: Sem)
      requires Valid()
      modifies this
      ensures Valid() && buffer.data == old(buffer.data) && Abs() == Put(old(Abs()), w, sem)
    {
      match w
      case Data => dataAvailable := sem;
      case Space => freeSpaces := sem;
      case ReadLock => readMutex := sem;
      case WriteLock => writeMutex := sem;
    }

    method SemPost(w: Which)
      requires Valid()
      modifies this
      ensures Valid() && buffer.data == old(buffer.data) && Abs() == PostOn(old(Abs()), w)
    {
      var before := Semaphore(w);
      var posted := Post(before, set p | p in before.queue);
      SetSemaphore(w, posted.sem);
      if posted.woken in pcs {
        pcs := pcs[posted.woken := Granted(pcs[posted.woken])];
      }
    }

    /** semWait by p: it goes on if there is a unit and is left blocked at waiting otherwise. */
    method SemWait(w: Which, p: Pid, waiting: Pc)
      requires Valid()
      modifies this
      ensures Valid() && buffer.data == old(buffer.data) && Abs() == WaitOn(old(Abs()), w, p, waiting)
    {
      var before := Semaphore(w);
      SetSemaphore(w, Wait(before, p));
      pcs := pcs[p := if WaitPasses(before) then Granted(waiting) else waiting];
    }

    method DrainBuffer(count: nat) returns (n: nat, bytes: seq<Byte>)
      requires Valid()
      modifies this, buffer
      ensures Valid() && buffer.data == old(buffer.data) && Abs() == Drain(old(Abs()), count)
      ensures n == Min(count, |old(Abs()).buffer|) && bytes == old(Abs()).buffer[..n]
    {
      n, bytes := 0, [];
      ghost var s := Abs();
      DrainBytes(s, 0);
      while n < count && buffer.HasData()
        invariant Valid() && buffer.data == old(buffer.data)
        invariant n <= count && n <= |s.buffer| && bytes == s.buffer[..n]
        invariant Abs() == Drain(s, n) && Abs().buffer == s.buffer[n..]
        decreases count - n
      {
        DrainBytes(s, n);
        DrainBytes(s, n + 1);
        var b := DrainByte(s, n);
        n, bytes := n + 1, bytes + [b];
      }
    }

    /** One turn of the loop above: the n-th byte leaves and its space is given back. */
    method DrainByte(ghost s: State, n: nat) returns (b: Byte)
      requires Valid() && n < |s.buffer| && Abs() == Drain(s, n)
      modifies this, buffer
      ensures Valid() && buffer.data == old(buffer.data)
      ensures b == s.buffer[n] && Abs() == Drain(s, n + 1)
    {
      DrainBytes(s, n);
      DrainOneMore(s, n);
      b := buffer.Read();
      delivered := delivered + [b];
      assert s.buffer[..n + 1] == s.buffer[..n] + [b];
      assert Abs() == WithBytes(Drain(s, n), s.buffer[n + 1..], s.delivered + s.buffer[..n + 1]);
      SemPost(Space);
    }

    // ----- pipeRead

    method StartRead(p: Pid, count: nat, blocking: bool) returns (ret: Return)
      requires Valid()
      modifies this
      ensures Valid() && buffer.data == old(buffer.data)
          && Outcome(Abs(), ret) == Pipe.StartRead(old(Abs()), p, count, blocking)
      ensures var s := old(Abs());
        p in s.pcs && s.pcs[p] == Idle ==>
          && (ret.Returned? <==> count == 0 || (s.buffer == [] && (s.writers == 0 || !blocking)))
          && (ret.Returned? ==> PipeCalls.ReadAnswer(s, p, count, blocking, Outcome(Abs(), ret)))
    {
      if p in pcs && pcs[p] == Idle {
        PipeCalls.ReadStarts(Abs(), p, count, blocking);
      }
      if count == 0 {
        return Returned(0, []);
      }
      if blocking {
        if !buffer.HasData() && writerCount <= 0 {
          return Returned(0, []);
        }
        SemWait(Data, p, WData(count));
        return Pending;
      }
      if !buffer.HasData() {
        return Returned(if writerCount > 0 then PIPE_WOULD_BLOCK else 0, []);
      }
      SemWait(ReadLock, p, WRead(count, false));
      return Pending;
    }

    method TakeReadLock(p: Pid, count: nat)
      requires Valid()
      modifies this
      ensures Valid() && buffer.data == old(buffer.data) && Abs() == Pipe.TakeReadLock(old(Abs()), p, count)
    {
      SemWait(ReadLock, p, WRead(count, true));
    }

    method SetIdle(p: Pid)
      requires Valid()
      modifies this
      ensures Valid() && buffer.data == old(buffer.data) && Abs() == Leave(old(Abs()), p)
    {
      pcs := pcs[p := Idle];
    }

    method ReadCritical(p: Pid, count: nat, blocking: bool) returns (ret: Return)
      requires Valid()
      modifies this, buffer
      ensures Valid() && buffer.data == old(buffer.data)
          && Outcome(Abs(), ret) == Pipe.ReadCritical(old(Abs()), p, count, blocking)
      ensures var s := old(Abs());
        PipeInvariant.Inv(s) && p in s.pcs && s.pcs[p] == HRead(count, blocking) && count > 0 ==>
          && (ret.Returned? <==> s.buffer != [] || s.writers == 0 || !blocking)
          && (ret.Returned? ==> PipeCalls.ReadAnswer(s, p, count, blocking, Outcome(Abs(), ret)))
    {
      if PipeInvariant.Inv(Abs()) && p in pcs && pcs[p] == HRead(count, blocking) && count > 0 {
        PipeCalls.ReadCriticalAnswers(Abs(), p, count, blocking);
      }
      if buffer.HasData() {
        var n, bytes := DrainBuffer(count);
        if blocking && buffer.HasData() {
          SemPost(Data);
        }
        SetIdle(p);
        SemPost(ReadLock);
        return Returned(n, bytes);
      }
      SetIdle(p);
      SemPost(ReadLock);
      if writerCount <= 0 {
        return Returned(0, []);
      }
      if blocking {
        SemWait(Data, p, WData(count));
        return Pending;
      }
      return Returned(PIPE_WOULD_BLOCK, []);
    }

    // ----- pipeWrite

    method StartWrite(p: Pid, buf: seq<Byte>, nonblocking: bool)
      requires Valid()
      modifies this
      ensures Valid() && buffer.data == old(buffer.data) && Abs() == Pipe.StartWrite(old(Abs()), p, buf, nonblocking)
    {
      SemWait(WriteLock, p, WWrite(buf, nonblocking));
    }

    method FinishWrite(p: Pid, buf: seq<Byte>, n: nat)
      requires Valid() && n <= |buf|
      modifies this
      ensures Valid() && buffer.data == old(buffer.data) && Abs() == Pipe.FinishWrite(old(Abs()), p, buf, n)
    {
      SetIdle(p);
      writes := writes + [buf[..n]];
      SemPost(WriteLock);
    }

    method WriteLoop(p: Pid, buf: seq<Byte>, n: nat, nonblocking: bool) returns (ret: Return)
      requires Valid() && n <= |buf|
      modifies this
      ensures Valid() && buffer.data == old(buffer.data)
          && Outcome(Abs(), ret) == Pipe.WriteLoop(old(Abs()), p, buf, n, nonblocking)
      ensures var s := old(Abs());
        PipeInvariant.Inv(s) && p in s.pcs && s.pcs[p] == HWrite(buf, n, nonblocking) ==>
          && (ret.Returned? <==> n == |buf| || (nonblocking && |s.buffer| == PIPE_BUF_SIZE))
          && (ret.Returned? ==> PipeCalls.WriteAnswer(s, p, buf, nonblocking, Outcome(Abs(), ret)))
    {
      if PipeInvariant.Inv(Abs()) && p in pcs && pcs[p] == HWrite(buf, n, nonblocking) {
        PipeCalls.WriteLoopAnswers(Abs(), p, buf, n, nonblocking);
      }
      if n >= |buf| {
        FinishWrite(p, buf, n);
        return Returned(n, []);
      }
      if nonblocking && buffer.IsFull() {
        FinishWrite(p, buf, n);
        return Returned(if n > 0 then n else PIPE_WOULD_BLOCK, []);
      }
      SemWait(Space, p, WSpace(buf, n, nonblocking));
      return Pending;
    }

    method PutByte(p: Pid, buf: seq<Byte>, n: nat, nonblocking: bool)
      requires Valid() && n < |buf|
      modifies this, buffer, buffer.data
      ensures Valid() && buffer.data == old(buffer.data) && Abs() == Pipe.PutByte(old(Abs()), p, buf, n, nonblocking)
    {
      var wasEmpty := !buffer.HasData();
      var ok := buffer.Write(buf[n]);
      if ok {
        accepted := accepted + [buf[n]];
        pcs := pcs[p := HWrite(buf, n + 1, nonblocking)];
        if wasEmpty {
          SemPost(Data);
        }
      } else {
        pcs := pcs[p := HWrite(buf, n, nonblocking)];
      }
    }

    // ----- opening and closing

    method AddPipeWriter()
      requires Valid()
      modifies this
      ensures Valid() && buffer.data == old(buffer.data) && Abs() == old(Abs()).(writers := old(Abs()).writers + 1)
    {
      writerCount := writerCount + 1;
    }

    method ForceReadersWakeUp(count: nat)
      requires Valid()
      modifies this
      ensures Valid() && buffer.data == old(buffer.data) && Abs() == PostTimes(old(Abs()), Data, count)
    {
      ghost var s := Abs();
      for i := 0 to count
        invariant Valid() && buffer.data == old(buffer.data) && Abs() == PostTimes(s, Data, i)
      {
        PostTimesEnd(s, Data, i);
        SemPost(Data);
      }
    }

    method RemovePipeWriter()
      requires Valid() && writerCount > 0
      modifies this
      ensures Valid() && buffer.data == old(buffer.data) && Abs() == CloseWriter(old(Abs()))
    {
      writerCount := writerCount - 1;
      if writerCount <= 0 {
        ForceReadersWakeUp(MAX_PROCESSES);
      }
    }
  }
}

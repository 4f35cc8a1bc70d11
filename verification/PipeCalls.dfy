/** What reads and writes of a pipe answer, and what their answers say about the stream. */
module PipeCalls {
  import opened Semaphores
  import opened Pipe
  import opened PipeInvariant
  import opened PipeSteps
  import opened PipeRuns

  // ----- what a process is doing

  /** In the middle of a write of buf. */
  predicate InWrite(pc: Pc, buf: seq<Byte>, nonblocking: bool) {
    match pc
    case WWrite(b, nb) => b == buf && nb == nonblocking
    case HWrite(b, _, nb) => b == buf && nb == nonblocking
    case WSpace(b, _, nb) => b == buf && nb == nonblocking
    case HSpace(b, _, nb) => b == buf && nb == nonblocking
    case _ => false
  }

  /** In the middle of a read of up to count bytes; a read of none is over at once. */
  predicate InRead(pc: Pc, count: nat, blocking: bool) {
    count > 0 &&
    match pc
    case WData(n) => n == count && blocking
    case HData(n) => n == count && blocking
    case WRead(n, b) => n == count && b == blocking
    case HRead(n, b) => n == count && b == blocking
    case _ => false
  }

  predicate By(step: Step, p: Pid) {
    match step
    case Read(q, _, _) => q == p
    case Write(q, _, _) => q == p
    case Go(q) => q == p
    case OpenWriter => false
    case Close => false
  }

  // ----- nobody's call is changed by others

  /** Everybody but q is where it was, or has been granted what it waited for. */
  ghost predicate OnlyGrants(s: State, s': State, q: Pid) {
    forall p :: p in s.pcs && p != q ==> p in s'.pcs && (s'.pcs[p] == s.pcs[p] || s'.pcs[p] == Granted(s.pcs[p]))
  }

  lemma PostOnlyGrants(s: State, w: Which, q: Pid)
    ensures OnlyGrants(s, PostOn(s, w), q)
  {
  }

  lemma {:induction false} PostsOnlyGrant(s: State, w: Which, n: nat, q: Pid)
    ensures OnlyGrants(s, PostTimes(s, w, n), q)
    decreases n
  {
    if n > 0 {
      PostsOnlyGrant(PostOn(s, w), w, n - 1, q);
    }
  }

  lemma ReadOnlyGrants(s: State, p: Pid, count: nat, blocking: bool)
    ensures OnlyGrants(s, ReadCritical(s, p, count, blocking).state, p)
  {
    if s.buffer != [] {
      var n := Min(count, |s.buffer|);
      PostsOnlyGrant(s.(buffer := s.buffer[n..], delivered := s.delivered + s.buffer[..n]), Space, n, p);
      var s1 := Drain(s, count);
      PostOnlyGrants(s1, Data, p);
      var s2 := if blocking && s1.buffer != [] then PostOn(s1, Data) else s1;
      PostOnlyGrants(Leave(s2, p), ReadLock, p);
    }
  }

  lemma StepOnlyGrants(s: State, step: Step, q: Pid)
    requires CanStep(s, step) && (By(step, q) || step.OpenWriter? || step.Close?)
    ensures OnlyGrants(s, Next(s, step).state, q)
  {
    match step
    case Go(p) =>
      if s.pcs[p].HRead? {
        ReadOnlyGrants(s, p, s.pcs[p].count, s.pcs[p].blocking);
      }
    case Close => PostsOnlyGrant(s.(writers := s.writers - 1), Data, MAX_PROCESSES, q);
    case _ =>
  }

  /** The two places are in the same call. */
  ghost predicate SameCall(pc: Pc, pc': Pc) {
    && (forall buf, nb :: InWrite(pc, buf, nb) ==> InWrite(pc', buf, nb))
    && (forall count, b :: InRead(pc, count, b) ==> InRead(pc', count, b))
  }

  /** A step of anybody else leaves p in the same call. */
  lemma OthersKeepCall(s: State, step: Step, p: Pid)
    requires CanStep(s, step) && !By(step, p) && p in s.pcs
    ensures p in Next(s, step).state.pcs && SameCall(s.pcs[p], Next(s, step).state.pcs[p])
  {
    var q := if step.OpenWriter? || step.Close? then p + 1 else step.pid;
    StepOnlyGrants(s, step, q);
    assert SameCall(s.pcs[p], Granted(s.pcs[p]));
  }

  /** Only opening and closing change the number of write accesses, by one. */
  lemma StepCountsWriters(s: State, step: Step)
    requires CanStep(s, step)
    ensures Next(s, step).state.writers
        == s.writers + (if step.OpenWriter? then 1 else 0) - (if step.Close? then 1 else 0)
  {
    match step
    case Go(p) =>
      if s.pcs[p].HRead? {
        var n := Min(s.pcs[p].count, |s.buffer|);
        PostsKeepWriters(s.(buffer := s.buffer[n..], delivered := s.delivered + s.buffer[..n]), Space, n);
      }
    case Close => PostsKeepWriters(s.(writers := s.writers - 1), Data, MAX_PROCESSES);
    case _ =>
  }

  lemma {:induction false} PostsKeepWriters(s: State, w: Which, n: nat)
    ensures PostTimes(s, w, n).writers == s.writers
    decreases n
  {
    if n > 0 {
      PostsKeepWriters(PostOn(s, w), w, n - 1);
    }
  }

  // ----- writing

  /** The answer to a write: what was put of buf is the new entry of the finished writes and completes the accepted
      bytes; the answer is its length, or PIPE_WOULD_BLOCK when nothing could be put; and only a nonblocking write, on a
      full buffer, puts less than all. */
  ghost predicate WriteAnswer(s: State, p: Pid, buf: seq<Byte>, nonblocking: bool, o: Outcome) {
    && o.ret.Returned? && p in o.state.pcs && o.state.pcs[p] == Idle
    && exists put: seq<Byte> :: put <= buf && WriteEnds(s, buf, nonblocking, put, o)
  }

  ghost predicate WriteEnds(s: State, buf: seq<Byte>, nonblocking: bool, put: seq<Byte>, o: Outcome)
    requires o.ret.Returned?
  {
    && o.state.writes == s.writes + [put] && o.state.accepted == s.accepted == Flatten(s.writes) + put
    && o.state.accepted == Flatten(o.state.writes)
    && o.ret.value == (if put == [] && buf != [] then PIPE_WOULD_BLOCK else |put|)
    && (put != buf ==> nonblocking && |s.buffer| == PIPE_BUF_SIZE)
  }

  lemma FlattenEnd(ws: seq<seq<Byte>>, w: seq<Byte>)
    ensures Flatten(ws + [w]) == Flatten(ws) + w
  {
    assert (ws + [w])[..|ws|] == ws;
  }

  /** A write at the head of its loop returns exactly when it is done, or nonblocking on a full buffer. */
  lemma WriteLoopAnswers(s: State, p: Pid, buf: seq<Byte>, n: nat, nonblocking: bool)
    requires Inv(s) && p in s.pcs && s.pcs[p] == HWrite(buf, n, nonblocking) && n <= |buf|
    ensures var o := WriteLoop(s, p, buf, n, nonblocking);
      && (o.ret.Returned? <==> n == |buf| || (nonblocking && |s.buffer| == PIPE_BUF_SIZE))
      && (o.ret.Returned? ==> WriteAnswer(s, p, buf, nonblocking, o))
      && (o.ret.Pending? ==> p in o.state.pcs && InWrite(o.state.pcs[p], buf, nonblocking))
  {
    var o := WriteLoop(s, p, buf, n, nonblocking);
    if o.ret.Returned? {
      assert Holder(s, p, WriteLock);
      FlattenEnd(s.writes, buf[..n]);
      var t := Leave(s, p).(writes := s.writes + [buf[..n]]);
      IdleStaysIdle(t, WriteLock, p);
      assert buf[..n] <= buf;
      assert n == |buf| ==> buf[..n] == buf;
      assert WriteEnds(s, buf, nonblocking, buf[..n], o);
    }
  }

  lemma IdleStaysIdle(s: State, w: Which, p: Pid)
    requires p in s.pcs && s.pcs[p] == Idle
    ensures var s' := PostOn(s, w);
      && p in s'.pcs && s'.pcs[p] == Idle && s'.writes == s.writes && s'.accepted == s.accepted
      && s'.buffer == s.buffer && s'.delivered == s.delivered
  {
  }

  lemma WriteStepAnswers(s: State, step: Step, p: Pid, buf: seq<Byte>, nonblocking: bool)
    requires Inv(s) && CanStep(s, step) && By(step, p) && InWrite(s.pcs[p], buf, nonblocking)
    ensures var o := Next(s, step);
      if o.ret.Returned? then WriteAnswer(s, p, buf, nonblocking, o)
      else p in o.state.pcs && InWrite(o.state.pcs[p], buf, nonblocking)
  {
    match s.pcs[p]
    case HWrite(b, n, nb) => WriteLoopAnswers(s, p, b, n, nb);
    case HSpace(b, n, nb) => PutByteKeepsCall(s, p, b, n, nb);
  }

  lemma PutByteKeepsCall(s: State, p: Pid, buf: seq<Byte>, n: nat, nonblocking: bool)
    requires p in s.pcs && n < |buf|
    ensures var s' := PutByte(s, p, buf, n, nonblocking);
      p in s'.pcs && InWrite(s'.pcs[p], buf, nonblocking)
  {
  }

  /** The first answer p gets in the run is one to the write it is in. */
  ghost predicate WriteAnswered(s: State, run: seq<Step>, p: Pid, buf: seq<Byte>, nonblocking: bool)
    requires Legal(s, run)
    decreases |run|
  {
    run != [] ==>
      var o := Next(s, run[0]);
      if By(run[0], p) && o.ret.Returned? then WriteAnswer(s, p, buf, nonblocking, o)
      else WriteAnswered(o.state, run[1..], p, buf, nonblocking)
  }

  /** In every run, whatever everybody does, a write is answered as it should be. */
  lemma {:induction false} WritesAreAnswered(s: State, run: seq<Step>, p: Pid, buf: seq<Byte>, nonblocking: bool)
    requires Inv(s) && Legal(s, run) && p in s.pcs
    requires InWrite(s.pcs[p], buf, nonblocking)
        || (s.pcs[p] == Idle && run != [] && run[0] == Write(p, buf, nonblocking))
    ensures WriteAnswered(s, run, p, buf, nonblocking)
    decreases |run|
  {
    if run != [] {
      var o := Next(s, run[0]);
      StepKeepsInv(s, run[0]);
      if !By(run[0], p) {
        OthersKeepCall(s, run[0], p);
      } else if s.pcs[p] != Idle {
        WriteStepAnswers(s, run[0], p, buf, nonblocking);
      }
      if !(By(run[0], p) && o.ret.Returned?) {
        WritesAreAnswered(o.state, run[1..], p, buf, nonblocking);
      }
    }
  }

  // ----- reading

  /** The answer to a read: the first bytes of the buffer, as many as there are and were asked for; on an empty buffer 0
      if no write access is left, and otherwise PIPE_WOULD_BLOCK, but only to a nonblocking read. */
  ghost predicate ReadAnswer(s: State, p: Pid, count: nat, blocking: bool, o: Outcome) {
    && o.ret.Returned? && p in o.state.pcs && o.state.pcs[p] == Idle
    && if count == 0 || s.buffer != [] then
         var n := Min(count, |s.buffer|);
         o.ret == Returned(n, s.buffer[..n]) && o.state.buffer == s.buffer[n..]
       else
         && o.state.buffer == [] && o.ret.bytes == []
         && if s.writers == 0 then o.ret.value == 0 else !blocking && o.ret.value == PIPE_WOULD_BLOCK
  }

  /** A read is answered at once exactly when it asks for nothing, or the buffer is empty and it need not wait for
      data. */
  lemma ReadStarts(s: State, p: Pid, count: nat, blocking: bool)
    requires p in s.pcs && s.pcs[p] == Idle
    ensures var o := StartRead(s, p, count, blocking);
      && (o.ret.Returned? <==> count == 0 || (s.buffer == [] && (s.writers == 0 || !blocking)))
      && (o.ret.Returned? ==> o.state == s && ReadAnswer(s, p, count, blocking, o))
      && (o.ret.Pending? ==> InRead(o.state.pcs[p], count, blocking))
  {
  }

  /** A read that holds the lock is answered exactly when there is data, no write access is left, or it does not
      block. */
  lemma ReadCriticalAnswers(s: State, p: Pid, count: nat, blocking: bool)
    requires Inv(s) && p in s.pcs && s.pcs[p] == HRead(count, blocking) && count > 0
    ensures var o := ReadCritical(s, p, count, blocking);
      && (o.ret.Returned? <==> s.buffer != [] || s.writers == 0 || !blocking)
      && (o.ret.Returned? ==> ReadAnswer(s, p, count, blocking, o))
      && (o.ret.Pending? ==> p in o.state.pcs && InRead(o.state.pcs[p], count, blocking))
  {
    if s.buffer != [] {
      DrainKeepsInv(s, p, count);
      var s1 := Drain(s, count);
      if blocking && s1.buffer != [] {
        var h := PostIs(s1, Data);
        PostStates(s1, Data, PostOn(s1, Data), h);
        IdleStaysIdle(Leave(PostOn(s1, Data), p), ReadLock, p);
      } else {
        IdleStaysIdle(Leave(s1, p), ReadLock, p);
      }
    } else {
      IdleStaysIdle(Leave(s, p), ReadLock, p);
    }
  }

  lemma ReadStepAnswers(s: State, step: Step, p: Pid, count: nat, blocking: bool)
    requires Inv(s) && CanStep(s, step) && By(step, p)
    requires InRead(s.pcs[p], count, blocking) || step == Read(p, count, blocking)
    ensures var o := Next(s, step);
      if o.ret.Returned? then ReadAnswer(s, p, count, blocking, o)
      else p in o.state.pcs && InRead(o.state.pcs[p], count, blocking)
  {
    match s.pcs[p]
    case Idle => ReadStarts(s, p, count, blocking);
    case HData(n) =>
    case HRead(n, b) => ReadCriticalAnswers(s, p, n, b);
  }

  /** The first answer p gets in the run is one to the read it is in. */
  ghost predicate ReadAnswered(s: State, run: seq<Step>, p: Pid, count: nat, blocking: bool)
    requires Legal(s, run)
    decreases |run|
  {
    run != [] ==>
      var o := Next(s, run[0]);
      if By(run[0], p) && o.ret.Returned? then ReadAnswer(s, p, count, blocking, o)
      else ReadAnswered(o.state, run[1..], p, count, blocking)
  }

  /** In every run, whatever everybody does, a read is answered as it should be. */
  lemma {:induction false} ReadsAreAnswered(s: State, run: seq<Step>, p: Pid, count: nat, blocking: bool)
    requires Inv(s) && Legal(s, run) && p in s.pcs
    requires InRead(s.pcs[p], count, blocking)
        || (s.pcs[p] == Idle && run != [] && run[0] == Read(p, count, blocking))
    ensures ReadAnswered(s, run, p, count, blocking)
    decreases |run|
  {
    if run != [] {
      var o := Next(s, run[0]);
      StepKeepsInv(s, run[0]);
      if By(run[0], p) {
        ReadStepAnswers(s, run[0], p, count, blocking);
      } else {
        OthersKeepCall(s, run[0], p);
      }
      if !(By(run[0], p) && o.ret.Returned?) {
        ReadsAreAnswered(o.state, run[1..], p, count, blocking);
      }
    }
  }
}

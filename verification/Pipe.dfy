/**
 * A pipe shared by processes: the byte buffer, its four semaphores, and where each process is inside
 * a read or a write.  A step runs from one semWait to the next, so every interleaving of the kernel is a run.
 */
module Pipe {
  import opened Semaphores

  const PIPE_BUF_SIZE: nat := 1024
  const MAX_PROCESSES: nat := 64
  const PIPE_WOULD_BLOCK: int := -2

  type Byte = bv8

  datatype Which = Data | Space | ReadLock | WriteLock

  /** Where a process is: W... blocked in the semaphore's queue, H... past the wait and about to go on. */
  datatype Pc =
    | Idle
    | WData(count: nat) | HData(count: nat)
    | WRead(count: nat, blocking: bool) | HRead(count: nat, blocking: bool)
    | WWrite(buf: seq<Byte>, nonblocking: bool)
    | HWrite(buf: seq<Byte>, n: nat, nonblocking: bool)
    | WSpace(buf: seq<Byte>, n: nat, nonblocking: bool) | HSpace(buf: seq<Byte>, n: nat, nonblocking: bool)

  /** accepted, delivered and writes record the history: bytes put in and taken out, and finished writes. */
  datatype State = State(buffer: seq<Byte>, data: Sem, space: Sem, readLock: Sem, writeLock: Sem,
                         writers: nat, pcs: map<Pid, Pc>,
                         accepted: seq<Byte>, delivered: seq<Byte>, writes: seq<seq<Byte>>)

  function Get(s: State, w: Which): Sem {
    match w
    case Data => s.data
    case Space => s.space
    case ReadLock => s.readLock
    case WriteLock => s.writeLock
  }

  function Put(s: State, w: Which, sem: Sem): State {
    match w
    case Data => s.(data := sem)
    case Space => s.(space := sem)
    case ReadLock => s.(readLock := sem)
    case WriteLock => s.(writeLock := sem)
  }

  /** The semaphore a process is blocked on. */
  predicate BlockedOn(pc: Pc, w: Which) {
    match pc
    case WData(_) => w == Data
    case WRead(_, _) => w == ReadLock
    case WWrite(_, _) => w == WriteLock
    case WSpace(_, _, _) => w == Space
    case _ => false
  }

  /** A blocked process whose wait has been granted. */
  function Granted(pc: Pc): Pc {
    match pc
    case WData(count) => HData(count)
    case WRead(count, blocking) => HRead(count, blocking)
    case WWrite(buf, nonblocking) => HWrite(buf, 0, nonblocking)
    case WSpace(buf, n, nonblocking) => HSpace(buf, n, nonblocking)
    case _ => pc
  }

  // ----- semaphore operations; nobody is killed here, so every waiter counts

  function PostOn(s: State, w: Which): State {
    var posted := Post(Get(s, w), set p | p in Get(s, w).queue);
    var s' := Put(s, w, posted.sem);
    if posted.woken in s.pcs then s'.(pcs := s.pcs[posted.woken := Granted(s.pcs[posted.woken])]) else s'
  }

  function PostTimes(s: State, w: Which, n: nat): State
    decreases n
  {
    if n == 0 then s else PostTimes(PostOn(s, w), w, n - 1)
  }

  /** semWait by p, which is then at waiting or, if granted at once, just past it. */
  function WaitOn(s: State, w: Which, p: Pid, waiting: Pc): State {
    Put(s, w, Wait(Get(s, w), p)).(pcs := s.pcs[p := if WaitPasses(Get(s, w)) then Granted(waiting) else waiting])
  }

  function Leave(s: State, p: Pid): State {
    s.(pcs := s.pcs[p := Idle])
  }

  // ----- reading

  datatype Return = Pending | Returned(value: int, bytes: seq<Byte>)

  datatype Outcome = Outcome(state: State, ret: Return)

  /** pipeRead up to its first wait. */
  function StartRead(s: State, p: Pid, count: nat, blocking: bool): Outcome {
    if count == 0 then Outcome(s, Returned(0, []))
    else if blocking then
      if s.buffer == [] && s.writers <= 0 then Outcome(s, Returned(0, []))
      else Outcome(WaitOn(s, Data, p, WData(count)), Pending)
    else
      if s.buffer == [] then Outcome(s, Returned(if s.writers > 0 then PIPE_WOULD_BLOCK else 0, []))
      else Outcome(WaitOn(s, ReadLock, p, WRead(count, false)), Pending)
  }

  function TakeReadLock(s: State, p: Pid, count: nat): State {
    WaitOn(s, ReadLock, p, WRead(count, true))
  }

  function Min(a: nat, b: nat): nat {
    if a < b then a else b
  }

  /** drainBuffer: up to count bytes leave the buffer, each giving its space back. */
  function Drain(s: State, count: nat): State {
    var n := Min(count, |s.buffer|);
    PostTimes(s.(buffer := s.buffer[n..], delivered := s.delivered + s.buffer[..n]), Space, n)
  }

  /** The critical section of a read, from holding readMutex to giving it back. */
  function ReadCritical(s: State, p: Pid, count: nat, blocking: bool): Outcome {
    if s.buffer != [] then
      var n := Min(count, |s.buffer|);
      var s1 := Drain(s, count);
      var s2 := if blocking && s1.buffer != [] then PostOn(s1, Data) else s1;
      Outcome(PostOn(Leave(s2, p), ReadLock), Returned(n, s.buffer[..n]))
    else if s.writers <= 0 then Outcome(PostOn(Leave(s, p), ReadLock), Returned(0, []))
    else if blocking then Outcome(WaitOn(PostOn(Leave(s, p), ReadLock), Data, p, WData(count)), Pending)
    else Outcome(PostOn(Leave(s, p), ReadLock), Returned(PIPE_WOULD_BLOCK, []))
  }

  // ----- writing

  function StartWrite(s: State, p: Pid, buf: seq<Byte>, nonblocking: bool): State {
    WaitOn(s, WriteLock, p, WWrite(buf, nonblocking))
  }

  /** A write ends after n bytes. */
  function FinishWrite(s: State, p: Pid, buf: seq<Byte>, n: nat): State
    requires n <= |buf|
  {
    PostOn(Leave(s, p).(writes := s.writes + [buf[..n]]), WriteLock)
  }

  /** The head of the writing loop. */
  function WriteLoop(s: State, p: Pid, buf: seq<Byte>, n: nat, nonblocking: bool): Outcome
    requires n <= |buf|
  {
    if n >= |buf| then Outcome(FinishWrite(s, p, buf, n), Returned(n, []))
    else if nonblocking && |s.buffer| == PIPE_BUF_SIZE then
      Outcome(FinishWrite(s, p, buf, n), Returned(if n > 0 then n else PIPE_WOULD_BLOCK, []))
    else Outcome(WaitOn(s, Space, p, WSpace(buf, n, nonblocking)), Pending)
  }

  /** One byte goes into the buffer if it is not full; only the first byte into an empty buffer is announced. */
  function PutByte(s: State, p: Pid, buf: seq<Byte>, n: nat, nonblocking: bool): State
    requires n < |buf|
  {
    if |s.buffer| < PIPE_BUF_SIZE then
      var s' := s.(buffer := s.buffer + [buf[n]], accepted := s.accepted + [buf[n]],
                   pcs := s.pcs[p := HWrite(buf, n + 1, nonblocking)]);
      if s.buffer == [] then PostOn(s', Data) else s'
    else s.(pcs := s.pcs[p := HWrite(buf, n, nonblocking)])
  }

  // ----- closing

  /** A write access goes away; the last one posts MAX_PROCESSES units of data. */
  function CloseWriter(s: State): State
    requires s.writers > 0
  {
    var s' := s.(writers := s.writers - 1);
    if s'.writers <= 0 then PostTimes(s', Data, MAX_PROCESSES) else s'
  }

  // ----- steps

  datatype Step =
    | Read(pid: Pid, count: nat, blocking: bool)
    | Write(pid: Pid, buf: seq<Byte>, nonblocking: bool)
    | Go(pid: Pid)        // the process goes on from where it is
    | OpenWriter
    | Close

  predicate IsWriting(pc: Pc) {
    pc.WWrite? || pc.HWrite? || pc.WSpace? || pc.HSpace?
  }

  predicate NobodyWrites(s: State) {
    forall p :: p in s.pcs ==> !IsWriting(s.pcs[p])
  }

  /** Writing needs an open write access, which is not closed under a write in progress; a new one is cloned from an
      open one. */
  predicate CanStep(s: State, step: Step) {
    match step
    case Read(p, _, _) => p in s.pcs && s.pcs[p] == Idle
    case Write(p, _, _) => p in s.pcs && s.pcs[p] == Idle && s.writers > 0
    case Go(p) => p in s.pcs && (
      match s.pcs[p]
      case HData(_) => true
      case HRead(_, _) => true
      case HWrite(buf, n, _) => n <= |buf|
      case HSpace(buf, n, _) => n < |buf|
      case _ => false)
    case OpenWriter => s.writers > 0
    case Close => s.writers > 1 || (s.writers == 1 && NobodyWrites(s))
  }

  function Next(s: State, step: Step): Outcome
    requires CanStep(s, step)
  {
    match step
    case Read(p, count, blocking) => StartRead(s, p, count, blocking)
    case Write(p, buf, nonblocking) => Outcome(StartWrite(s, p, buf, nonblocking), Pending)
    case Go(p) => (
      match s.pcs[p]
      case HData(count) => Outcome(TakeReadLock(s, p, count), Pending)
      case HRead(count, blocking) => ReadCritical(s, p, count, blocking)
      case HWrite(buf, n, nonblocking) => WriteLoop(s, p, buf, n, nonblocking)
      case HSpace(buf, n, nonblocking) => Outcome(PutByte(s, p, buf, n, nonblocking), Pending))
    case OpenWriter => Outcome(s.(writers := s.writers + 1), Pending)
    case Close => Outcome(CloseWriter(s), Pending)
  }

  /** A new pipe with one write access and the given processes, none of them in an operation. */
  function NewPipe(pids: set<Pid>): State {
    State([], Sem(0, []), Sem(PIPE_BUF_SIZE, []), Sem(1, []), Sem(1, []), 1, map p | p in pids :: Idle, [], [], [])
  }
}

/** sysPipe makes a pipe with two ends, or leaves no trace on any failing path. */
module FilePipes {
  import opened FileDescriptors
  import opened FileInvariant
  import opened FileCalls

  /** The states in which sysPipe has both ends in hand. */
  lemma BothEndsInHand(s: State, m: PipeMemory)
    requires Good(s) && UnusedAnswers(s, m) && m.pipe.Some? && m.readEnd.Some? && m.writeEnd.Some?
    ensures var q, r, w := m.pipe.value, m.readEnd.value, m.writeEnd.value;
      var t := NewFileAccess(NewFileAccess(NewPipe(s, q), r, q, READ_ONLY), w, q, WRITE_ONLY);
      && Sound(t, {r, w}) && Inherits(t, s) && t.slots == s.slots && t.eof == s.eof && t.procs == s.procs
      && t.files == s.files[r := Access(q, READ_ONLY, 0)][w := Access(q, WRITE_ONLY, 0)]
      && t.pipes.Keys == s.pipes.Keys + {q}
  {
    var q, r, w := m.pipe.value, m.readEnd.value, m.writeEnd.value;
    FirstEndKeepsSound(s, q, r, READ_ONLY, {});
    var t1 := NewFileAccess(NewPipe(s, q), r, q, READ_ONLY);
    NewAccessKeepsSound(t1, w, q, WRITE_ONLY, {r});
    assert {r} + {w} == {r, w};
  }

  /** Giving both ends back undoes everything. */
  lemma DropBothEnds(s: State, t: State, m: PipeMemory)
    requires Good(s) && m.readEnd.Some? && m.writeEnd.Some? && m.readEnd != m.writeEnd
    requires Sound(t, {m.readEnd.value, m.writeEnd.value}) && m.readEnd.value in t.files && m.writeEnd.value in t.files
    requires t.files[m.readEnd.value].refCount == 0 && t.files[m.writeEnd.value].refCount == 0
    requires t.slots == s.slots && t.eof == s.eof && t.procs == s.procs && Inherits(t, s)
    ensures FreeEnd(FreeEnd(t, m.readEnd), m.writeEnd) == s
  {
    var r, w := m.readEnd.value, m.writeEnd.value;
    FreeKeepsSound(t, r, {r, w});
    var t1 := FreeFileAccess(t, r);
    assert {r, w} - {r} == {w};
    DropInHand(t1, w);
    BackAgain(s, FreeFileAccess(t1, w));
  }

  /** Only some of the three allocations succeed. */
  lemma PartialPipeIsUndone(s: State, p: Pid, m: PipeMemory)
    requires Good(s) && UnusedAnswers(s, m) && (m.pipe.None? || m.readEnd.None? || m.writeEnd.None?)
    ensures SysPipe(s, p, m).state == s && SysPipe(s, p, m).value == -1
  {
    if m.pipe.Some? {
      var q := m.pipe.value;
      if m.readEnd.Some? {
        FirstEndKeepsSound(s, q, m.readEnd.value, READ_ONLY, {});
        OneEndIsUndone(s, NewFileAccess(NewPipe(s, q), m.readEnd.value, q, READ_ONLY), m.readEnd.value);
      } else if m.writeEnd.Some? {
        FirstEndKeepsSound(s, q, m.writeEnd.value, WRITE_ONLY, {});
        OneEndIsUndone(s, NewFileAccess(NewPipe(s, q), m.writeEnd.value, q, WRITE_ONLY), m.writeEnd.value);
      } else {
        assert s.pipes[q := Counts(0, 0)] - {q} == s.pipes;
      }
    }
  }

  lemma OneEndIsUndone(s: State, t: State, fa: Address)
    requires Good(s) && Sound(t, {} + {fa}) && fa in t.files && t.files[fa].refCount == 0
    requires t.slots == s.slots && t.eof == s.eof && t.procs == s.procs && Inherits(t, s)
    ensures FreeFileAccess(t, fa) == s
  {
    assert {} + {fa} == {fa};
    DropInHand(t, fa);
    BackAgain(s, FreeFileAccess(t, fa));
  }

  /** The first closed slot of p after the one at i has been filled. */
  function SecondClosed(s: State, p: Pid): nat
    requires FirstClosed(s, p, 0) < MAX_FDS
  {
    FirstClosed(s, p, FirstClosed(s, p, 0) + 1)
  }

  lemma {:induction false} FillMovesFirstClosed(s: State, t: State, p: Pid, fa: Address, i: nat)
    requires i <= FirstClosed(s, p, 0) < MAX_FDS && t.slots == s.slots[Fd(p, FirstClosed(s, p, 0)) := fa]
    ensures FirstClosed(t, p, i) == SecondClosed(s, p)
    decreases MAX_FDS - i
  {
    var c := FirstClosed(s, p, 0);
    if i < c {
      FillMovesFirstClosed(s, t, p, fa, i + 1);
    } else {
      SameFrom(s, t, p, c + 1);
    }
  }

  lemma {:induction false} SameFrom(s: State, t: State, p: Pid, i: nat)
    requires i <= MAX_FDS && forall j :: i <= j < MAX_FDS ==> (Fd(p, j) in s.slots <==> Fd(p, j) in t.slots)
    ensures FirstClosed(s, p, i) == FirstClosed(t, p, i)
    decreases MAX_FDS - i
  {
    if i < MAX_FDS {
      SameFrom(s, t, p, i + 1);
    }
  }

  /** Whether sysPipe can succeed: three allocations and two closed slots. */
  predicate PipeFits(s: State, p: Pid, m: PipeMemory) {
    && m.pipe.Some? && m.readEnd.Some? && m.writeEnd.Some?
    && FirstClosed(s, p, 0) < MAX_FDS && SecondClosed(s, p) < MAX_FDS
  }

  /** A failed sysPipe changes no table and no count. */
  lemma FailedPipeChangesNothing(s: State, p: Pid, m: PipeMemory)
    requires Good(s) && p in s.procs && UnusedAnswers(s, m) && !PipeFits(s, p, m)
    ensures SysPipe(s, p, m).state == s && SysPipe(s, p, m).value == -1
  {
    if m.pipe.None? || m.readEnd.None? || m.writeEnd.None? {
      PartialPipeIsUndone(s, p, m);
    } else {
      var q, r, w := m.pipe.value, m.readEnd.value, m.writeEnd.value;
      BothEndsInHand(s, m);
      var t := NewFileAccess(NewFileAccess(NewPipe(s, q), r, q, READ_ONLY), w, q, WRITE_ONLY);
      AddKeepsSound(t, p, r, {r, w});
      SameFirstClosed(s, t, p, 0);
      if FirstClosed(s, p, 0) == MAX_FDS {
        DropBothEnds(s, t, m);
      } else {
        NoSecondSlot(s, t, p, m);
      }
    }
  }

  /** The read end gets the first closed slot while the write end stays in hand. */
  lemma AddReadEnd(s: State, t: State, p: Pid, r: Address, w: Address)
    requires p in s.procs && FirstClosed(s, p, 0) < MAX_FDS
    requires r != w && Sound(t, {r, w}) && r in t.files && w in t.files
    requires t.slots == s.slots && t.eof == s.eof && t.procs == s.procs
    ensures var a := AddFd(t, p, r);
      && a.value == FirstClosed(s, p, 0) && Sound(a.state, {w}) && FirstClosed(a.state, p, 0) == SecondClosed(s, p)
      && a.state.files == t.files[r := t.files[r].(refCount := t.files[r].refCount + 1)]
      && a.state.slots == s.slots[Fd(p, FirstClosed(s, p, 0)) := r] && a.state.eof == s.eof && a.state.procs == s.procs
      && a.state.pipes == t.pipes
  {
    AddKeepsSound(t, p, r, {r, w});
    SameFirstClosed(s, t, p, 0);
    var a := AddFd(t, p, r).state;
    assert {r, w} - {r} == {w};
    FillMovesFirstClosed(s, a, p, r, 0);
  }

  lemma NoSecondSlot(s: State, t: State, p: Pid, m: PipeMemory)
    requires Good(s) && p in s.procs && m.readEnd.Some? && m.writeEnd.Some? && m.readEnd != m.writeEnd
    requires Sound(t, {m.readEnd.value, m.writeEnd.value}) && m.readEnd.value in t.files && m.writeEnd.value in t.files
    requires t.files[m.readEnd.value].refCount == 0 && t.files[m.writeEnd.value].refCount == 0
    requires t.slots == s.slots && t.eof == s.eof && t.procs == s.procs && Inherits(t, s)
    requires FirstClosed(s, p, 0) < MAX_FDS && SecondClosed(s, p) == MAX_FDS
    ensures var a := AddFd(t, p, m.readEnd.value);
      && a.value >= 0 && AddFd(a.state, p, m.writeEnd.value).value < 0
      && FreeEnd(CloseFd(a.state, p, a.value).state, m.writeEnd) == s
  {
    var r, w := m.readEnd.value, m.writeEnd.value;
    AddReadEnd(s, t, p, r, w);
    TakeBack(s, AddFd(t, p, r).state, p, FirstClosed(s, p, 0), r, w);
  }

  lemma TakeBack(s: State, a: State, p: Pid, i: nat, r: Address, w: Address)
    requires Good(s) && p in s.procs && i < MAX_FDS && Fd(p, i) !in s.slots && r != w
    requires Sound(a, {w}) && w in a.files && a.files[w].refCount == 0
    requires a.slots == s.slots[Fd(p, i) := r] && a.eof == s.eof && a.procs == s.procs
    requires forall fa :: fa in s.files && fa in a.files ==> SameAccess(s, a, fa)
    ensures FreeFileAccess(CloseFd(a, p, i).state, w) == s
  {
    CloseKeepsSound(a, p, i, {w});
    var u := CloseFd(a, p, i).state;
    assert u.slots == s.slots;
    assert Fd(p, i) !in s.eof;
    assert u.eof == s.eof;
    DropInHand(u, w);
    BackAgain(s, FreeFileAccess(u, w));
  }

  /** A successful sysPipe fills the first two closed slots with the two ends of a new pipe. */
  ghost predicate PipeMade(s: State, t: State, p: Pid, a: nat, b: nat, m: PipeMemory)
    requires m.pipe.Some? && m.readEnd.Some? && m.writeEnd.Some?
  {
    var q, r, w := m.pipe.value, m.readEnd.value, m.writeEnd.value;
    && a < b < MAX_FDS && Fd(p, a) !in s.slots && Fd(p, b) !in s.slots
    && t.slots == s.slots[Fd(p, a) := r][Fd(p, b) := w] && t.eof == s.eof && t.procs == s.procs && Inherits(t, s)
    && r in t.files && w in t.files && t.files[r] == Access(q, READ_ONLY, 1) && t.files[w] == Access(q, WRITE_ONLY, 1)
    && t.pipes.Keys == s.pipes.Keys + {q} && q in t.pipes
    && forall fa :: fa in t.files && fa !in s.files ==> fa == r || fa == w
  }

  lemma PipeKeepsGood(s: State, p: Pid, m: PipeMemory)
    requires Good(s) && p in s.procs && UnusedAnswers(s, m) && PipeFits(s, p, m)
    ensures var r := SysPipe(s, p, m);
      && Good(r.state) && r.value == 0 && r.readFd == FirstClosed(s, p, 0) && r.writeFd == SecondClosed(s, p)
      && PipeMade(s, r.state, p, r.readFd, r.writeFd, m)
  {
    var q, r, w := m.pipe.value, m.readEnd.value, m.writeEnd.value;
    BothEndsInHand(s, m);
    var t := NewFileAccess(NewFileAccess(NewPipe(s, q), r, q, READ_ONLY), w, q, WRITE_ONLY);
    AddReadEnd(s, t, p, r, w);
    var a := AddFd(t, p, r).state;
    AddKeepsSound(a, p, w, {w});
    assert {w} - {w} == {};
    assert SysPipe(s, p, m) == PipeReply(AddFd(a, p, w).state, 0, FirstClosed(s, p, 0), SecondClosed(s, p));
  }
}

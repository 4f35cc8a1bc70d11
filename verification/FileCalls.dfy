/** What every call does to the tables, and that it keeps all counts exact. */
module FileCalls {
  import opened FileDescriptors
  import opened FileInvariant

  /** Accesses still in hand (no reference yet) are left alone. */
  predicate KeepsInHand(s: State, t: State) {
    forall fa :: fa in s.files && s.files[fa].refCount == 0 ==> fa in t.files && t.files[fa] == s.files[fa]
  }

  ghost predicate Sound(s: State, inHand: set<Address>) {
    Exact(s) && NoLeak(s, inHand)
  }

  lemma RemoveRefKeepsSound(s: State, k: Slot, inHand: set<Address>)
    requires Sound(s, inHand) && k in s.slots
    ensures var t := RemoveFileRef(s.(slots := s.slots - {k}, eof := s.eof - {k}), s.slots[k]);
      && Sound(t, inHand) && Inherits(s, t) && KeepsInHand(s, t)
      && t.slots == s.slots - {k} && t.eof == s.eof - {k} && t.procs == s.procs
  {
    var fa, e := s.slots[k], Emptied(s, k);
    EmptiedIsExact(s, k);
    assert k in Holders(s, fa);
    if e.files[fa].refCount <= 0 {
      FreeKeepsExact(e, fa);
      FreeIsFreed(e, fa);
      assert fa in AccessesOf(e, e.files[fa].pipe);
    }
  }

  lemma CloseKeepsSound(s: State, p: Pid, fd: int, inHand: set<Address>)
    requires Sound(s, inHand)
    ensures var t := CloseFd(s, p, fd).state;
      && Sound(t, inHand) && Inherits(s, t) && KeepsInHand(s, t)
      && t.slots == s.slots - {Fd(p, fd)} && t.eof == s.eof - {Fd(p, fd)} && t.procs == s.procs
  {
    var k := Fd(p, fd);
    if k in s.slots {
      assert SlotOk(s, k);
      RemoveRefKeepsSound(s, k, inHand);
    } else {
      assert s.slots - {k} == s.slots && s.eof - {k} == s.eof;
    }
  }

  lemma FillKeepsSound(s: State, k: Slot, fa: Address, inHand: set<Address>)
    requires Sound(s, inHand) && k !in s.slots && fa in s.files && SlotOk(s, k)
    ensures var t := Fill(s, k, fa);
      && Sound(t, inHand - {fa}) && Inherits(s, t) && t.files.Keys == s.files.Keys && t.pipes == s.pipes
      && t.slots == s.slots[k := fa] && t.eof == s.eof && t.procs == s.procs
      && t.files == s.files[fa := s.files[fa].(refCount := s.files[fa].refCount + 1)]
  {
    FillKeepsExact(s, k, fa);
    assert s.eof - {k} == s.eof;
  }

  lemma AddKeepsSound(s: State, p: Pid, fa: Address, inHand: set<Address>)
    requires Sound(s, inHand) && fa in s.files && p in s.procs
    ensures var r, i := AddFd(s, p, fa), FirstClosed(s, p, 0);
      if i == MAX_FDS then r == Reply(s, -1)
      else
        && r == Reply(Fill(s, Fd(p, i), fa), i) && Sound(r.state, inHand - {fa}) && Inherits(s, r.state)
        && r.state.files.Keys == s.files.Keys && r.state.pipes == s.pipes
        && r.state.slots == s.slots[Fd(p, i) := fa] && r.state.eof == s.eof && r.state.procs == s.procs
        && r.state.files == s.files[fa := s.files[fa].(refCount := s.files[fa].refCount + 1)]
  {
    var i := FirstClosed(s, p, 0);
    if i < MAX_FDS {
      FillKeepsSound(s, Fd(p, i), fa, inHand);
    }
  }

  lemma NewAccessKeepsSound(s: State, fa: Address, pipe: Address, flags: Flags, inHand: set<Address>)
    requires Sound(s, inHand) && Unused(s, fa) && pipe in s.pipes
    ensures var t := NewFileAccess(s, fa, pipe, flags);
      && Sound(t, inHand + {fa}) && Inherits(t, s) && t.files == s.files[fa := Access(pipe, flags, 0)]
      && t.slots == s.slots && t.eof == s.eof && t.procs == s.procs && t.pipes.Keys == s.pipes.Keys
  {
    NewAccessKeepsExact(s, fa, pipe, flags);
  }

  lemma FirstEndKeepsSound(s: State, pipe: Address, fa: Address, flags: Flags, inHand: set<Address>)
    requires Sound(s, inHand) && Unused(s, fa) && Unused(s, pipe) && pipe != fa
    ensures var t := NewFileAccess(NewPipe(s, pipe), fa, pipe, flags);
      && Sound(t, inHand + {fa}) && Inherits(t, s) && t.files == s.files[fa := Access(pipe, flags, 0)]
      && t.slots == s.slots && t.eof == s.eof && t.procs == s.procs && t.pipes.Keys == s.pipes.Keys + {pipe}
  {
    var n := NewPipe(s, pipe);
    SameAccesses(s, n);
    SameHolders(s, n);
    assert forall f :: f in s.files ==> s.files[f].pipe != pipe;
    assert AccessesOf(s, pipe) == {} && WritersOf(s, pipe) == {};
    NewAccessKeepsExact(n, fa, pipe, flags);
  }

  lemma FreeKeepsSound(s: State, fa: Address, inHand: set<Address>)
    requires Sound(s, inHand) && fa in s.files && s.files[fa].refCount == 0
    ensures var t := FreeFileAccess(s, fa);
      && Sound(t, inHand - {fa}) && Inherits(s, t) && t.files == s.files - {fa}
      && t.slots == s.slots && t.eof == s.eof && t.procs == s.procs
  {
    FreeKeepsExact(s, fa);
    FreeIsFreed(s, fa);
  }

  // ----- the table of one process

  /** dup makes newFd refer to what oldFd refers to, and nothing if that is closed. */
  lemma DupKeepsGood(s: State, p: Pid, oldFd: int, newFd: int)
    requires Good(s) && p in s.procs
    ensures var r := DupFd(s, p, oldFd, newFd);
      && Good(r.state) && Inherits(s, r.state) && r.state.procs == s.procs
      && r.value == (if IsValidFd(newFd) then newFd else -1)
      && r.state.slots == if !IsValidFd(newFd) || oldFd == newFd then s.slots
                          else if IsOpen(s, p, oldFd) then s.slots[Fd(p, newFd) := s.slots[Fd(p, oldFd)]]
                          else s.slots - {Fd(p, newFd)}
  {
    if IsValidFd(newFd) && oldFd != newFd {
      CloseKeepsSound(s, p, newFd, {});
      var t := CloseFd(s, p, newFd).state;
      assert IsOpen(s, p, newFd) || t == s;
      if IsOpen(s, p, oldFd) {
        assert t.slots[Fd(p, oldFd)] == s.slots[Fd(p, oldFd)];
        FillKeepsSound(t, Fd(p, newFd), s.slots[Fd(p, oldFd)], {});
      }
    }
  }

  // ----- the counts say nothing new

  /** Two sound states with the same slots, leading to the same pipes with the same flags, are the same. */
  lemma CountsAreDetermined(s: State, t: State)
    requires Good(s) && Good(t) && s.slots == t.slots
    requires forall k :: k in s.slots ==> SameAccess(s, t, s.slots[k])
    ensures s.files == t.files && s.pipes == t.pipes
  {
    SameHolders(s, t);
    forall fa
      ensures fa in s.files.Keys <==> fa in t.files.Keys
    {
      if fa in s.files {
        var k := HasHolder(s, fa);
        assert k in t.slots;
      }
      if fa in t.files {
        var k := HasHolder(t, fa);
        assert k in s.slots;
      }
    }
    forall fa | fa in s.files
      ensures s.files[fa] == t.files[fa]
    {
      var k := HasHolder(s, fa);
    }
    assert s.files == t.files;
    SamePipes(s, t);
  }

  lemma HasHolder(s: State, fa: Address) returns (k: Slot)
    requires Good(s) && fa in s.files
    ensures k in s.slots && s.slots[k] == fa
  {
    assert |Holders(s, fa)| > 0;
    assert Holders(s, fa) != {};
    k :| k in Holders(s, fa);
  }

  lemma NotEmpty(all: set<Address>)
    requires |all| > 0
    ensures exists fa :: fa in all
  {
    assert (forall fa :: fa !in all) ==> all == {};
  }

  lemma HasAccess(s: State, q: Address) returns (fa: Address)
    requires Good(s) && q in s.pipes
    ensures fa in s.files && s.files[fa].pipe == q
  {
    NotEmpty(AccessesOf(s, q));
    fa :| fa in AccessesOf(s, q);
  }

  lemma SamePipes(s: State, t: State)
    requires Good(s) && Good(t) && s.files == t.files
    ensures s.pipes == t.pipes
  {
    SameAccesses(s, t);
    forall q
      ensures q in s.pipes.Keys <==> q in t.pipes.Keys
    {
      if q in s.pipes {
        var fa := HasAccess(s, q);
      }
      if q in t.pipes {
        var fa := HasAccess(t, q);
      }
    }
    assert forall q :: q in s.pipes ==> AccessesOf(s, q) == AccessesOf(t, q) && WritersOf(s, q) == WritersOf(t, q);
    assert forall q :: q in s.pipes ==> s.pipes[q] == t.pipes[q];
    assert s.pipes == t.pipes;
  }

  // ----- calls that make accesses

  /** Giving up an access that has no reference yet leaves no trace of it. */
  lemma DropInHand(s: State, fa: Address)
    requires Sound(s, {fa}) && fa in s.files && s.files[fa].refCount == 0
    ensures var t := FreeFileAccess(s, fa);
      Good(t) && Inherits(s, t) && t.slots == s.slots && t.eof == s.eof && t.procs == s.procs
    ensures RemoveFileRef(s, fa) == FreeFileAccess(s, fa)
  {
    FreeKeepsSound(s, fa, {fa});
    var u := s.(files := s.files[fa := s.files[fa].(refCount := -1)]);
    assert u.files - {fa} == s.files - {fa};
  }

  /** A state with the slots of s whose accesses all come from s is s. */
  lemma BackAgain(s: State, t: State)
    requires Good(s) && Good(t) && s.slots == t.slots && s.eof == t.eof && s.procs == t.procs
    requires forall fa :: fa in s.files && fa in t.files ==> SameAccess(s, t, fa)
    ensures t == s
  {
    CountsAreDetermined(s, t);
  }

  /** reopen adds one access to the same pipe in the first closed slot, or changes nothing at all. */
  lemma ReopenKeepsGood(s: State, p: Pid, fd: int, mem: Option<Address>)
    requires Good(s) && p in s.procs && UnusedAnswer(s, mem)
    ensures var r, i := ReopenFd(s, p, fd, mem), FirstClosed(s, p, 0);
      if IsOpen(s, p, fd) && mem.Some? && i < MAX_FDS then
        var fa := s.slots[Fd(p, fd)];
        && r.value == i && Good(r.state) && Inherits(r.state, s)
        && r.state.slots == s.slots[Fd(p, i) := mem.value] && r.state.eof == s.eof && r.state.procs == s.procs
        && r.state.files[mem.value].pipe == s.files[fa].pipe && r.state.files[mem.value].flags == s.files[fa].flags
        && r.state.files[mem.value].refCount == 1
      else r == Reply(s, -1)
  {
    if IsOpen(s, p, fd) && mem.Some? {
      var held := s.slots[Fd(p, fd)];
      HeldIsThere(s, Fd(p, fd));
      CloneAdded(s, p, s.files[held].pipe, s.files[held].flags, mem.value);
    }
  }

  lemma HeldIsThere(s: State, k: Slot)
    requires Exact(s) && k in s.slots
    ensures s.slots[k] in s.files && s.files[s.slots[k]].pipe in s.pipes
  {
    assert s.files[s.slots[k]].refCount == |Holders(s, s.slots[k])|;
  }

  /** A new access goes to the first closed slot, or is given up at once when there is none. */
  lemma CloneAdded(s: State, p: Pid, pipe: Address, flags: Flags, fa: Address)
    requires Good(s) && p in s.procs && Unused(s, fa) && pipe in s.pipes
    ensures var s1, i := NewFileAccess(s, fa, pipe, flags), FirstClosed(s, p, 0);
      var r := AddFd(s1, p, fa);
      if i < MAX_FDS then
        && r.value == i && Good(r.state) && Inherits(r.state, s)
        && r.state.slots == s.slots[Fd(p, i) := fa] && r.state.eof == s.eof && r.state.procs == s.procs
        && r.state.files[fa] == Access(pipe, flags, 1)
      else r.value == -1 && RemoveFileRef(r.state, fa) == s
  {
    var s1 := NewFileAccess(s, fa, pipe, flags);
    NewAccessKeepsSound(s, fa, pipe, flags, {});
    AddKeepsSound(s1, p, fa, {} + {fa});
    SameFirstClosed(s, s1, p, 0);
    if FirstClosed(s, p, 0) == MAX_FDS {
      CloneDropped(s, s1, fa);
    }
  }

  lemma CloneDropped(s: State, s1: State, fa: Address)
    requires Good(s) && Sound(s1, {} + {fa}) && Inherits(s1, s) && fa in s1.files && s1.files[fa].refCount == 0
    requires s1.slots == s.slots && s1.eof == s.eof && s1.procs == s.procs
    ensures RemoveFileRef(s1, fa) == s
  {
    assert {} + {fa} == {fa};
    DropInHand(s1, fa);
    BackAgain(s, FreeFileAccess(s1, fa));
  }

  lemma {:induction false} SameFirstClosed(s: State, t: State, p: Pid, i: nat)
    requires s.slots == t.slots && i <= MAX_FDS
    ensures FirstClosed(s, p, i) == FirstClosed(t, p, i)
    decreases MAX_FDS - i
  {
    if i < MAX_FDS {
      SameFirstClosed(s, t, p, i + 1);
    }
  }
}

/** Both layers of reference counts are exact after every operation, in flight or between calls. */
module FileInvariant {
  import opened FileDescriptors

  ghost function Holders(s: State, fa: Address): set<Slot> {
    set k | k in s.slots && s.slots[k] == fa
  }

  ghost function AccessesOf(s: State, pipe: Address): set<Address> {
    set fa | fa in s.files && s.files[fa].pipe == pipe
  }

  ghost function WritersOf(s: State, pipe: Address): set<Address> {
    set fa | fa in s.files && s.files[fa].pipe == pipe && s.files[fa].flags.write
  }

  /** Only processes that are not terminated have open descriptors, and they are in range. */
  predicate SlotOk(s: State, k: Slot) {
    k.Fd? ==> k.pid in s.procs && IsValidFd(k.fd)
  }

  ghost predicate SlotsOk(s: State) {
    && (forall k :: k in s.slots ==> SlotOk(s, k) && s.slots[k] in s.files)
    && s.eof <= s.slots.Keys
  }

  ghost predicate FilesOk(s: State) {
    forall fa :: fa in s.files ==> s.files[fa].refCount == |Holders(s, fa)| && s.files[fa].pipe in s.pipes
  }

  ghost predicate PipesOk(s: State) {
    forall q :: q in s.pipes ==> s.pipes[q] == Counts(|AccessesOf(s, q)|, |WritersOf(s, q)|)
  }

  /** Nothing referenced is freed and every count is the number of references. */
  ghost predicate Exact(s: State) {
    SlotsOk(s) && FilesOk(s) && PipesOk(s)
  }

  /** Nothing is kept without a reference, except the accesses a call still has in hand. */
  ghost predicate NoLeak(s: State, inHand: set<Address>) {
    && (forall fa :: fa in s.files && fa !in inHand ==> s.files[fa].refCount > 0)
    && (forall q :: q in s.pipes ==> s.pipes[q].refCount > 0)
  }

  ghost predicate Good(s: State) {
    Exact(s) && NoLeak(s, {})
  }

  /** t has no access that s does not have, and what it has leads to the same pipe with the same flags. */
  predicate Inherits(s: State, t: State) {
    forall fa :: fa in t.files ==> fa in s.files && SameAccess(s, t, fa)
  }

  predicate SameAccess(s: State, t: State, fa: Address)
    requires fa in s.files && fa in t.files
  {
    s.files[fa].pipe == t.files[fa].pipe && s.files[fa].flags == t.files[fa].flags
  }

  // ----- the primitive changes

  lemma FillKeepsExact(s: State, k: Slot, fa: Address)
    requires Exact(s) && k !in s.slots && fa in s.files && SlotOk(s, k)
    ensures var t := Fill(s, k, fa);
      Exact(t) && Inherits(s, t) && t.files.Keys == s.files.Keys && t.slots == s.slots[k := fa]
      && t.files[fa].refCount == s.files[fa].refCount + 1
  {
    var t := Fill(s, k, fa);
    assert Holders(t, fa) == Holders(s, fa) + {k};
    assert forall f :: f != fa ==> Holders(t, f) == Holders(s, f);
    SameAccesses(s, t);
  }

  lemma SameAccesses(s: State, t: State)
    requires t.files.Keys == s.files.Keys && Inherits(s, t)
    ensures forall q :: AccessesOf(t, q) == AccessesOf(s, q) && WritersOf(t, q) == WritersOf(s, q)
  {
    forall q
      ensures AccessesOf(t, q) == AccessesOf(s, q) && WritersOf(t, q) == WritersOf(s, q)
    {
      assert forall fa :: fa in AccessesOf(t, q) <==> fa in AccessesOf(s, q);
      assert forall fa :: fa in WritersOf(t, q) <==> fa in WritersOf(s, q);
    }
  }

  /** The state just after a slot was emptied and the count of its access went down. */
  function Emptied(s: State, k: Slot): State
    requires k in s.slots && s.slots[k] in s.files
  {
    var fa := s.slots[k];
    s.(slots := s.slots - {k}, eof := s.eof - {k},
       files := s.files[fa := s.files[fa].(refCount := s.files[fa].refCount - 1)])
  }

  lemma EmptiedIsExact(s: State, k: Slot)
    requires Exact(s) && k in s.slots
    ensures Exact(Emptied(s, k)) && Inherits(s, Emptied(s, k))
  {
    var fa, t := s.slots[k], Emptied(s, k);
    assert Holders(t, fa) == Holders(s, fa) - {k};
    assert k in Holders(s, fa);
    assert forall f :: f != fa ==> Holders(t, f) == Holders(s, f);
    SameAccesses(s, t);
  }

  /** t has exactly one access more than s: fa, to pipe. */
  predicate Joined(s: State, t: State, fa: Address, pipe: Address, write: bool) {
    && fa !in s.files && t.files.Keys == s.files.Keys + {fa} && Inherits(t, s)
    && t.files[fa].pipe == pipe && t.files[fa].flags.write == write
  }

  lemma OneMoreAccess(s: State, t: State, fa: Address, pipe: Address, write: bool)
    requires Joined(s, t, fa, pipe, write)
    ensures |AccessesOf(t, pipe)| == |AccessesOf(s, pipe)| + 1
    ensures |WritersOf(t, pipe)| == |WritersOf(s, pipe)| + if write then 1 else 0
    ensures forall q :: q != pipe ==> AccessesOf(t, q) == AccessesOf(s, q) && WritersOf(t, q) == WritersOf(s, q)
  {
    JoinedAccesses(s, t, fa, pipe, write);
    JoinedWriters(s, t, fa, pipe, write);
  }

  lemma JoinedAccesses(s: State, t: State, fa: Address, pipe: Address, write: bool)
    requires Joined(s, t, fa, pipe, write)
    ensures |AccessesOf(t, pipe)| == |AccessesOf(s, pipe)| + 1
    ensures forall q :: q != pipe ==> AccessesOf(t, q) == AccessesOf(s, q)
  {
    var was, now := AccessesOf(s, pipe), AccessesOf(t, pipe);
    forall f
      ensures f in now <==> f == fa || f in was
    {
      assert f in t.files.Keys <==> f == fa || f in s.files.Keys;
    }
    assert now == was + {fa};
    forall q | q != pipe
      ensures AccessesOf(t, q) == AccessesOf(s, q)
    {
      assert forall f :: f in AccessesOf(t, q) <==> f in AccessesOf(s, q);
    }
  }

  lemma JoinedWriters(s: State, t: State, fa: Address, pipe: Address, write: bool)
    requires Joined(s, t, fa, pipe, write)
    ensures |WritersOf(t, pipe)| == |WritersOf(s, pipe)| + if write then 1 else 0
    ensures forall q :: q != pipe ==> WritersOf(t, q) == WritersOf(s, q)
  {
    var was, now := WritersOf(s, pipe), WritersOf(t, pipe);
    forall f
      ensures f in now <==> (f == fa && write) || f in was
    {
      assert f in t.files.Keys <==> f == fa || f in s.files.Keys;
    }
    assert now == if write then was + {fa} else was;
    JoinedElsewhere(s, t, fa, pipe, write);
  }

  lemma JoinedElsewhere(s: State, t: State, fa: Address, pipe: Address, write: bool)
    requires Joined(s, t, fa, pipe, write)
    ensures forall q :: q != pipe ==> WritersOf(t, q) == WritersOf(s, q)
  {
    forall q | q != pipe
      ensures WritersOf(t, q) == WritersOf(s, q)
    {
      assert forall f :: f in WritersOf(t, q) <==> f in WritersOf(s, q);
    }
  }

  lemma SameHolders(s: State, t: State)
    requires s.slots == t.slots
    ensures forall f :: Holders(t, f) == Holders(s, f)
  {
    forall f
      ensures Holders(t, f) == Holders(s, f)
    {
      assert forall k :: k in Holders(t, f) <==> k in Holders(s, f);
    }
  }

  lemma NewAccessKeepsExact(s: State, fa: Address, pipe: Address, flags: Flags)
    requires Exact(s) && Unused(s, fa) && pipe in s.pipes
    ensures var t := NewFileAccess(s, fa, pipe, flags);
      Exact(t) && t.slots == s.slots && Inherits(t, s) && t.files.Keys == s.files.Keys + {fa}
  {
    var t := NewFileAccess(s, fa, pipe, flags);
    assert |Holders(s, fa)| == 0 by {
      assert Holders(s, fa) == {};
    }
    SameHolders(s, t);
    OneMoreAccess(s, t, fa, pipe, flags.write);
  }

  lemma HeldByNobody(s: State, fa: Address)
    requires Exact(s) && fa in s.files && s.files[fa].refCount == 0
    ensures fa !in s.slots.Values
  {
    assert Holders(s, fa) == {};
    assert forall k :: k in s.slots && s.slots[k] == fa ==> k in Holders(s, fa);
  }

  /** What freeing an access changes, field by field. */
  ghost predicate Freed(s: State, t: State, fa: Address)
    requires fa in s.files && s.files[fa].pipe in s.pipes
  {
    var pipe, c := s.files[fa].pipe, s.pipes[s.files[fa].pipe];
    && t.files == s.files - {fa} && t.slots == s.slots && t.eof == s.eof && t.procs == s.procs
    && t.pipes == if c.refCount - 1 <= 0 then s.pipes - {pipe}
                  else s.pipes[pipe := Counts(c.refCount - 1, c.writerCount - if s.files[fa].flags.write then 1 else 0)]
  }

  lemma FreeIsFreed(s: State, fa: Address)
    requires fa in s.files && s.files[fa].pipe in s.pipes
    ensures Freed(s, FreeFileAccess(s, fa), fa)
  {
    var t, pipe := FreeFileAccess(s, fa), s.files[fa].pipe;
    if s.pipes[pipe].refCount - 1 <= 0 {
      assert t.pipes == s.pipes - {pipe};
    }
  }

  lemma FreedPipes(s: State, t: State, fa: Address)
    requires Exact(s) && fa in s.files && Freed(s, t, fa)
    ensures PipesOk(t)
  {
    OneMoreAccess(t, s, fa, s.files[fa].pipe, s.files[fa].flags.write);
    forall q | q in t.pipes
      ensures t.pipes[q] == Counts(|AccessesOf(t, q)|, |WritersOf(t, q)|)
    {
      assert q in s.pipes;
    }
  }

  /** Freeing an access nobody holds, and its pipe if that was its last access. */
  lemma FreeKeepsExact(s: State, fa: Address)
    requires Exact(s) && fa in s.files && s.files[fa].refCount == 0
    ensures var t := FreeFileAccess(s, fa);
      && Exact(t) && Inherits(s, t) && t.files == s.files - {fa} && t.slots == s.slots
      && t.pipes.Keys == s.pipes.Keys - (if AccessesOf(s, s.files[fa].pipe) == {fa} then {s.files[fa].pipe} else {})
  {
    var t, pipe := FreeFileAccess(s, fa), s.files[fa].pipe;
    FreeIsFreed(s, fa);
    HeldByNobody(s, fa);
    SameHolders(s, t);
    FreedPipes(s, t, fa);
    LastAccess(s, pipe, fa);
    forall f | f in t.files
      ensures t.files[f].pipe in t.pipes
    {
      assert f in AccessesOf(s, s.files[f].pipe);
    }
  }

  lemma LastAccess(s: State, pipe: Address, fa: Address)
    requires fa in AccessesOf(s, pipe)
    ensures |AccessesOf(s, pipe)| >= 1
    ensures |AccessesOf(s, pipe)| == 1 <==> AccessesOf(s, pipe) == {fa}
  {
    var rest := AccessesOf(s, pipe) - {fa};
    assert AccessesOf(s, pipe) == rest + {fa};
    assert |rest| == 0 <==> rest == {};
  }
}

/** What every system call on descriptors does to every slot of every table. */
module FileActions {
  import opened FileDescriptors
  import opened FileInvariant
  import opened FileCalls
  import opened FilePipes
  import opened FileTables
  import opened FileRuns

  /** A descriptor table on its own. */
  type Table = map<int, Address>

  ghost function TableOf(s: State, p: Pid): Table {
    map fd | 0 <= fd < MAX_FDS && Fd(p, fd) in s.slots :: s.slots[Fd(p, fd)]
  }

  /** An override closes a descriptor or makes it lead where another one does; out of range it does nothing. */
  function Overridden(t: Table, o: Override): Table {
    if !IsValidFd(o.affected) || o.affected == o.target then t
    else if o.target in t then t[o.affected := t[o.target]]
    else t - {o.affected}
  }

  function OverriddenAll(t: Table, overrides: seq<Override>): Table
    decreases |overrides|
  {
    if overrides == [] then t else OverriddenAll(Overridden(t, overrides[0]), overrides[1..])
  }

  lemma OverrideTable(s: State, p: Pid, o: Override)
    requires Good(s) && p in s.procs
    ensures TableOf(ApplyOverride(s, p, o), p) == Overridden(TableOf(s, p), o)
  {
    OverrideKeepsGood(s, p, o);
    OverriddenSlots(s, ApplyOverride(s, p, o), p, o);
  }

  lemma OverriddenSlots(s: State, t: State, p: Pid, o: Override)
    requires t.slots == OverrideSlots(s, p, o)
    ensures TableOf(t, p) == Overridden(TableOf(s, p), o)
  {
    assert o.target in TableOf(s, p) <==> IsOpen(s, p, o.target);
  }

  lemma {:induction false} OverridesTable(s: State, p: Pid, overrides: seq<Override>)
    requires Good(s) && p in s.procs
    ensures TableOf(ApplyOverrides(s, p, overrides), p) == OverriddenAll(TableOf(s, p), overrides)
    decreases |overrides|
  {
    if overrides != [] {
      OverrideTable(s, p, overrides[0]);
      OverrideKeepsGood(s, p, overrides[0]);
      OverridesTable(ApplyOverride(s, p, overrides[0]), p, overrides[1..]);
    }
  }

  /** A new process starts with its parent's table, the overrides applied to it one after the other. */
  lemma SpawnTable(s: State, parent: Pid, child: Pid, overrides: seq<Override>)
    requires Good(s) && parent in s.procs && child !in s.procs
    ensures var t := Spawn(s, parent, Some(child), overrides).state;
      && TableOf(t, child) == OverriddenAll(TableOf(s, parent), overrides)
      && OnlyTableOf(child, s, t) && t.procs == s.procs + {child}
  {
    var t0 := CopiedTable(s, parent, child);
    SpawnKeepsGood(s, parent, Some(child), overrides);
    OverridesTable(t0, child, overrides);
  }

  lemma CopiedTable(s: State, parent: Pid, child: Pid) returns (t: State)
    requires Good(s) && parent in s.procs && child !in s.procs
    ensures t == Spawn(s, parent, Some(child), []).state && Good(t) && child in t.procs
    ensures TableOf(t, child) == TableOf(s, parent)
  {
    t := Spawn(s, parent, Some(child), []).state;
    Inherited(s, parent, child);
  }

  // ----- every call

  ghost predicate SameTables(s: State, t: State) {
    t.slots == s.slots && t.procs == s.procs
  }

  /** The slots, the living processes and, where that is all the call does, the requested ends of file. */
  ghost predicate Acts(s: State, c: Call, t: State) {
    match c
    case Close(p, fd) =>
      t.slots == s.slots - {Fd(p, fd)} && t.eof == s.eof - {Fd(p, fd)} && t.procs == s.procs
    case Dup(p, oldFd, newFd) =>
      && t.procs == s.procs
      && t.slots == (if !IsValidFd(newFd) || oldFd == newFd then s.slots
                     else if IsOpen(s, p, oldFd) then s.slots[Fd(p, newFd) := s.slots[Fd(p, oldFd)]]
                     else s.slots - {Fd(p, newFd)})
    case Reopen(p, fd, mem) =>
      if IsOpen(s, p, fd) && mem.Some? && FirstClosed(s, p, 0) < MAX_FDS then
        && Fd(p, fd) in s.slots && s.slots[Fd(p, fd)] in s.files && mem.value in t.files
        && t.slots == s.slots[Fd(p, FirstClosed(s, p, 0)) := mem.value] && t.procs == s.procs
        && t.files[mem.value].pipe == s.files[s.slots[Fd(p, fd)]].pipe
        && t.files[mem.value].flags == s.files[s.slots[Fd(p, fd)]].flags
      else t == s
    case MakePipe(p, m) =>
      if PipeFits(s, p, m) then
        && t.procs == s.procs
        && t.slots == s.slots[Fd(p, FirstClosed(s, p, 0)) := m.readEnd.value]
                             [Fd(p, SecondClosed(s, p)) := m.writeEnd.value]
        && m.readEnd.value in t.files && m.writeEnd.value in t.files
        && t.files[m.readEnd.value] == Access(m.pipe.value, READ_ONLY, 1)
        && t.files[m.writeEnd.value] == Access(m.pipe.value, WRITE_ONLY, 1)
      else t == s
    case Create(p, child, overrides) =>
      if child.Some? && child.value !in s.procs then
        && TableOf(t, child.value) == OverriddenAll(TableOf(s, p), overrides)
        && OnlyTableOf(child.value, s, t) && t.procs == s.procs + {child.value}
      else t == s
    case Exit(p) =>
      && t.procs == s.procs - {p}
      && (forall k :: k in t.slots <==> k in s.slots && !(k.Fd? && k.pid == p))
      && (forall k :: k in t.slots ==> t.slots[k] == s.slots[k])
    case Eof(p, fd) =>
      && SameTables(s, t) && t.files == s.files && t.pipes == s.pipes
      && t.eof == if IsOpen(s, p, fd) then s.eof + {Fd(p, fd)} else s.eof
  }

  /** Every call any process can make acts as its kind says, keeps all counts exact, and turns no access into
      another. */
  lemma EveryCallActs(s: State, c: Call)
    requires Good(s) && CanCall(s, c)
    ensures Acts(s, c, Perform(s, c)) && Good(Perform(s, c))
    ensures forall fa :: fa in Perform(s, c).files && fa in s.files ==> SameAccess(s, Perform(s, c), fa)
  {
    CallKeepsGood(s, c);
    match c
    case Close(p, fd) => CloseKeepsSound(s, p, fd, {});
    case Dup(p, oldFd, newFd) => DupKeepsGood(s, p, oldFd, newFd);
    case Reopen(p, fd, mem) => ReopenActs(s, p, fd, mem);
    case MakePipe(p, m) => MakePipeActs(s, p, m);
    case Create(p, child, overrides) =>
      SpawnKeepsGood(s, p, child, overrides);
      if child.Some? && child.value !in s.procs {
        SpawnTable(s, p, child.value, overrides);
      }
    case Exit(p) => TerminateKeepsGood(s, p);
    case Eof(p, fd) => EofKeepsGood(s, p, fd);
  }

  lemma ReopenActs(s: State, p: Pid, fd: int, mem: Option<Address>)
    requires Good(s) && CanCall(s, Reopen(p, fd, mem))
    ensures Acts(s, Reopen(p, fd, mem), ReopenFd(s, p, fd, mem).state)
    ensures Inherits(ReopenFd(s, p, fd, mem).state, s)
  {
    ReopenKeepsGood(s, p, fd, mem);
    if IsOpen(s, p, fd) {
      HeldIsThere(s, Fd(p, fd));
    }
    var t := ReopenFd(s, p, fd, mem).state;
    if IsOpen(s, p, fd) && mem.Some? && FirstClosed(s, p, 0) < MAX_FDS {
      HeldIsThere(t, Fd(p, FirstClosed(s, p, 0)));
    }
  }

  lemma MakePipeActs(s: State, p: Pid, m: PipeMemory)
    requires Good(s) && CanCall(s, MakePipe(p, m))
    ensures Acts(s, MakePipe(p, m), SysPipe(s, p, m).state)
    ensures Inherits(SysPipe(s, p, m).state, s)
  {
    if PipeFits(s, p, m) {
      PipeKeepsGood(s, p, m);
    } else {
      FailedPipeChangesNothing(s, p, m);
    }
  }
}

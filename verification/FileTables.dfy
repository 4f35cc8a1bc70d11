/** Calls on whole tables: inheriting, overriding and closing everything. */
module FileTables {
  import opened FileDescriptors
  import opened FileInvariant
  import opened FileCalls

  /** The slots of p from i on. */
  predicate InRange(k: Slot, p: Pid, i: nat) {
    k.Fd? && k.pid == p && i <= k.fd < MAX_FDS
  }

  lemma {:induction false} CloseFromKeepsGood(s: State, p: Pid, i: nat)
    requires Good(s) && p in s.procs && i <= MAX_FDS
    ensures var t := CloseFrom(s, p, i);
      && Good(t) && Inherits(s, t) && t.procs == s.procs
      && (forall k :: k in t.slots <==> k in s.slots && !InRange(k, p, i))
      && (forall k :: k in t.slots ==> t.slots[k] == s.slots[k])
      && (forall k :: k in t.eof <==> k in s.eof && !InRange(k, p, i))
    decreases MAX_FDS - i
  {
    if i < MAX_FDS {
      CloseKeepsSound(s, p, i, {});
      var s1 := if Fd(p, i) in s.slots then CloseFd(s, p, i).state else s;
      CloseFromKeepsGood(s1, p, i + 1);
      assert forall k :: InRange(k, p, i) <==> k == Fd(p, i) || InRange(k, p, i + 1);
      InheritsThrough(s, s1, CloseFrom(s, p, i));
    }
  }

  lemma InheritsThrough(s: State, t: State, u: State)
    requires Inherits(s, t) && Inherits(t, u)
    ensures Inherits(s, u)
  {
    assert forall fa :: fa in u.files ==> SameAccess(t, u, fa);
  }

  /** Termination closes every descriptor of p and touches no other slot. */
  lemma TerminateKeepsGood(s: State, p: Pid)
    requires Good(s) && p in s.procs
    ensures var t := Terminate(s, p);
      && Good(t) && Inherits(s, t) && t.procs == s.procs - {p}
      && (forall k :: k in t.slots <==> k in s.slots && !(k.Fd? && k.pid == p))
      && (forall k :: k in t.slots ==> t.slots[k] == s.slots[k])
      && (forall k :: k in t.eof <==> k in s.eof && !(k.Fd? && k.pid == p))
  {
    CloseFromKeepsGood(s, p, 0);
    var c := CloseFrom(s, p, 0);
    var t := Terminate(s, p);
    assert forall k :: k in s.slots ==> SlotOk(s, k);
    assert forall k :: k in s.eof ==> k in s.slots.Keys;
    SameHolders(c, t);
    SameAccesses(c, t);
  }

  /** One slot of the table is copied, replacing what the target had. */
  function CopySlot(s: State, target: Pid, source: Pid, i: nat): State {
    var s1 := if Fd(target, i) in s.slots then CloseFd(s, target, i).state else s;
    if Fd(source, i) in s1.slots then OpenFd(s1, target, s1.slots[Fd(source, i)], i).state else s1
  }

  lemma CopySlotKeepsGood(s: State, target: Pid, source: Pid, i: nat)
    requires Good(s) && target in s.procs && target != source && i < MAX_FDS
    ensures var t := CopySlot(s, target, source, i);
      && Good(t) && Inherits(s, t) && t.procs == s.procs && t.eof == s.eof - {Fd(target, i)}
      && t.slots == if Fd(source, i) in s.slots then s.slots[Fd(target, i) := s.slots[Fd(source, i)]]
                    else s.slots - {Fd(target, i)}
  {
    CloseKeepsSound(s, target, i, {});
    var s1 := if Fd(target, i) in s.slots then CloseFd(s, target, i).state else s;
    assert s1 == CloseFd(s, target, i).state;
    if Fd(source, i) in s.slots {
      FillKeepsSound(s1, Fd(target, i), s1.slots[Fd(source, i)], {});
    }
  }

  lemma {:induction false} CopyFromKeepsGood(s: State, target: Pid, source: Pid, i: nat)
    requires Good(s) && target in s.procs && target != source && i <= MAX_FDS
    ensures var t := CopyFrom(s, target, source, i);
      && Good(t) && Inherits(s, t) && t.procs == s.procs
      && (forall k :: !InRange(k, target, i) ==>
          (k in t.slots <==> k in s.slots) && (k in t.slots ==> t.slots[k] == s.slots[k]))
      && (forall fd :: i <= fd < MAX_FDS ==> (Fd(target, fd) in t.slots <==> Fd(source, fd) in s.slots))
      && (forall fd :: i <= fd < MAX_FDS && Fd(source, fd) in s.slots ==>
          t.slots[Fd(target, fd)] == s.slots[Fd(source, fd)])
      && (forall k :: k in t.eof <==> k in s.eof && !InRange(k, target, i))
    decreases MAX_FDS - i
  {
    if i < MAX_FDS {
      CopySlotKeepsGood(s, target, source, i);
      var s1 := CopySlot(s, target, source, i);
      CopyFromKeepsGood(s1, target, source, i + 1);
      assert CopyFrom(s, target, source, i) == CopyFrom(s1, target, source, i + 1);
      InheritsThrough(s, s1, CopyFrom(s, target, source, i));
      CopyStep(s, s1, CopyFrom(s, target, source, i), target, source, i);
    }
  }

  /** Copying slot i and then the slots above it is copying from i on. */
  lemma CopyStep(s: State, s1: State, t: State, target: Pid, source: Pid, i: nat)
    requires target != source && i < MAX_FDS
    requires s1.eof == s.eof - {Fd(target, i)}
      && s1.slots == if Fd(source, i) in s.slots then s.slots[Fd(target, i) := s.slots[Fd(source, i)]]
          else s.slots - {Fd(target, i)}
    requires forall k :: !InRange(k, target, i + 1) ==>
        (k in t.slots <==> k in s1.slots) && (k in t.slots ==> t.slots[k] == s1.slots[k])
    requires forall fd :: i + 1 <= fd < MAX_FDS ==> (Fd(target, fd) in t.slots <==> Fd(source, fd) in s1.slots)
    requires forall fd :: i + 1 <= fd < MAX_FDS && Fd(source, fd) in s1.slots ==>
        t.slots[Fd(target, fd)] == s1.slots[Fd(source, fd)]
    requires forall k :: k in t.eof <==> k in s1.eof && !InRange(k, target, i + 1)
    ensures forall k :: !InRange(k, target, i) ==>
        (k in t.slots <==> k in s.slots) && (k in t.slots ==> t.slots[k] == s.slots[k])
    ensures forall fd :: i <= fd < MAX_FDS ==> (Fd(target, fd) in t.slots <==> Fd(source, fd) in s.slots)
    ensures forall fd :: i <= fd < MAX_FDS && Fd(source, fd) in s.slots ==>
        t.slots[Fd(target, fd)] == s.slots[Fd(source, fd)]
    ensures forall k :: k in t.eof <==> k in s.eof && !InRange(k, target, i)
  {
    assert forall k :: InRange(k, target, i) <==> k == Fd(target, i) || InRange(k, target, i + 1);
    assert !InRange(Fd(target, i), target, i + 1);
  }

  // ----- overrides

  /** What one override does to the new process's table. */
  function OverrideSlots(s: State, p: Pid, o: Override): map<Slot, Address> {
    if !IsValidFd(o.affected) || (o.target != -1 && o.affected == o.target) then s.slots
    else if o.target != -1 && IsOpen(s, p, o.target) then s.slots[Fd(p, o.affected) := s.slots[Fd(p, o.target)]]
    else s.slots - {Fd(p, o.affected)}
  }

  function ApplyOverride(s: State, p: Pid, o: Override): State {
    if o.target == -1 then CloseFd(s, p, o.affected).state else DupFd(s, p, o.target, o.affected).state
  }

  lemma OverrideKeepsGood(s: State, p: Pid, o: Override)
    requires Good(s) && p in s.procs
    ensures var t := ApplyOverride(s, p, o);
      Good(t) && Inherits(s, t) && t.procs == s.procs && t.slots == OverrideSlots(s, p, o)
  {
    if o.target == -1 {
      CloseKeepsSound(s, p, o.affected, {});
      if !IsValidFd(o.affected) {
        assert Fd(p, o.affected) !in s.slots by {
          assert Fd(p, o.affected) in s.slots ==> SlotOk(s, Fd(p, o.affected));
        }
      }
    } else {
      DupKeepsGood(s, p, o.target, o.affected);
    }
  }

  /** No slot outside p's table changes. */
  ghost predicate OnlyTableOf(p: Pid, s: State, t: State) {
    forall k: Slot :: !(k.Fd? && k.pid == p) ==>
        (k in t.slots <==> k in s.slots) && (k in t.slots ==> t.slots[k] == s.slots[k])
  }

  lemma {:induction false} OverridesKeepGood(s: State, p: Pid, overrides: seq<Override>)
    requires Good(s) && p in s.procs
    ensures var t := ApplyOverrides(s, p, overrides);
      Good(t) && Inherits(s, t) && t.procs == s.procs && OnlyTableOf(p, s, t)
    decreases |overrides|
  {
    if overrides != [] {
      var s1 := ApplyOverride(s, p, overrides[0]);
      OverrideKeepsGood(s, p, overrides[0]);
      OverridesKeepGood(s1, p, overrides[1..]);
      InheritsThrough(s, s1, ApplyOverrides(s, p, overrides));
    }
  }

  /** A new process has an empty table. */
  lemma NewTable(s: State, child: Pid)
    requires Good(s) && child !in s.procs
    ensures var t := s.(procs := s.procs + {child});
      Good(t) && Inherits(s, t) && forall k :: k in t.slots || k in t.eof ==> !InRange(k, child, 0)
  {
    var t := s.(procs := s.procs + {child});
    SameHolders(s, t);
    SameAccesses(s, t);
    assert forall k :: k in s.slots ==> SlotOk(s, k) && SlotOk(t, k);
    assert forall k :: k in s.eof ==> k in s.slots.Keys;
  }

  /** The new process's table is a copy of its parent's; nothing else changes. */
  lemma Inherited(s: State, parent: Pid, child: Pid)
    requires Good(s) && parent in s.procs && child !in s.procs
    ensures var t := Spawn(s, parent, Some(child), []).state;
      && Good(t) && Inherits(s, t) && t.procs == s.procs + {child} && OnlyTableOf(child, s, t)
      && (forall fd :: IsValidFd(fd) ==> (Fd(child, fd) in t.slots <==> Fd(parent, fd) in s.slots))
      && (forall fd :: IsValidFd(fd) && Fd(parent, fd) in s.slots ==> t.slots[Fd(child, fd)] == s.slots[Fd(parent, fd)])
      && (forall k :: k in t.eof <==> k in s.eof)
  {
    NewTable(s, child);
    var s1 := s.(procs := s.procs + {child});
    var t := CopyFrom(s1, child, parent, 0);
    CopyFromKeepsGood(s1, child, parent, 0);
    InheritsThrough(s, s1, t);
    SlotsInRange(s, child);
    SlotsInRange(t, child);
  }

  lemma SlotsInRange(t: State, p: Pid)
    requires Good(t)
    ensures forall k: Slot :: k.Fd? && k.pid == p && k in t.slots ==> InRange(k, p, 0)
  {
    assert forall k :: k in t.slots ==> SlotOk(t, k);
  }

  lemma SpawnKeepsGood(s: State, parent: Pid, child: Option<Pid>, overrides: seq<Override>)
    requires Good(s) && parent in s.procs
    ensures var r := Spawn(s, parent, child, overrides);
      if child.Some? && child.value !in s.procs then
        && r.value == child.value && Good(r.state) && Inherits(s, r.state) && r.state.procs == s.procs + {child.value}
        && OnlyTableOf(child.value, s, r.state)
        && r.state == ApplyOverrides(Spawn(s, parent, child, []).state, child.value, overrides)
      else r == Reply(s, -1)
  {
    if child.Some? && child.value !in s.procs {
      Inherited(s, parent, child.value);
      var t := Spawn(s, parent, child, []).state;
      OverridesKeepGood(t, child.value, overrides);
      InheritsThrough(s, t, ApplyOverrides(t, child.value, overrides));
    }
  }
}

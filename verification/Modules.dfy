/** Two programs that must agree on bytes: the packer that appends modules to the kernel, and the loader that copies
    them out. */
module Modules {

  type Byte = x: int | 0 <= x < 256

  const BUFFER_SIZE: nat := 128
  const WORD_RANGE: nat := 0x1_0000_0000

  // ----- the format

  /** A value as a 32-bit little-endian field; wider values are cut. */
  function Encode32(n: nat): (b: seq<Byte>)
    ensures |b| == 4
  {
    [n % 256, n / 0x100 % 256, n / 0x1_0000 % 256, n / 0x100_0000 % 256]
  }

  function Decode32(b: seq<Byte>): (n: nat)
    requires |b| == 4
    ensures n < WORD_RANGE
  {
    (b[0] as int) + 0x100 * (b[1] as int) + 0x1_0000 * (b[2] as int) + 0x100_0000 * (b[3] as int)
  }

  /** A field gives back what was put in exactly when it fits 32 bits. */
  lemma FieldRoundTrip(n: nat)
    ensures Decode32(Encode32(n)) == n % WORD_RANGE
    ensures Decode32(Encode32(n)) == n <==> n < WORD_RANGE
  {
    var a, b, c := n / 0x100, n / 0x1_0000, n / 0x100_0000;
    assert b == a / 0x100 && c == b / 0x100;
    assert n == 0x100 * a + n % 256 && a == 0x100 * b + a % 256 && b == 0x100 * c + b % 256
        && c == 0x100 * (c / 256) + c % 256;
    assert n == WORD_RANGE * (c / 256) + Decode32(Encode32(n));
  }

  function Record(m: seq<Byte>): seq<Byte> {
    Encode32(|m|) + m
  }

  function Records(ms: seq<seq<Byte>>): seq<Byte> {
    if ms == [] then [] else Records(ms[..|ms| - 1]) + Record(ms[|ms| - 1])
  }

  /** What follows the kernel: how many modules, then each one after its size. */
  function Payload(ms: seq<seq<Byte>>): seq<Byte> {
    Encode32(|ms|) + Records(ms)
  }

  function Image(files: seq<seq<Byte>>): seq<Byte>
    requires files != []
  {
    files[0] + Payload(files[1..])
  }

  /** Where the record of module i begins in the payload. */
  function Offset(ms: seq<seq<Byte>>, i: nat): nat
    requires i <= |ms|
  {
    4 + |Records(ms[..i])|
  }

  lemma OffsetStep(ms: seq<seq<Byte>>, i: nat)
    requires i < |ms|
    ensures Records(ms[..i + 1]) == Records(ms[..i]) + Record(ms[i])
    ensures Offset(ms, i + 1) == Offset(ms, i) + 4 + |ms[i]|
  {
    assert ms[..i + 1][..i] == ms[..i];
  }

  /** Every prefix of the modules is a prefix of the records. */
  lemma {:induction false} RecordsPrefix(ms: seq<seq<Byte>>, i: nat)
    requires i <= |ms|
    ensures Offset(ms, i) <= |Payload(ms)| && Payload(ms)[..Offset(ms, i)] == Encode32(|ms|) + Records(ms[..i])
    decreases |ms| - i
  {
    if i == |ms| {
      assert ms[..i] == ms;
    } else {
      RecordsPrefix(ms, i + 1);
      OffsetStep(ms, i);
      var whole := Encode32(|ms|) + Records(ms[..i + 1]);
      assert whole == Encode32(|ms|) + Records(ms[..i]) + Record(ms[i]);
      assert Payload(ms)[..Offset(ms, i)] == whole[..Offset(ms, i)];
    }
  }

  /** The record of module i lies at its offset. */
  lemma RecordAt(ms: seq<seq<Byte>>, i: nat)
    requires i < |ms|
    ensures Offset(ms, i) + 4 + |ms[i]| == Offset(ms, i + 1) <= |Payload(ms)|
    ensures Payload(ms)[Offset(ms, i)..Offset(ms, i) + 4] == Encode32(|ms[i]|)
    ensures Payload(ms)[Offset(ms, i) + 4..Offset(ms, i + 1)] == ms[i]
  {
    OffsetStep(ms, i);
    RecordsPrefix(ms, i + 1);
    var o, whole := Offset(ms, i), Encode32(|ms|) + Records(ms[..i]) + Record(ms[i]);
    assert Payload(ms)[..Offset(ms, i + 1)] == whole;
    assert whole[o..] == Record(ms[i]);
    assert Payload(ms)[o..o + 4] == whole[o..][..4];
    assert Payload(ms)[o + 4..Offset(ms, i + 1)] == whole[o..][4..];
  }

  // ----- the packer

  /** A file open for reading: the end is noticed only by a read that falls short. */
  class Source {
    const data: seq<Byte>
    var pos: nat
    var eof: bool

    ghost predicate Valid()
      reads this
    {
      pos <= |data| && (eof ==> pos == |data|)
    }

    constructor Open(data: seq<Byte>)
      ensures Valid() && this.data == data && pos == 0 && !eof
    {
      this.data, pos, eof := data, 0, false;
    }

    method Read(max: nat) returns (buffer: seq<Byte>)
      requires Valid()
      modifies this
      ensures Valid() && old(pos) <= pos && buffer == data[old(pos)..pos]
      ensures |buffer| <= max && eof == (old(eof) || |buffer| < max)
    {
      var n := if |data| - pos < max then |data| - pos else max;
      buffer := data[pos..pos + n];
      pos := pos + n;
      eof := eof || n < max;
    }
  }

  class Target {
    var bytes: seq<Byte>

    constructor Create()
      ensures bytes == []
    {
      bytes := [];
    }

    method Write(buffer: seq<Byte>)
      modifies this
      ensures bytes == old(bytes) + buffer
    {
      bytes := bytes + buffer;
    }
  }

  method WriteSize(target: Target, size: nat)
    modifies target
    ensures target.bytes == old(target.bytes) + Encode32(size)
  {
    target.Write(Encode32(size));
  }

  /** Chunk by chunk, the whole file. */
  method WriteFile(target: Target, source: Source)
    requires source.Valid() && source.pos == 0 && !source.eof
    modifies target, source
    ensures target.bytes == old(target.bytes) + source.data
  {
    while !source.eof
      invariant source.Valid() && target.bytes == old(target.bytes) + source.data[..source.pos]
      decreases |source.data| - source.pos, if source.eof then 0 else 1
    {
      var buffer := source.Read(BUFFER_SIZE);
      target.Write(buffer);
    }
    assert source.data[..source.pos] == source.data;
  }

  /** One module: its size and its bytes. */
  method AppendModule(target: Target, file: seq<Byte>)
    modifies target
    ensures target.bytes == old(target.bytes) + Record(file)
  {
    var source := new Source.Open(file);
    WriteSize(target, |file|);
    WriteFile(target, source);
  }

  /** The kernel, the number of modules, and each module after its size. */
  method BuildImage(files: seq<seq<Byte>>) returns (target: Target)
    requires files != []
    ensures fresh(target) && target.bytes == Image(files)
  {
    target := new Target.Create();
    var kernel := new Source.Open(files[0]);
    WriteFile(target, kernel);
    target.Write(Encode32(|files| - 1));
    AppendModules(target, files);
  }

  /** The files after the first, each as a module. */
  method AppendModules(target: Target, files: seq<seq<Byte>>)
    requires files != []
    modifies target
    ensures target.bytes == old(target.bytes) + Records(files[1..])
  {
    ghost var ms := files[1..];
    for i := 1 to |files|
      invariant target.bytes == old(target.bytes) + Records(ms[..i - 1])
    {
      AppendModule(target, files[i]);
      OffsetStep(ms, i - 1);
      assert ms[i - 1] == files[i];
    }
    assert ms[..|files| - 1] == ms;
  }

  // ----- the loader

  predicate Apart(a: nat, n: nat, b: nat, m: nat) {
    a + n <= b || b + m <= a
  }

  /** The targets lie in memory, away from the payload and from each other. */
  predicate TargetsOk(memory: nat, payloadStart: nat, ms: seq<seq<Byte>>, targets: seq<nat>) {
    && |ms| <= |targets| && payloadStart + |Payload(ms)| <= memory
    && (forall i :: 0 <= i < |ms| ==> targets[i] + |ms[i]| <= memory)
    && (forall i :: 0 <= i < |ms| ==> Apart(targets[i], |ms[i]|, payloadStart, |Payload(ms)|))
    && (forall i, j :: 0 <= i < j < |ms| ==> Apart(targets[i], |ms[i]|, targets[j], |ms[j]|))
  }

  /** The bytes lie in memory m from address a on. */
  predicate Holds(m: seq<Byte>, a: nat, bytes: seq<Byte>) {
    a + |bytes| <= |m| && m[a..a + |bytes|] == bytes
  }

  predicate Within(k: nat, a: nat, n: nat) {
    a <= k < a + n
  }

  method ReadUint32(mem: array<Byte>, address: nat) returns (result: nat, next: nat)
    requires address + 4 <= mem.Length
    ensures result == Decode32(mem[address..address + 4]) && next == address + 4
  {
    result := Decode32(mem[address..address + 4]);
    next := address + 4;
  }

  /** Memory after n bytes at source were copied to destination. */
  function Copied(m: seq<Byte>, destination: nat, source: nat, n: nat): seq<Byte>
    requires destination + n <= |m| && source + n <= |m|
  {
    m[..destination] + m[source..source + n] + m[destination + n..]
  }

  lemma CopyOneMore(m: seq<Byte>, destination: nat, source: nat, n: nat, length: nat)
    requires destination + length <= |m| && source + length <= |m| && n < length
        && Apart(destination, length, source, length)
    ensures Copied(m, destination, source, n)[source + n] == m[source + n]
    ensures Copied(m, destination, source, n)[destination + n := m[source + n]] == Copied(m, destination, source, n + 1)
  {
    assert m[source..source + n + 1] == m[source..source + n] + [m[source + n]];
  }

  /** memcpy on regions that do not overlap: by words when everything is aligned, by bytes otherwise. */
  method Memcpy(mem: array<Byte>, destination: nat, source: nat, length: nat)
    requires destination + length <= mem.Length && source + length <= mem.Length
        && Apart(destination, length, source, length)
    modifies mem
    ensures mem[..] == Copied(old(mem[..]), destination, source, length)
  {
    if destination % 4 == 0 && source % 4 == 0 && length % 4 == 0 {
      CopyWords(mem, destination, source, length);
    } else {
      CopyBytes(mem, destination, source, length);
    }
  }

  method CopyWords(mem: array<Byte>, destination: nat, source: nat, length: nat)
    requires destination + length <= mem.Length && source + length <= mem.Length
        && Apart(destination, length, source, length)
    requires length % 4 == 0
    modifies mem
    ensures mem[..] == Copied(old(mem[..]), destination, source, length)
  {
    ghost var m := mem[..];
    for i := 0 to length / 4
      invariant mem[..] == Copied(m, destination, source, 4 * i)
    {
      CopyWord(mem, destination, source, 4 * i, length, m);
    }
  }

  method CopyBytes(mem: array<Byte>, destination: nat, source: nat, length: nat)
    requires destination + length <= mem.Length && source + length <= mem.Length
        && Apart(destination, length, source, length)
    modifies mem
    ensures mem[..] == Copied(old(mem[..]), destination, source, length)
  {
    ghost var m := mem[..];
    for i := 0 to length
      invariant mem[..] == Copied(m, destination, source, i)
    {
      CopyByte(mem, destination, source, i, length, m);
    }
  }

  method CopyByte(mem: array<Byte>, destination: nat, source: nat, n: nat, ghost length: nat, ghost m: seq<Byte>)
    requires destination + length <= mem.Length && source + length <= mem.Length
        && Apart(destination, length, source, length)
    requires |m| == mem.Length && n < length && mem[..] == Copied(m, destination, source, n)
    modifies mem
    ensures mem[..] == Copied(m, destination, source, n + 1)
  {
    CopyOneMore(m, destination, source, n, length);
    assert mem[source + n] == mem[..][source + n];
    mem[destination + n] := mem[source + n];
  }

  /** One aligned word of a copy. */
  method CopyWord(mem: array<Byte>, destination: nat, source: nat, n: nat, ghost length: nat, ghost m: seq<Byte>)
    requires destination + length <= mem.Length && source + length <= mem.Length
        && Apart(destination, length, source, length)
    requires |m| == mem.Length && n + 4 <= length && mem[..] == Copied(m, destination, source, n)
    modifies mem
    ensures mem[..] == Copied(m, destination, source, n + 4)
  {
    for j := 0 to 4
      invariant mem[..] == Copied(m, destination, source, n + j)
    {
      CopyByte(mem, destination, source, n + j, length, m);
    }
  }

  lemma HoldsPart(m: seq<Byte>, a: nat, bytes: seq<Byte>, from: nat, to: nat)
    requires Holds(m, a, bytes) && from <= to <= |bytes|
    ensures Holds(m, a + from, bytes[from..to])
  {
    forall k | 0 <= k < to - from
      ensures m[a + from..a + to][k] == bytes[from..to][k]
    {
      assert m[a..a + |bytes|][from + k] == bytes[from + k];
    }
  }

  /** What lies apart from the region copied to is still there. */
  lemma StaysHeld(m: seq<Byte>, a: nat, bytes: seq<Byte>, destination: nat, source: nat, n: nat)
    requires destination + n <= |m| && source + n <= |m| && Holds(m, a, bytes) && Apart(a, |bytes|, destination, n)
    ensures Holds(Copied(m, destination, source, n), a, bytes)
  {
    var c := Copied(m, destination, source, n);
    assert c[a..a + |bytes|] == m[a..a + |bytes|];
  }

  /** One module is copied to its target and the cursor moves past it. */
  method LoadModule(mem: array<Byte>, cursor: nat, target: nat, ghost bytes: seq<Byte>) returns (next: nat)
    requires |bytes| < WORD_RANGE && Holds(mem[..], cursor, Encode32(|bytes|)) && Holds(mem[..], cursor + 4, bytes)
    requires target + |bytes| <= mem.Length && Apart(target, |bytes|, cursor + 4, |bytes|)
    modifies mem
    ensures next == cursor + 4 + |bytes| && mem[..] == Copied(old(mem[..]), target, cursor + 4, |bytes|)
  {
    FieldRoundTrip(|bytes|);
    assert mem[cursor..cursor + 4] == mem[..][cursor..cursor + 4];
    var moduleSize, start := ReadUint32(mem, cursor);
    Memcpy(mem, target, start, moduleSize);
    next := start + moduleSize;
  }

  /** Memory after module i was loaded. */
  function LoadedOne(m: seq<Byte>, payloadStart: nat, targets: seq<nat>, ms: seq<seq<Byte>>, i: nat): seq<Byte>
    requires i < |ms| && TargetsOk(|m|, payloadStart, ms, targets) && Offset(ms, i) + 4 + |ms[i]| <= |Payload(ms)|
  {
    Copied(m, targets[i], payloadStart + Offset(ms, i) + 4, |ms[i]|)
  }

  lemma LoadingOne(m: seq<Byte>, payloadStart: nat, targets: seq<nat>, ms: seq<seq<Byte>>, i: nat)
    requires i < |ms| && TargetsOk(|m|, payloadStart, ms, targets) && Holds(m, payloadStart, Payload(ms))
    ensures Offset(ms, i) + 4 + |ms[i]| == Offset(ms, i + 1) <= |Payload(ms)|
    ensures Holds(m, payloadStart + Offset(ms, i), Encode32(|ms[i]|))
        && Holds(m, payloadStart + Offset(ms, i) + 4, ms[i])
    ensures var c := LoadedOne(m, payloadStart, targets, ms, i);
      && |c| == |m| && Holds(c, payloadStart, Payload(ms)) && Holds(c, targets[i], ms[i])
      && (forall k :: 0 <= k < |m| && !Within(k, targets[i], |ms[i]|) ==> c[k] == m[k])
  {
    RecordAt(ms, i);
    HoldsPart(m, payloadStart, Payload(ms), Offset(ms, i), Offset(ms, i) + 4);
    HoldsPart(m, payloadStart, Payload(ms), Offset(ms, i) + 4, Offset(ms, i + 1));
    StaysHeld(m, payloadStart, Payload(ms), targets[i], payloadStart + Offset(ms, i) + 4, |ms[i]|);
  }

  lemma OthersStay(m: seq<Byte>, payloadStart: nat, targets: seq<nat>, ms: seq<seq<Byte>>, i: nat, j: nat)
    requires j < i < |ms| && TargetsOk(|m|, payloadStart, ms, targets) && Holds(m, targets[j], ms[j])
    requires Offset(ms, i) + 4 + |ms[i]| <= |Payload(ms)|
    ensures Holds(LoadedOne(m, payloadStart, targets, ms, i), targets[j], ms[j])
  {
    StaysHeld(m, targets[j], ms[j], targets[i], payloadStart + Offset(ms, i) + 4, |ms[i]|);
  }

  predicate OutsideAll(k: nat, targets: seq<nat>, ms: seq<seq<Byte>>, n: nat)
    requires n <= |ms| <= |targets|
  {
    forall i :: 0 <= i < n ==> !Within(k, targets[i], |ms[i]|)
  }

  /** Run on the bytes the packer wrote after the kernel, the loader puts exactly module i at target i and changes
      nothing else. */
  method LoadModules(mem: array<Byte>, payloadStart: nat, targets: seq<nat>, ghost ms: seq<seq<Byte>>)
    requires Holds(mem[..], payloadStart, Payload(ms)) && TargetsOk(mem.Length, payloadStart, ms, targets)
    requires |ms| < WORD_RANGE && forall i :: 0 <= i < |ms| ==> |ms[i]| < WORD_RANGE
    modifies mem
    ensures forall i :: 0 <= i < |ms| ==> Holds(mem[..], targets[i], ms[i])
    ensures forall k :: 0 <= k < mem.Length && OutsideAll(k, targets, ms, |ms|) ==> mem[k] == old(mem[k])
  {
    ghost var before := mem[..];
    FieldRoundTrip(|ms|);
    HoldsPart(mem[..], payloadStart, Payload(ms), 0, 4);
    assert Payload(ms)[0..4] == Encode32(|ms|);
    assert mem[payloadStart..payloadStart + 4] == mem[..][payloadStart..payloadStart + 4];
    var moduleCount, cursor := ReadUint32(mem, payloadStart);
    for i := 0 to moduleCount
      invariant cursor == payloadStart + Offset(ms, i)
      invariant Holds(mem[..], payloadStart, Payload(ms))
      invariant forall j :: 0 <= j < i ==> Holds(mem[..], targets[j], ms[j])
      invariant forall k :: 0 <= k < mem.Length && OutsideAll(k, targets, ms, i) ==> mem[..][k] == before[k]
    {
      cursor := LoadNext(mem, payloadStart, cursor, targets, ms, i);
    }
  }

  /** Module i is loaded; the payload and the modules already loaded stay. */
  method LoadNext(mem: array<Byte>, ghost payloadStart: nat, cursor: nat, targets: seq<nat>, ghost ms: seq<seq<Byte>>,
                  i: nat) returns (next: nat)
    requires i < |ms| && |ms[i]| < WORD_RANGE && TargetsOk(mem.Length, payloadStart, ms, targets)
    requires cursor == payloadStart + Offset(ms, i) && Holds(mem[..], payloadStart, Payload(ms))
    requires forall j :: 0 <= j < i ==> Holds(mem[..], targets[j], ms[j])
    modifies mem
    ensures next == payloadStart + Offset(ms, i + 1) && Holds(mem[..], payloadStart, Payload(ms))
    ensures forall j :: 0 <= j <= i ==> Holds(mem[..], targets[j], ms[j])
    ensures forall k :: 0 <= k < mem.Length && !Within(k, targets[i], |ms[i]|) ==> mem[..][k] == old(mem[..])[k]
  {
    ghost var m := mem[..];
    ghost var c := LoadingNext(m, payloadStart, cursor, targets, ms, i);
    next := LoadModule(mem, cursor, targets[i], ms[i]);
    assert mem[..] == c;
  }

  lemma LoadingNext(m: seq<Byte>, payloadStart: nat, cursor: nat, targets: seq<nat>, ms: seq<seq<Byte>>, i: nat)
      returns (c: seq<Byte>)
    requires i < |ms| && cursor == payloadStart + Offset(ms, i) && TargetsOk(|m|, payloadStart, ms, targets)
        && Holds(m, payloadStart, Payload(ms))
    requires forall j :: 0 <= j < i ==> Holds(m, targets[j], ms[j])
    ensures cursor + 4 + |ms[i]| == payloadStart + Offset(ms, i + 1) <= payloadStart + |Payload(ms)|
    ensures Holds(m, cursor, Encode32(|ms[i]|)) && Holds(m, cursor + 4, ms[i])
    ensures c == Copied(m, targets[i], cursor + 4, |ms[i]|) && |c| == |m|
    ensures Holds(c, payloadStart, Payload(ms)) && (forall j :: 0 <= j <= i ==> Holds(c, targets[j], ms[j]))
    ensures forall k :: 0 <= k < |m| && !Within(k, targets[i], |ms[i]|) ==> c[k] == m[k]
  {
    LoadingOne(m, payloadStart, targets, ms, i);
    c := LoadedOne(m, payloadStart, targets, ms, i);
    forall j | 0 <= j < i
      ensures Holds(c, targets[j], ms[j])
    {
      OthersStay(m, payloadStart, targets, ms, i, j);
    }
  }

  /** A built image in memory holds the payload where the kernel ends. */
  lemma ImageHoldsPayload(m: seq<Byte>, base: nat, files: seq<seq<Byte>>)
    requires files != [] && Holds(m, base, Image(files))
    ensures Holds(m, base + |files[0]|, Payload(files[1..]))
  {
    HoldsPart(m, base, Image(files), |files[0]|, |Image(files)|);
    assert Image(files)[|files[0]|..] == Payload(files[1..]);
  }
}

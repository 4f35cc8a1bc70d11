/** The byte ring of a pipe, refining a sequence of at most maxSize bytes. */
module CircularBuffer {

  const EOF: bv8 := 0

  /** Where the i-th stored byte lies in a ring of n bytes that starts at r. */
  function At(r: nat, i: nat, n: nat): (k: nat)
    requires r < n && i <= n
    ensures k < n
  {
    if r + i < n then r + i else r + i - n
  }

  lemma WrapAround(a: nat, n: nat)
    requires a < 2 * n
    ensures a % n == if a < n then a else a - n
  {
  }

  class Ring {
    var data: array<bv8>
    var maxSize: nat
    var readIdx: nat
    var writeIdx: nat
    var count: nat

    ghost predicate Valid()
      reads this
    {
      && maxSize > 0 && data.Length == maxSize
      && readIdx < maxSize && count <= maxSize && writeIdx == At(readIdx, count, maxSize)
    }

    ghost function Contents(): (s: seq<bv8>)
      reads this, data
      requires Valid()
      ensures |s| == count && forall i :: 0 <= i < count ==> s[i] == data[At(readIdx, i, maxSize)]
    {
      seq(count, i requires 0 <= i < count reads this, data requires Valid() => data[At(readIdx, i, maxSize)])
    }

    constructor NewBuffer(size: nat)
      requires size > 0
      ensures Valid() && maxSize == size && Contents() == [] && fresh(data)
    {
      data := new bv8[size];
      maxSize, readIdx, writeIdx, count := size, 0, 0, 0;
    }

    predicate IsFull()
      reads this
    {
      count == maxSize
    }

    predicate HasData()
      reads this
    {
      count > 0
    }

    /** Append a byte unless the ring is full. */
    method Write(byteToWrite: bv8) returns (ok: bool)
      requires Valid()
      modifies this, data
      ensures Valid() && data == old(data) && maxSize == old(maxSize)
      ensures ok == (|old(Contents())| < maxSize)
      ensures Contents() == if ok then old(Contents()) + [byteToWrite] else old(Contents())
    {
      if IsFull() {
        return false;
      }
      WrapAround(writeIdx + 1, maxSize);
      data[writeIdx] := byteToWrite;
      writeIdx := (writeIdx + 1) % maxSize;
      count := count + 1;
      return true;
    }

    /** Take the oldest byte; an empty ring gives EOF. */
    method Read() returns (readByte: bv8)
      requires Valid()
      modifies this
      ensures Valid() && data == old(data) && maxSize == old(maxSize)
      ensures if old(Contents()) == [] then readByte == EOF && Contents() == []
        else readByte == old(Contents())[0] && Contents() == old(Contents())[1..]
    {
      if !HasData() {
        return EOF;
      }
      WrapAround(readIdx + 1, maxSize);
      readByte := data[readIdx];
      readIdx := (readIdx + 1) % maxSize;
      count := count - 1;
    }
  }
}

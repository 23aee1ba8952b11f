// `RingBuffer`: a fixed array of `size` bytes with a read index and a write
// index that wrap around.  One slot always stays free, so equal indices mean
// "empty" and at most `size - 1` bytes are buffered.  The unread bytes, in
// the order they were written, are `Contents()`.

module RingBuffers {
  import opened Common

  /** `x % m` for a sum of two indices below `m`. */
  lemma ModSlot(x: nat, m: nat)
    requires 0 < m && x < 2 * m
    ensures x % m == if x < m then x else x - m
  {
    if x >= m {
      assert (x - m) + 1 * m == x;
    }
  }

  /** `memcpy(dst + dstFrom, src + srcFrom, len)`. */
  method MemCopy(dst: array<char>, dstFrom: nat, src: array<char>, srcFrom: nat, len: nat)
    requires dst != src
    requires dstFrom + len <= dst.Length && srcFrom + len <= src.Length
    modifies dst
    ensures forall k :: 0 <= k < dst.Length ==>
              dst[k] == if dstFrom <= k < dstFrom + len then src[srcFrom + k - dstFrom] else old(dst[k])
  {
    forall k | dstFrom <= k < dstFrom + len {
      dst[k] := src[srcFrom + k - dstFrom];
    }
  }

  /** The array index that `i` denotes in an array of `size` slots, wrapping
      once. */
  function Slot(size: nat, i: nat): (k: nat)
    requires i < 2 * size
    ensures k < size && (k == i || k + size == i)
  {
    if i < size then i else i - size
  }

  /** Two counts below `size` that reach the same slot are equal. */
  lemma SlotUnique(size: nat, r: nat, m1: nat, m2: nat)
    requires r < size && m1 < size && m2 < size
    requires Slot(size, r + m1) == Slot(size, r + m2)
    ensures m1 == m2
  {
  }

  /** Distance from index `from` forwards to index `k`, wrapping. */
  function Dist(size: nat, from: nat, k: nat): (d: nat)
    requires from < size && k < size
    ensures d < size && Slot(size, from + d) == k
  {
    if k >= from then k - from else k + size - from
  }

  /** `after` is `before` with the `|src|` slots from `w0` on, wrapping,
      holding `src`. */
  ghost predicate Filled(before: seq<char>, after: seq<char>, w0: nat, src: seq<char>)
    requires |before| == |after| && w0 < |before|
  {
    forall k :: 0 <= k < |after| ==>
      after[k] == if Dist(|before|, w0, k) < |src| then src[Dist(|before|, w0, k)] else before[k]
  }

  /** Two copies, the first up to the end of the array and the second from
      its start, fill the slots from `w0` on with `src`, wrapping. */
  lemma WrapWindow(w0: nat, before: seq<char>, mid: seq<char>, after: seq<char>, src: seq<char>)
    requires w0 < |before| && |before| - w0 < |src| <= |before|
    requires |mid| == |after| == |before|
    requires forall k :: 0 <= k < |mid| ==> mid[k] == if w0 <= k then src[k - w0] else before[k]
    requires forall k :: 0 <= k < |after| ==>
               after[k] == if k < |src| - (|before| - w0) then src[|before| - w0 + k] else mid[k]
    ensures Filled(before, after, w0, src)
  {
  }

  /** One copy fills the slots from `w0` on when they do not wrap. */
  lemma FlatWindow(w0: nat, before: seq<char>, after: seq<char>, src: seq<char>)
    requires w0 < |before| && w0 + |src| <= |before| && |after| == |before|
    requires forall k :: 0 <= k < |after| ==>
               after[k] == if w0 <= k < w0 + |src| then src[k - w0] else before[k]
    ensures Filled(before, after, w0, src)
  {
  }

  /** Two copies out of the ring, the first up to the end of the array and
      the second from its start, give the `n` slots from `r0` on, wrapping;
      the rest of the output is untouched. */
  lemma WrapRead(size: nat, r0: nat, n: nat, ring: seq<char>, out0: seq<char>, mid: seq<char>, out: seq<char>)
    requires r0 < size && size - r0 < n <= size && |ring| == size
    requires n <= |out0| && |mid| == |out| == |out0|
    requires forall k :: 0 <= k < |out0| ==> mid[k] == if k < size - r0 then ring[r0 + k] else out0[k]
    requires forall k :: 0 <= k < |out0| ==>
               out[k] == if size - r0 <= k < n then ring[k - (size - r0)] else mid[k]
    ensures Drawn(ring, r0, out, n)
    ensures out[n..] == out0[n..]
  {
  }

  /** One copy out of the ring when the `n` slots from `r0` on do not wrap. */
  lemma FlatRead(size: nat, r0: nat, n: nat, ring: seq<char>, out0: seq<char>, out: seq<char>)
    requires r0 < size && r0 + n <= size && |ring| == size
    requires n <= |out0| && |out| == |out0|
    requires forall k :: 0 <= k < |out0| ==> out[k] == if k < n then ring[r0 + k] else out0[k]
    ensures Drawn(ring, r0, out, n)
    ensures out[n..] == out0[n..]
  {
  }

  /** The first `n` bytes of `out` are the `n` slots of `ring` from `r` on,
      wrapping. */
  ghost predicate Drawn(ring: seq<char>, r: nat, out: seq<char>, n: nat)
    requires r < |ring| && n <= |ring| && n <= |out|
  {
    forall j :: 0 <= j < n ==> out[j] == ring[Slot(|ring|, r + j)]
  }

  /** The `n` bytes of `ring` from index `r` on, wrapping at its end. */
  function Window(ring: seq<char>, r: nat, n: nat): seq<char>
    requires r < |ring| && n <= |ring|
  {
    seq(n, i requires 0 <= i < n => ring[Slot(|ring|, r + i)])
  }

  /** Writing `src` into the free slots after a window extends the window by
      `src` and leaves its old bytes in place: unread bytes are never
      overwritten. */
  lemma WindowAppend(before: seq<char>, after: seq<char>, r: nat, m: nat, w0: nat, src: seq<char>)
    requires r < |before| == |after| && m + |src| < |before| && w0 == Slot(|before|, r + m)
    requires Filled(before, after, w0, src)
    ensures Window(after, r, m + |src|) == Window(before, r, m) + src
  {
    var size := |before|;
    forall i | 0 <= i < m + |src|
      ensures Window(after, r, m + |src|)[i] == (Window(before, r, m) + src)[i]
    {
      var k := Slot(size, r + i);
      if i < m {
        assert Dist(size, w0, k) >= |src|;
      } else {
        assert Dist(size, w0, k) == i - m;
      }
    }
  }

  /** Dropping `n` bytes from the front of a window is the window that
      starts `n` slots later. */
  lemma WindowDrop(ring: seq<char>, r: nat, m: nat, n: nat)
    requires r < |ring| && n <= m < |ring|
    ensures Window(ring, Slot(|ring|, r + n), m - n) == Window(ring, r, m)[n..]
  {
    var size := |ring|;
    forall i | 0 <= i < m - n
      ensures Window(ring, Slot(size, r + n), m - n)[i] == Window(ring, r, m)[n..][i]
    {
      assert Slot(size, Slot(size, r + n) + i) == Slot(size, r + n + i);
    }
  }

  /** Output that holds the first `n` slots of a window holds the front of
      the window. */
  lemma WindowFront(ring: seq<char>, r: nat, m: nat, n: nat, out: seq<char>)
    requires r < |ring| && n <= m < |ring| && n <= |out|
    requires Drawn(ring, r, out, n)
    ensures out[..n] == Window(ring, r, m)[..n]
    ensures Window(ring, Slot(|ring|, r + n), m - n) == Window(ring, r, m)[n..]
  {
    WindowDrop(ring, r, m, n);
  }

  /** A window is the slice up to the end of the array followed by the slice
      from its start, or one slice when it does not wrap. */
  lemma WindowSlices(ring: seq<char>, r: nat, m: nat)
    requires r < |ring| && m < |ring|
    ensures Window(ring, r, m) ==
              if m > |ring| - r then ring[r..] + ring[..m - (|ring| - r)] else ring[r..r + m]
  {
    var w := if m > |ring| - r then ring[r..] + ring[..m - (|ring| - r)] else ring[r..r + m];
    forall i | 0 <= i < m
      ensures Window(ring, r, m)[i] == w[i]
    {
      assert Window(ring, r, m)[i] == ring[Slot(|ring|, r + i)];
      if m > |ring| - r {
        if i >= |ring| - r {
          assert w[i] == ring[..m - (|ring| - r)][i - (|ring| - r)];
        } else {
          assert w[i] == ring[r..][i];
        }
      } else {
        assert w[i] == ring[r + i];
      }
    }
  }

  class RingBuffer {
    const data: array<char>
    const size: nat
    var readPtr: nat
    var writePtr: nat

    /** The indices stay inside the array.  Sizes are kept below 2^31 so
        that the 32-bit sum of an index and a count never wraps. */
    ghost predicate Valid()
      reads this
    {
      size == data.Length && 0 < size <= 0x8000_0000 && readPtr < size && writePtr < size
    }

    /** `GetReadAvail`: the number of unread bytes. */
    function ReadAvail(): (r: nat)
      reads this
      requires Valid()
      ensures r < size && Slot(size, readPtr + r) == writePtr
    {
      if writePtr == readPtr then 0
      else if writePtr > readPtr then writePtr - readPtr
      else size - (readPtr - writePtr)
    }

    /** `GetWriteAvail`: the room left; with the unread bytes it always
        makes `size - 1`. */
    function WriteAvail(): (r: nat)
      reads this
      requires Valid()
      ensures r + ReadAvail() == size - 1
    {
      if writePtr == readPtr then size - 1
      else if writePtr > readPtr then size - 1 - (writePtr - readPtr)
      else readPtr - writePtr - 1
    }

    /** The unread bytes in FIFO order. */
    ghost function Contents(): (s: seq<char>)
      reads this, data
      requires Valid()
      ensures |s| == ReadAvail()
    {
      Window(data[..], readPtr, ReadAvail())
    }

    /** `RingBuffer(sizeBytes)`: a zeroed array, nothing to read. */
    constructor (sizeBytes: nat)
      requires 0 < sizeBytes <= 0x8000_0000
      ensures Valid() && fresh(data) && size == sizeBytes
      ensures Contents() == [] && WriteAvail() == sizeBytes - 1
      ensures forall k :: 0 <= k < data.Length ==> data[k] == 0 as char
    {
      data := new char[sizeBytes](_ => 0 as char);
      size := sizeBytes;
      readPtr := 0;
      writePtr := 0;
    }

    /** `Empty`: zeroes the array and resets both indices. */
    method Empty() returns (ok: bool)
      requires Valid()
      modifies this`readPtr, this`writePtr, data
      ensures Valid()
      ensures ok && readPtr == 0 && writePtr == 0 && Contents() == []
      ensures forall k :: 0 <= k < data.Length ==> data[k] == 0 as char
    {
      forall k | 0 <= k < data.Length {
        data[k] := 0 as char;
      }
      readPtr := 0;
      writePtr := 0;
      return true;
    }

    /** `Write`: appends as many of the first `numBytes` bytes of `dataPtr` as
        there is room for; a null pointer, no bytes or a full buffer write
        nothing.  Unread bytes are never overwritten. */
    method Write(dataPtr: array?<char>, numBytes: nat) returns (n: nat)
      requires Valid()
      requires dataPtr != null ==> numBytes <= dataPtr.Length && dataPtr != data
      modifies this`writePtr, data
      ensures Valid() && readPtr == old(readPtr)
      ensures n == if dataPtr == null || numBytes == 0 then 0 else Min(numBytes, old(WriteAvail()))
      ensures Contents() == old(Contents()) + (if n == 0 then [] else dataPtr[..n])
    {
      var avail := WriteAvail();
      if dataPtr == null || numBytes == 0 || avail == 0 {
        return 0;
      }
      n := if numBytes < avail then numBytes else avail;
      Store(dataPtr, n);
    }

    /** The copy and the index update of `Write` for a count that fits. */
    method Store(dataPtr: array<char>, n: nat)
      requires Valid() && dataPtr != data && 0 < n <= WriteAvail() && n <= dataPtr.Length
      modifies this`writePtr, data
      ensures Valid() && readPtr == old(readPtr)
      ensures Contents() == old(Contents()) + dataPtr[..n]
    {
      ghost var before := data[..];
      ghost var r0 := ReadAvail();
      ghost var w0 := writePtr;
      CopyIn(dataPtr, n);
      WindowAppend(before, data[..], readPtr, r0, w0, dataPtr[..n]);
      ModSlot(writePtr + n, size);
      writePtr := (writePtr + n) % size;
      SlotUnique(size, readPtr, ReadAvail(), r0 + n);
    }

    /** The two `memcpy` calls of `Write`: the `n` slots from the write
        index on, wrapping at the end of the array, receive the first `n`
        bytes of `dataPtr`. */
    method CopyIn(dataPtr: array<char>, n: nat)
      requires Valid() && dataPtr != data && 0 < n < size && n <= dataPtr.Length
      modifies data
      ensures Filled(old(data[..]), data[..], writePtr, dataPtr[..n])
    {
      ghost var before := data[..];
      if n > size - writePtr {
        var len := size - writePtr;
        MemCopy(data, writePtr, dataPtr, 0, len);
        ghost var mid := data[..];
        MemCopy(data, 0, dataPtr, len, n - len);
        WrapWindow(writePtr, before, mid, data[..], dataPtr[..n]);
      } else {
        MemCopy(data, writePtr, dataPtr, 0, n);
        FlatWindow(writePtr, before, data[..], dataPtr[..n]);
      }
    }

    /** `Read`: copies the oldest `min(numBytes, avail)` bytes, rounded down
        to an even count, into `dataPtr` and consumes them.  A null pointer,
        no bytes or an empty buffer read nothing. */
    method Read(dataPtr: array?<char>, numBytes: nat) returns (n: nat)
      requires Valid()
      requires dataPtr != null ==> numBytes <= dataPtr.Length && dataPtr != data
      modifies this`readPtr, dataPtr
      ensures Valid() && writePtr == old(writePtr)
      ensures n == if dataPtr == null || numBytes == 0 then 0 else EvenDown(Min(numBytes, old(ReadAvail())))
      ensures n <= |old(Contents())| && Contents() == old(Contents())[n..]
      ensures dataPtr != null ==>
                dataPtr[..n] == old(Contents())[..n] && dataPtr[n..] == old(dataPtr[n..])
    {
      var avail := ReadAvail();
      if dataPtr == null || numBytes == 0 || avail == 0 {
        return 0;
      }
      n := if numBytes < avail then numBytes else avail;
      if n % 2 != 0 {
        n := n - 1;
      }
      Take(dataPtr, n);
    }

    /** The copy and the index update of `Read` for a count that fits. */
    method Take(dataPtr: array<char>, n: nat)
      requires Valid() && dataPtr != data && n <= ReadAvail() && n <= dataPtr.Length
      modifies this`readPtr, dataPtr
      ensures Valid() && writePtr == old(writePtr)
      ensures Contents() == old(Contents())[n..]
      ensures dataPtr[..n] == old(Contents())[..n] && dataPtr[n..] == old(dataPtr[n..])
    {
      ghost var avail := ReadAvail();
      CopyOut(dataPtr, n);
      WindowFront(data[..], readPtr, avail, n, dataPtr[..]);
      ModSlot(readPtr + n, size);
      ghost var r0 := readPtr;
      readPtr := (readPtr + n) % size;
      assert Slot(size, readPtr + (avail - n)) == Slot(size, r0 + avail);
      SlotUnique(size, readPtr, ReadAvail(), avail - n);
    }

    /** The two `memcpy` calls of `Read`: the first `n` bytes of `dataPtr`
        receive the `n` slots from the read index on, wrapping at the end of
        the array; the rest of `dataPtr` is untouched. */
    method CopyOut(dataPtr: array<char>, n: nat)
      requires Valid() && dataPtr != data && n < size && n <= dataPtr.Length
      modifies dataPtr
      ensures Drawn(data[..], readPtr, dataPtr[..], n) && dataPtr[n..] == old(dataPtr[n..])
    {
      ghost var out0 := dataPtr[..];
      if n > size - readPtr {
        var len := size - readPtr;
        MemCopy(dataPtr, 0, data, readPtr, len);
        ghost var mid := dataPtr[..];
        MemCopy(dataPtr, len, data, 0, n - len);
        WrapRead(size, readPtr, n, data[..], out0, mid, dataPtr[..]);
      } else {
        MemCopy(dataPtr, 0, data, readPtr, n);
        FlatRead(size, readPtr, n, data[..], out0, dataPtr[..]);
      }
    }

    /** `ReadAll`: hands over every unread byte and empties the buffer.  On
        an empty buffer the caller's vector is left as it was. */
    method ReadAll(buffer: seq<char>) returns (n: nat, out: seq<char>)
      requires Valid()
      modifies this`readPtr
      ensures Valid() && writePtr == old(writePtr)
      ensures n == |old(Contents())| && Contents() == []
      ensures out == if n == 0 then buffer else old(Contents())
    {
      var avail := ReadAvail();
      if avail == 0 {
        return 0, buffer;
      }
      if avail > size - readPtr {
        var len := size - readPtr;
        out := data[readPtr..readPtr + len] + data[..avail - len];
      } else {
        out := data[readPtr..readPtr + avail];
      }
      WindowSlices(data[..], readPtr, avail);
      ModSlot(readPtr + avail, size);
      readPtr := (readPtr + avail) % size;
      n := avail;
    }
  }

  /** Writing into an empty buffer and draining it hands back what fit:
      at most `size - 1` bytes, in order.  A second drain finds nothing. */
  method WriteThenDrain(rb: RingBuffer, w: array<char>) returns (out: seq<char>, again: nat)
    requires rb.Valid() && rb.Contents() == [] && w != rb.data
    modifies rb`readPtr, rb`writePtr, rb.data
    ensures rb.Valid() && rb.Contents() == []
    ensures out == w[..Min(w.Length, rb.size - 1)]
    ensures again == 0
  {
    var written := rb.Write(w, w.Length);
    var n;
    n, out := rb.ReadAll([]);
    var rest;
    again, rest := rb.ReadAll([]);
  }

  function Min(a: nat, b: nat): nat { if a < b then a else b }

  /** The largest even number not above `n`. */
  function EvenDown(n: nat): (r: nat)
    ensures r % 2 == 0 && r <= n && n <= r + 1
  {
    if n % 2 != 0 then n - 1 else n
  }
}

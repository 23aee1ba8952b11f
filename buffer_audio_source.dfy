// `BufferAudioSource`: an audio source the application fills by hand.  It
// forwards writes to a ring buffer until `finish` is called; reads drain the
// ring buffer and report the end of the stream (-1) once finished.

module BufferAudioSources {
  import opened Common
  import opened RingBuffers

  class BufferAudioSource {
    const ring: RingBuffer
    var finished: bool

    ghost predicate Valid()
      reads this, ring
    {
      ring.Valid()
    }

    /** `BufferAudioSource(fmt, buffer_size)`: the size_t buffer size is
        handed to the ring buffer as an unsigned int. */
    constructor (bufferSize: nat)
      requires 0 < bufferSize % UInt32Modulus <= 0x8000_0000
      ensures Valid() && fresh(ring) && fresh(ring.data) && !finished
      ensures ring.size == bufferSize % UInt32Modulus && ring.Contents() == []
    {
      ring := new RingBuffer(bufferSize % UInt32Modulus);
      finished := false;
    }

    /** `read`: drains every buffered byte into the caller's vector; answers
        the byte count, or -1 once finished even when bytes were drained. */
    method Read(buffer: seq<char>) returns (ret: int, out: seq<char>)
      requires Valid()
      modifies ring`readPtr
      ensures Valid() && finished == old(finished) && ring.Contents() == []
      ensures ret == if finished then -1 else |old(ring.Contents())|
      ensures out == if old(ring.Contents()) == [] then buffer else old(ring.Contents())
    {
      var n;
      n, out := ring.ReadAll(buffer);
      if finished {
        return -1, out;
      }
      return n, out;
    }

    /** `write(std::vector<char>&)`: before `finish`, appends as much of
        `buffer` as the ring buffer has room for and answers true, even when
        some bytes were dropped; afterwards answers false and writes
        nothing.  The vector's size is handed over as an unsigned int. */
    method Write(buffer: array<char>) returns (ok: bool)
      requires Valid() && buffer != ring.data
      modifies ring`writePtr, ring.data
      ensures Valid() && finished == old(finished) && ok == !finished
      ensures ring.Contents() ==
                if finished then old(ring.Contents())
                else old(ring.Contents()) + buffer[..Min(buffer.Length % UInt32Modulus, old(ring.WriteAvail()))]
    {
      if finished {
        return false;
      }
      var _ := ring.Write(buffer, buffer.Length % UInt32Modulus);
      return true;
    }

    /** `write(char*, size_t)`: as the vector overload; the size_t count is
        handed to the ring buffer as an unsigned int. */
    method WriteRaw(buffer: array?<char>, size: nat) returns (ok: bool)
      requires Valid() && buffer != ring.data
      requires buffer != null ==> size <= buffer.Length
      modifies ring`writePtr, ring.data
      ensures Valid() && finished == old(finished) && ok == !finished
      ensures ring.Contents() ==
                if finished || buffer == null then old(ring.Contents())
                else old(ring.Contents()) + buffer[..Min(size % UInt32Modulus, old(ring.WriteAvail()))]
    {
      if finished {
        return false;
      }
      var _ := ring.Write(buffer, size % UInt32Modulus);
      return true;
    }

    /** `finish`: marks the end of the stream, for good. */
    method Finish()
      requires Valid()
      modifies this`finished
      ensures Valid() && finished
    {
      finished := true;
    }
  }
}

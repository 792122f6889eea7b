/** The fixed-size buffer of the logging side. */
module FixedBuffers {

  /** Storage of a fixed size with a moving end. The last byte is kept for a terminator. */
  class FixedBuffer {
    const storage: array<char>
    var end: nat

    ghost predicate Valid()
      reads this
    {
      end < storage.Length
    }

    ghost function Contents(): (s: seq<char>)
      requires Valid()
      reads this, storage
    {
      storage[..end]
    }

    constructor (size: nat)
      requires size > 0
      ensures Valid() && fresh(storage) && storage.Length == size && Contents() == []
    {
      storage := new char[size];
      end := 0;
    }

    function GetAvail(): (n: nat)
      requires Valid()
      reads this
    {
      storage.Length - end - 1
    }

    /** Makes `len` bytes that were written behind the end part of the contents. */
    method Add(len: nat)
      requires Valid() && len <= GetAvail()
      modifies this
      ensures Valid() && end == old(end) + len && GetAvail() == old(GetAvail()) - len
      ensures Contents() == old(Contents()) + storage[old(end)..old(end) + len]
    {
      assert storage[..end + len] == storage[..end] + storage[end..end + len];
      end := end + len;
    }

    method Clear()
      requires Valid()
      modifies this
      ensures Valid() && Contents() == []
    {
      end := 0;
    }

    /** Appends what fits. */
    method Append(msg: seq<char>)
      requires Valid()
      modifies this, storage
      ensures Valid() && Contents() == old(Contents()) + Fitting(msg, old(GetAvail()))
      // a front part of the message: all of it, unless it fills the buffer up to the last byte
      ensures old(end) <= end <= old(end) + |msg| && Contents() == old(Contents()) + msg[..end - old(end)]
      ensures end == old(end) + |msg| || end + 1 == storage.Length
    {
      var len := if GetAvail() <= |msg| then GetAvail() else |msg|;
      for i := 0 to len
        modifies storage
        invariant storage[..end] == old(storage[..end]) && storage[end..end + i] == msg[..i]
      {
        storage[end + i] := msg[i];
        assert storage[end..end + i + 1] == storage[end..end + i] + [msg[i]];
      }
      Add(len);
    }
  }

  /** The part of a message that fits into `avail` bytes. */
  function Fitting(msg: seq<char>, avail: nat): (s: seq<char>) {
    if |msg| <= avail then msg else msg[..avail]
  }
}

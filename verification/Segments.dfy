/** A reusable memory segment, the unit that the scheduler hands out to file pumps and downloads. */
module Segments {
  import opened Bytes

  class Segment {
    var data: seq<Byte>

    constructor ()
      ensures data == []
    {
      data := [];
    }

    /** `resize(size, 0)` of the underlying vector. */
    method Resize(size: nat)
      modifies this
      ensures |data| == size
      ensures data[..Min(size, |old(data)|)] == old(data)[..Min(size, |old(data)|)]
    {
      if size <= |data| {
        data := data[..size];
      } else {
        data := data + seq(size - |data|, _ => 0);
      }
    }

    /** `memcpy` into the vector at `at`. */
    method Copy(at: nat, bytes: seq<Byte>)
      requires at + |bytes| <= |data|
      modifies this
      ensures data == old(data)[..at] + bytes + old(data)[at + |bytes|..]
    {
      data := data[..at] + bytes + data[at + |bytes|..];
    }
  }
}

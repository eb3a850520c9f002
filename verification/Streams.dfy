/** A buffered byte stream that ends: the data still to come is `data[pos..]`. */
module Streams {
  import opened Basics

  class ByteStream {
    const data: Bytes
    var pos: nat

    constructor (data: Bytes)
      ensures this.data == data && pos == 0 && Valid()
    {
      this.data := data;
      pos := 0;
    }

    predicate Valid()
      reads this
    {
      pos <= |data|
    }

    /** `read_until(b'\n')`: a line with its line feed, or what is left; empty only at the end. */
    method ReadUntilLf() returns (line: Bytes)
      requires Valid()
      modifies this
      ensures Valid()
      ensures pos == (if FindLf(data, old(pos)) < |data| then FindLf(data, old(pos)) + 1 else |data|)
      ensures line == data[old(pos)..pos]
    {
      var start := pos;
      while pos < |data| && data[pos] != LF
        invariant start <= pos <= |data|
        invariant FindLf(data, pos) == FindLf(data, start)
      {
        pos := pos + 1;
      }
      if pos < |data| {
        pos := pos + 1;
      }
      line := data[start..pos];
    }

    /** `read_exact`: `None` when the stream ends first. */
    method ReadExact(n: nat) returns (body: Option<Bytes>)
      requires Valid()
      modifies this
      ensures Valid()
      ensures old(pos) + n <= |data| ==> pos == old(pos) + n && body == Some(data[old(pos)..pos])
      ensures old(pos) + n > |data| ==> pos == |data| && body == None
    {
      if pos + n <= |data| {
        body := Some(data[pos..pos + n]);
        pos := pos + n;
      } else {
        pos := |data|;
        body := None;
      }
    }
  }
}

/** A byte-stream endpoint (a socket or stream writer), seen only as the log of what was written to it. */
module Transport {
  import opened Bytes

  /** Concatenation of logs is associative. */
  lemma ConcatAssociative<T>(a: seq<T>, b: seq<T>, c: seq<T>)
    ensures (a + b) + c == a + (b + c)
  {
  }

  class Sink {
    var written: seq<seq<byte>>

    constructor ()
      ensures written == []
    {
      written := [];
    }

    /** One `send` or `write` call carrying `packet`. */
    method Write(packet: seq<byte>)
      modifies this
      ensures written == old(written) + [packet]
    {
      written := written + [packet];
    }
  }
}

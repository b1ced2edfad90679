/** Types and sequences that several parts of the model use. */
module Basics {
  /** A value that may be missing. */
  datatype Option<+T> = None | Some(value: T)

  type byte = x: int | 0 <= x < 256

  const TWO_32: int := 0x1_0000_0000

  /** A Go string in the source, as the bytes it is. */
  function Ascii(s: string): (b: seq<byte>)
    ensures |b| == |s| && forall i :: 0 <= i < |s| && s[i] as int < 256 ==> b[i] == s[i] as int
  {
    seq(|s|, i requires 0 <= i < |s| => s[i] as int % 256)
  }

  /** The bytes of a message that is written in chunks. */
  function Flatten(chunks: seq<seq<byte>>): seq<byte> {
    if chunks == [] then [] else chunks[0] + Flatten(chunks[1..])
  }

  /** Writing the next chunk brings the message that much nearer to complete. */
  lemma FlattenStep(written: seq<byte>, chunks: seq<seq<byte>>)
    requires chunks != []
    ensures (written + chunks[0]) + Flatten(chunks[1..]) == written + Flatten(chunks)
  {
  }

  lemma Assoc<T>(a: seq<T>, b: seq<T>, c: seq<T>)
    ensures a + (b + c) == (a + b) + c
  {
  }
}

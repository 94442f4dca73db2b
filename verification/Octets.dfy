/** Octet strings. */
module Octets {
  type byte = b: int | 0 <= b < 256

  type Bytes = seq<byte>

  /** The octets of an ASCII literal. */
  function Ascii(s: string): (b: Bytes)
    ensures |b| == |s|
  {
    seq(|s|, i requires 0 <= i < |s| => (s[i] as int) % 256)
  }

  /** Octet strings put end to end. */
  function Concat(chunks: seq<Bytes>): (b: Bytes) {
    if chunks == [] then [] else chunks[0] + Concat(chunks[1..])
  }

  lemma {:induction false} ConcatPush(chunks: seq<Bytes>, x: Bytes)
    ensures Concat(chunks + [x]) == Concat(chunks) + x
  {
    if chunks == [] {
      assert chunks + [x] == [x];
    } else {
      assert (chunks + [x])[1..] == chunks[1..] + [x];
      ConcatPush(chunks[1..], x);
    }
  }
}

/**
 A header block spread over a HEADERS or PUSH_PROMISE frame and as many CONTINUATION
 frames as it takes (sections 4.3 and 6.10 of RFC 7540).
 */
module H2Fragment {
  import opened Wrappers
  import opened Octets
  import opened H2Head

  function ContinuationHead(stream: nat): (h: Head)
    ensures IsEndHeaders(h.flag)
  {
    Head(Continuation, END_HEADERS, stream)
  }

  /** A head with END_HEADERS set or not. */
  function Marked(h: Head, last: bool): (r: Head)
    requires IsEndHeaders(h.flag)
    ensures IsEndHeaders(r.flag) <==> last
    ensures r.kind == h.kind && r.stream == h.stream
  {
    if last then h else Cleared(h)
  }

  /** How much of a block goes into a frame with `room` octets left. */
  function Fits(block: Bytes, room: nat): (n: nat)
    ensures n <= |block| && n <= room
  {
    if |block| > room then room else |block|
  }

  /**
   Writes one frame behind `dst`: `extra`, then as much of the block as `maxFrameSize`
   allows.  The length and the END_HEADERS flag are patched in once they are known.
   */
  method EncodeFragment(dst: Bytes, head: Head, extra: Bytes, hpack: Bytes, maxFrameSize: nat)
    returns (out: Bytes, left: Option<Bytes>)
    requires IsEndHeaders(head.flag) && |extra| <= maxFrameSize <= MAX_MAX_FRAME_SIZE
    ensures var n := Fits(hpack, maxFrameSize - |extra|);
            && out == dst + FrameBytes(Marked(head, left.None?), extra + hpack[..n])
            && (left.None? <==> n == |hpack|) && (left.Some? ==> left.value == hpack[n..])
            && |extra + hpack[..n]| <= maxFrameSize
  {
    hide Uint24, Uint32, HeadBytes, FrameBytes;
    var headPos := |dst|;
    out := dst + HeadBytes(head, 0);
    var payloadPos := |out|;
    out := out + extra;
    var remaining := headPos + maxFrameSize + HEADER_LEN - |out|;
    var n := Fits(hpack, remaining);
    out, left := out + hpack[..n], if |hpack| > remaining then Some(hpack[n..]) else None;
    Unpatched(dst, head, extra, hpack[..n]);
    out := Patch(out, headPos, |out| - payloadPos, left.Some?);
    Patched(dst, head, extra + hpack[..n], left.None?);
  }

  /** Fills in the length of the frame at `at`, and takes END_HEADERS off it if there is more to come. */
  method Patch(buf: Bytes, at: nat, payloadLen: nat, more: bool) returns (out: Bytes)
    requires at + HEADER_LEN <= |buf| && (more ==> buf[at + 4] >= END_HEADERS)
    ensures var flags := if more then buf[at + 4] - END_HEADERS else buf[at + 4];
            out == buf[..at] + Uint24(payloadLen) + [buf[at + 3], flags] + buf[at + 5..]
  {
    var len := Uint24(payloadLen);
    out := buf[at := len[0]][at + 1 := len[1]][at + 2 := len[2]];
    if more {
      out := out[at + 4 := out[at + 4] - END_HEADERS];
    }
  }

  /** The parts of a frame written with length zero and all its flags. */
  lemma Unpatched(dst: Bytes, head: Head, extra: Bytes, piece: Bytes)
    ensures var b, at := dst + HeadBytes(head, 0) + extra + piece, |dst|;
            && b[..at] == dst && b[at + 3] == KindByte(head.kind) && b[at + 4] == head.flag
            && b[at + 5..] == Uint32(head.stream) + (extra + piece)
  {
  }

  lemma Patched(dst: Bytes, head: Head, payload: Bytes, last: bool)
    requires IsEndHeaders(head.flag)
    ensures dst + FrameBytes(Marked(head, last), payload)
         == dst + Uint24(|payload|)
            + [KindByte(head.kind), if last then head.flag else head.flag - END_HEADERS]
            + (Uint32(head.stream) + payload)
  {
  }

  // ----- the frames of a block -----

  function PieceHead(head: Head, i: nat): (h: Head)
    requires IsEndHeaders(head.flag)
    ensures IsEndHeaders(h.flag) && h.stream == head.stream
  {
    if i == 0 then head else ContinuationHead(head.stream)
  }

  function PiecePayload(extra: Bytes, pieces: seq<Bytes>, i: nat): (b: Bytes)
    requires i < |pieces|
  {
    if i == 0 then extra + pieces[0] else pieces[i]
  }

  function PieceFrame(head: Head, extra: Bytes, pieces: seq<Bytes>, i: nat, complete: bool): (f: Bytes)
    requires IsEndHeaders(head.flag) && i < |pieces|
  {
    FrameBytes(Marked(PieceHead(head, i), complete && i == |pieces| - 1), PiecePayload(extra, pieces, i))
  }

  /** The frames that carry these pieces of a block; `complete` when there are no more. */
  function BlockFrames(head: Head, extra: Bytes, pieces: seq<Bytes>, complete: bool): (fs: seq<Bytes>)
    requires IsEndHeaders(head.flag)
    ensures |fs| == |pieces|
  {
    seq(|pieces|, i requires 0 <= i < |pieces| => PieceFrame(head, extra, pieces, i, complete))
  }

  lemma NextPiece(head: Head, extra: Bytes, pieces: seq<Bytes>, p: Bytes, complete: bool)
    requires IsEndHeaders(head.flag) && pieces != []
    ensures BlockFrames(head, extra, pieces + [p], complete)
         == BlockFrames(head, extra, pieces, false) + [FrameBytes(Marked(ContinuationHead(head.stream), complete), p)]
  {
  }

  function Payloads(fs: seq<Bytes>): (ps: seq<Bytes>)
    requires forall i :: 0 <= i < |fs| ==> |fs[i]| >= HEADER_LEN
  {
    seq(|fs|, i requires 0 <= i < |fs| => fs[i][HEADER_LEN..])
  }

  lemma PiecesJoin(extra: Bytes, pieces: seq<Bytes>)
    requires pieces != []
    ensures Concat([extra + pieces[0]] + pieces[1..]) == extra + Concat(pieces)
  {
    var rest := Concat(pieces[1..]);
    assert ([extra + pieces[0]] + pieces[1..])[1..] == pieces[1..];
    assert (extra + pieces[0]) + rest == extra + (pieces[0] + rest);
  }

  /**
   What the frames of a block are: one HEADERS or PUSH_PROMISE and CONTINUATIONs of the same
   stream, END_HEADERS on the last one only, their payloads the extra octets and the block.
   */
  lemma FramesCarryBlock(head: Head, extra: Bytes, pieces: seq<Bytes>, complete: bool)
    requires IsEndHeaders(head.flag) && HeadOk(head) && pieces != []
    ensures var fs := BlockFrames(head, extra, pieces, complete);
            && (forall i :: 0 <= i < |fs| ==>
                  var h := ParseHead(fs[i]);
                  && h.stream == head.stream && h.kind == (if i == 0 then head.kind else Continuation)
                  && (IsEndHeaders(h.flag) <==> complete && i == |fs| - 1))
            && Concat(Payloads(fs)) == extra + Concat(pieces)
  {
    hide FrameBytes, ParseHead, IsEndHeaders, Marked;
    var fs := BlockFrames(head, extra, pieces, complete);
    forall i | 0 <= i < |fs|
      ensures var h := ParseHead(fs[i]);
              && h == Marked(PieceHead(head, i), complete && i == |fs| - 1)
              && fs[i][HEADER_LEN..] == PiecePayload(extra, pieces, i)
    {
      FrameRoundTrip(Marked(PieceHead(head, i), complete && i == |fs| - 1), PiecePayload(extra, pieces, i));
    }
    assert Payloads(fs) == [extra + pieces[0]] + pieces[1..];
    PiecesJoin(extra, pieces);
  }
}

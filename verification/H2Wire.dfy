/** What buffered frames look like on the wire, in the order they were buffered. */
module H2Wire {
  import opened Octets
  import opened H2Head
  import opened H2Fragment

  /**
   A buffered frame: as it is, or a header block with the pieces written so far.  `limits` are
   the frame sizes the peer allowed when each piece was written.
   */
  datatype Wire =
    | Plain(bytes: Bytes)
    | Block(head: Head, extra: Bytes, block: Bytes, pieces: seq<Bytes>, limits: seq<nat>)

  /** Every frame is within the limit that was in force, the promised id included. */
  ghost predicate WithinLimits(extra: Bytes, pieces: seq<Bytes>, limits: seq<nat>) {
    && |limits| == |pieces|
    && forall i :: 0 <= i < |pieces| ==> |PiecePayload(extra, pieces, i)| <= limits[i] <= MAX_MAX_FRAME_SIZE
  }

  /** A wire with `left` still to be written. */
  ghost predicate WireOk(w: Wire, left: Bytes) {
    match w
    case Plain(bytes) => left == [] && IsFrame(bytes)
    case Block(head, extra, block, pieces, limits) =>
      && IsEndHeaders(head.flag) && pieces != [] && Concat(pieces) + left == block
      && WithinLimits(extra, pieces, limits)
  }

  ghost function WireFrames(w: Wire, complete: bool): (fs: seq<Bytes>)
    requires w.Block? ==> IsEndHeaders(w.head.flag)
  {
    if w.Plain? then [w.bytes] else BlockFrames(w.head, w.extra, w.pieces, complete)
  }

  ghost predicate Marks(ws: seq<Wire>) {
    forall i :: 0 <= i < |ws| && ws[i].Block? ==> IsEndHeaders(ws[i].head.flag)
  }

  /** All frames, one wire after the other; `open` when the last one is not complete. */
  ghost function AllFrames(ws: seq<Wire>, open: bool): (fs: seq<Bytes>)
    requires Marks(ws)
  {
    if ws == [] then [] else AllFrames(ws[..|ws| - 1], false) + WireFrames(ws[|ws| - 1], !open)
  }

  /** The octets promised to the socket so far. */
  ghost function Stream(ws: seq<Wire>, open: bool): (b: Bytes)
    requires Marks(ws)
  {
    Concat(AllFrames(ws, open))
  }

  lemma {:induction false} ConcatAppend(a: seq<Bytes>, b: seq<Bytes>)
    ensures Concat(a + b) == Concat(a) + Concat(b)
  {
    if a == [] {
      assert a + b == b;
    } else {
      assert (a + b)[1..] == a[1..] + b;
      ConcatAppend(a[1..], b);
    }
  }

  lemma ConcatOne(f: Bytes)
    ensures Concat([f]) == f
  {
  }

  /** A new wire comes behind all others. */
  lemma StreamPush(ws: seq<Wire>, w: Wire, open: bool)
    requires Marks(ws) && (w.Block? ==> IsEndHeaders(w.head.flag))
    ensures Marks(ws + [w]) && Stream(ws + [w], open) == Stream(ws, false) + Concat(WireFrames(w, !open))
  {
    hide IsEndHeaders;
    assert (ws + [w])[..|ws|] == ws;
    ConcatAppend(AllFrames(ws, false), WireFrames(w, !open));
  }

  /** The next piece of the last wire comes behind everything. */
  lemma StreamGrow(ws: seq<Wire>, w: Wire, p: Bytes, limit: nat, open: bool)
    requires Marks(ws) && w.Block? && IsEndHeaders(w.head.flag) && w.pieces != []
    ensures var w' := w.(pieces := w.pieces + [p], limits := w.limits + [limit]);
            && Marks(ws + [w']) && Marks(ws + [w])
            && Stream(ws + [w'], open)
               == Stream(ws + [w], true) + FrameBytes(Marked(ContinuationHead(w.head.stream), !open), p)
  {
    hide IsEndHeaders, FrameBytes, BlockFrames, AllFrames;
    var w' := w.(pieces := w.pieces + [p], limits := w.limits + [limit]);
    var f := FrameBytes(Marked(ContinuationHead(w.head.stream), !open), p);
    StreamPush(ws, w, true);
    StreamPush(ws, w', open);
    NextPiece(w.head, w.extra, w.pieces, p, !open);
    ConcatPush(BlockFrames(w.head, w.extra, w.pieces, false), f);
  }

  lemma PieceAdded(w: Wire, left: Bytes, n: nat, limit: nat)
    requires w.Block? && WireOk(w, left) && n <= |left| && n <= limit <= MAX_MAX_FRAME_SIZE
    ensures WireOk(w.(pieces := w.pieces + [left[..n]], limits := w.limits + [limit]), left[n..])
  {
    hide IsEndHeaders;
    ConcatPush(w.pieces, left[..n]);
    assert left == left[..n] + left[n..];
  }

  /** Every wire is complete. */
  ghost predicate AllWritten(ws: seq<Wire>) {
    forall i :: 0 <= i < |ws| ==> WireOk(ws[i], [])
  }

  lemma FramesOfWire(w: Wire)
    requires WireOk(w, [])
    ensures forall i :: 0 <= i < |WireFrames(w, true)| ==> IsFrame(WireFrames(w, true)[i])
  {
    hide IsFrame, IsEndHeaders, FrameBytes;
    if w.Block? {
      forall i | 0 <= i < |w.pieces|
        ensures IsFrame(WireFrames(w, true)[i])
      {
        FrameIsFrame(Marked(PieceHead(w.head, i), i == |w.pieces| - 1), PiecePayload(w.extra, w.pieces, i));
      }
    }
  }

  lemma {:induction false} FramesOfAll(ws: seq<Wire>)
    requires AllWritten(ws) && Marks(ws)
    ensures forall i :: 0 <= i < |AllFrames(ws, false)| ==> IsFrame(AllFrames(ws, false)[i])
  {
    hide IsFrame, IsEndHeaders, WireFrames, WireOk;
    if ws != [] {
      FramesOfAll(ws[..|ws| - 1]);
      FramesOfWire(ws[|ws| - 1]);
    }
  }

  /** The peer, cutting the octets by their length fields, sees exactly the frames buffered. */
  lemma StreamCutsBack(ws: seq<Wire>)
    requires AllWritten(ws) && Marks(ws)
    ensures Frames(Stream(ws, false)) == (AllFrames(ws, false), [])
  {
    hide IsFrame, IsEndHeaders, AllFrames, Concat;
    FramesOfAll(ws);
    var fs := AllFrames(ws, false);
    FramesToldApart(fs, []);
    assert Concat(fs) + [] == Concat(fs) && fs + [] == fs;
  }
}

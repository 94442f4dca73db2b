/** What the reader answers to the header block of any peer, and which opening frames it refuses. */
module H2Peer {
  import opened Wrappers
  import opened Octets
  import Codec = H2Codec
  import L = HpackLockstep
  import P = HpackPeer
  import opened H2Head
  import opened H2HeaderBlock
  import opened H2Malformed
  import opened H2Read

  /** The answer by the book: an error of the coding ends the connection, a malformed list resets the stream. */
  ghost predicate Answers(stream: nat, flags: byte, o: P.Outcome, a: Answer) {
    if o.error.Some? then a == Err(Quit(Codec.PROTOCOL_ERROR))
    else if Malformed(o.headers) then a == Err(ResetStream(stream, Codec.PROTOCOL_ERROR))
    else
      && a.Ok? && a.value.Some? && a.value.value.WithHeaders?
      && var f := a.value.value.frame;
         f.opening == OfHeaders(None) && f.stream == stream && f.flags == flags && Holds(o.headers, f.block)
  }

  /** A whole block of any peer in one HEADERS frame. */
  lemma PeerBlockAnswered(c: Config, r: Reader, stream: nat, flags: byte, reps: seq<P.Rep>)
    requires r.partial.None? && 0 < stream < 0x8000_0000 && P.AllOk(c.env.huffman, reps)
    requires IsEndHeaders(flags) && !IsPadded(flags) && !IsPriority(flags)
    requires SizeOf(P.BlockMeaning(c.env, L.Begin(r.dec, r.queued), true, reps).headers) < c.maxListSize
    ensures var o := P.BlockMeaning(c.env, L.Begin(r.dec, r.queued), true, reps);
            var (r', a) := DecodeFrame(c, r, FrameBytes(Head(Headers, flags, stream), P.BlockBytes(reps)));
            r' == Reader(o.state, None, None) && Answers(stream, flags, o, a)
  {
    hide FrameBytes, ParseHead, IsEndHeaders, IsPadded, IsPriority, P.BlockBytes, P.BlockMeaning, Malformed, Holds,
         SizeOf;
    var st := L.Begin(r.dec, r.queued);
    var o := P.BlockMeaning(c.env, st, true, reps);
    var head, src := Head(Headers, flags, stream), P.BlockBytes(reps);
    P.ReadBlock(c.env, st, true, reps);
    FrameRoundTrip(head, src);
    var frame := BlockFrame(OfHeaders(None), stream, EMPTY_BLOCK, flags);
    assert src[..|src| - 0] == src;
    assert LoadHeaders(head, src) == Ok((frame, src));
    assert DecodeFrame(c, r, FrameBytes(head, src))
           == Settle(frame, LoadHpack(c, r.dec, r.queued, EMPTY_BLOCK, src), true);
    MalformedIff(c.maxListSize, o.headers);
    if !Malformed(o.headers) {
      LoadHolds(c.maxListSize, o.headers);
    }
  }

  // ----- opening frames that are refused -----

  function PadOctet(flags: byte): (n: nat) {
    if IsPadded(flags) then 1 else 0
  }

  /** The octets in front of the block, and the padding announced. */
  function Fixed(kind: Kind, flags: byte): (n: nat) {
    PadOctet(flags) + (if kind == PushPromise then 4 else if IsPriority(flags) then 5 else 0)
  }

  function PadLength(flags: byte, src: Bytes): (n: nat)
    requires IsPadded(flags) ==> src != []
  {
    if IsPadded(flags) then src[0] else 0
  }

  /** Exactly which HEADERS frames cannot be loaded. */
  lemma HeadersRefusedIff(head: Head, src: Bytes)
    ensures LoadHeaders(head, src).Err? <==>
              || head.stream == 0
              || |src| < Fixed(Headers, head.flag)
              || Fixed(Headers, head.flag) + PadLength(head.flag, src) > |src|
              || (IsPriority(head.flag) && ParseStream(src[PadOctet(head.flag)..]) == head.stream)
  {
    hide IsPadded, IsPriority, ParseStream;
  }

  /** And which PUSH_PROMISE frames. */
  lemma PromiseRefusedIff(head: Head, src: Bytes)
    ensures LoadPushPromise(head, src).Err? <==>
              || head.stream == 0
              || |src| <= Fixed(PushPromise, head.flag)
              || Fixed(PushPromise, head.flag) + PadLength(head.flag, src) > |src|
  {
    hide IsPadded, ParseStream;
  }

  /** Every such frame ends the connection, but for a stream that depends on itself, which alone is reset. */
  lemma RefusalEnds(c: Config, r: Reader, bytes: Bytes)
    requires |bytes| >= HEADER_LEN && r.partial.None?
    ensures var head, src := ParseHead(bytes), bytes[HEADER_LEN..];
            && (head.kind == Headers && LoadHeaders(head, src).Err? ==>
                  DecodeFrame(c, r, bytes)
                  == (r, Err(if head.stream != 0 && |src| >= Fixed(Headers, head.flag) && IsPriority(head.flag)
                                && ParseStream(src[PadOctet(head.flag)..]) == head.stream
                             then ResetStream(head.stream, Codec.PROTOCOL_ERROR) else Quit(Codec.PROTOCOL_ERROR))))
            && (head.kind == PushPromise && LoadPushPromise(head, src).Err? ==>
                  DecodeFrame(c, r, bytes) == (r, Err(Quit(Codec.PROTOCOL_ERROR))))
  {
    hide IsPadded, IsPriority, ParseStream, ParseHead;
  }
}

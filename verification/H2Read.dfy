/**
 Reading frames: header blocks are put together from CONTINUATION frames before anything
 else may come (section 6.10 of RFC 7540).
 */
module H2Read {
  import opened Wrappers
  import opened Octets
  import opened HpackInt
  import D = HpackDecode
  import L = HpackLockstep
  import Codec = H2Codec
  import opened H2Head
  import opened H2HeaderBlock

  datatype Dependency = Dependency(id: nat, exclusive: bool, weight: byte)

  datatype Opening = OfHeaders(dep: Option<Dependency>) | OfPushPromise(promised: nat)

  /** A frame that opens a header block. */
  datatype BlockFrame = BlockFrame(opening: Opening, stream: nat, block: HeaderBlock, flags: byte)

  datatype Frame = WithHeaders(frame: BlockFrame) | Other(head: Head, payload: Bytes)

  datatype FrameError =
    | InvalidStreamId
    | MalformedMessage
    | InvalidDependencyId
    | TooMuchPadding
    | Hpack(error: DecoderError)

  datatype ReadError = Quit(reason: nat) | ResetStream(stream: nat, reason: nat)

  const COMPRESSION_ERROR: nat := 9

  // ----- loading a frame, without its header block -----

  /** The padding length and what follows it. */
  function Unpad(flags: byte, src: Bytes): (r: Result<(nat, Bytes), FrameError>) {
    if !IsPadded(flags) then Ok((0, src))
    else if src == [] then Err(MalformedMessage)
    else Ok((src[0], src[1..]))
  }

  function DropPadding(pad: nat, src: Bytes): (r: Result<Bytes, FrameError>) {
    if pad > |src| then Err(TooMuchPadding) else Ok(src[..|src| - pad])
  }

  function LoadHeaders(head: Head, src: Bytes): (r: Result<(BlockFrame, Bytes), FrameError>) {
    if head.stream == 0 then Err(InvalidStreamId)
    else
      match Unpad(head.flag, src)
      case Err(e) => Err(e)
      case Ok((pad, body)) =>
        if IsPriority(head.flag) && |body| < 5 then Err(MalformedMessage)
        else
          var dep := if IsPriority(head.flag) then
              Some(Dependency(ParseStream(body), body[0] >= 128, body[4]))
            else None;
          if dep.Some? && dep.value.id == head.stream then Err(InvalidDependencyId)
          else
            match DropPadding(pad, if dep.Some? then body[5..] else body)
            case Err(e) => Err(e)
            case Ok(payload) => Ok((BlockFrame(OfHeaders(dep), head.stream, EMPTY_BLOCK, head.flag), payload))
  }

  /** A PUSH_PROMISE must hold more than the promised id. */
  function LoadPushPromise(head: Head, src: Bytes): (r: Result<(BlockFrame, Bytes), FrameError>) {
    if head.stream == 0 then Err(InvalidStreamId)
    else
      match Unpad(head.flag, src)
      case Err(e) => Err(e)
      case Ok((pad, body)) =>
        if |body| < 5 then Err(MalformedMessage)
        else
          match DropPadding(pad, body[4..])
          case Err(e) => Err(e)
          case Ok(payload) =>
            Ok((BlockFrame(OfPushPromise(ParseStream(body)), head.stream, EMPTY_BLOCK, head.flag), payload))
  }

  // ----- loading header blocks -----

  /** A frame whose header block is not complete, and the octets not decoded yet. */
  datatype Partial = Partial(frame: BlockFrame, buf: Bytes)

  /** The reader between frames. */
  datatype Reader = Reader(dec: D.State, queued: Option<nat>, partial: Option<Partial>)

  /** The frames the reader does not look into: an error each may give rise to. */
  datatype Config = Config(env: D.Env, maxListSize: nat, other: (Head, Bytes) -> Option<ReadError>)

  /** The outcome of decoding octets into a block. */
  datatype Loaded = Loaded(dec: D.State, block: HeaderBlock, rest: Bytes, error: Option<FrameError>)

  function LoadHpack(c: Config, dec: D.State, queued: Option<nat>, block: HeaderBlock, src: Bytes): (l: Loaded) {
    var d := D.DecodeAll(c.env, L.Begin(dec, queued), true, src);
    var s := LoadAll(c.maxListSize, Begin(block), d.emitted);
    Loaded(d.state, s.block, d.rest,
           if d.error.Some? then Some(Hpack(d.error.value)) else if s.malformed then Some(MalformedMessage) else None)
  }

  type Answer = Result<Option<Frame>, ReadError>

  /** What becomes of a frame once its octets have been decoded as far as they go. */
  function Settle(frame: BlockFrame, l: Loaded, isEnd: bool): (r: (Reader, Answer)) {
    var f := frame.(block := l.block);
    var waits := l.error.Some? && l.error.value.Hpack? && l.error.value.error.More? && !isEnd;
    if l.error.Some? && !waits then
      (Reader(l.dec, None, None),
       Err(if l.error.value.MalformedMessage? then ResetStream(frame.stream, Codec.PROTOCOL_ERROR)
           else Quit(Codec.PROTOCOL_ERROR)))
    else if isEnd then (Reader(l.dec, None, None), Ok(Some(WithHeaders(f.(flags := SetEndHeaders(f.flags))))))
    else (Reader(l.dec, None, Some(Partial(f, l.rest))), Ok(None))
  }

  /** A HEADERS or PUSH_PROMISE frame. */
  function OpenBlock(c: Config, r: Reader, head: Head,
                     loaded: Result<(BlockFrame, Bytes), FrameError>): (a: (Reader, Answer)) {
    match loaded
    case Err(e) =>
      (r, Err(if e.InvalidDependencyId? then ResetStream(head.stream, Codec.PROTOCOL_ERROR)
              else Quit(Codec.PROTOCOL_ERROR)))
    case Ok((frame, payload)) =>
      Settle(frame, LoadHpack(c, r.dec, r.queued, EMPTY_BLOCK, payload), IsEndHeaders(head.flag))
  }

  /** A CONTINUATION frame. */
  function Continue(c: Config, r: Reader, head: Head, bytes: Bytes): (a: (Reader, Answer))
    requires |bytes| >= HEADER_LEN
  {
    if r.partial.None? then (r, Err(Quit(Codec.PROTOCOL_ERROR)))
    else
      var p := r.partial.value;
      if p.frame.stream != head.stream then (r.(partial := None), Err(Quit(Codec.PROTOCOL_ERROR)))
      else if p.buf != [] && p.frame.block.isOverSize && |p.buf| + |bytes| > c.maxListSize then
        (r.(partial := None), Err(Quit(COMPRESSION_ERROR)))
      else
        Settle(p.frame, LoadHpack(c, r.dec, r.queued, p.frame.block, p.buf + bytes[HEADER_LEN..]),
               IsEndHeaders(head.flag))
  }

  /** What the reader makes of one frame. */
  function DecodeFrame(c: Config, r: Reader, bytes: Bytes): (a: (Reader, Answer))
    requires |bytes| >= HEADER_LEN
  {
    var head := ParseHead(bytes);
    if r.partial.Some? && head.kind != Continuation then (r, Err(Quit(Codec.PROTOCOL_ERROR)))
    else
      match head.kind
      case Headers => OpenBlock(c, r, head, LoadHeaders(head, bytes[HEADER_LEN..]))
      case PushPromise => OpenBlock(c, r, head, LoadPushPromise(head, bytes[HEADER_LEN..]))
      case Continuation => Continue(c, r, head, bytes)
      case Unknown => (r, Ok(None))
      case _ =>
        var e := c.other(head, bytes[HEADER_LEN..]);
        (r, if e.Some? then Err(e.value) else Ok(Some(Other(head, bytes[HEADER_LEN..]))))
  }

  /** The first frame or error that comes of a run of frames, and what is left of them. */
  function NextFrame(c: Config, r: Reader,
                     frames: seq<Bytes>): (n: (Reader, Option<Result<Frame, ReadError>>, seq<Bytes>))
    requires forall i :: 0 <= i < |frames| ==> |frames[i]| >= HEADER_LEN
    decreases |frames|
  {
    if frames == [] then (r, None, [])
    else
      match DecodeFrame(c, r, frames[0])
      case (r', Err(e)) => (r', Some(Err(e)), frames[1..])
      case (r', Ok(Some(f))) => (r', Some(Ok(f)), frames[1..])
      case (r', Ok(None)) => NextFrame(c, r', frames[1..])
  }

  /** The answers to a run of frames, up to the first error. */
  function ReadAll(c: Config, r: Reader, frames: seq<Bytes>): (a: (Reader, seq<Answer>))
    requires forall i :: 0 <= i < |frames| ==> |frames[i]| >= HEADER_LEN
    decreases |frames|
  {
    if frames == [] then (r, [])
    else
      var (r', answer) := DecodeFrame(c, r, frames[0]);
      if answer.Err? then (r', [answer])
      else
        var (r'', answers) := ReadAll(c, r', frames[1..]);
        (r'', [answer] + answers)
  }

  // ----- runs of frames -----

  ghost predicate AllOk(answers: seq<Answer>) {
    forall i :: 0 <= i < |answers| ==> answers[i].Ok?
  }

  ghost predicate Heads(fs: seq<Bytes>) {
    forall i :: 0 <= i < |fs| ==> |fs[i]| >= HEADER_LEN
  }

  lemma OkTail(answer: Answer, tail: seq<Answer>)
    ensures AllOk([answer] + tail) <==> answer.Ok? && AllOk(tail)
  {
    var all := [answer] + tail;
    assert all[0] == answer && forall i :: 0 <= i < |tail| ==> all[i + 1] == tail[i];
  }
}

/** The frame reader over its HPACK decoder, proved to read what `H2Read` says. */
module H2Reader {
  import opened Wrappers
  import opened Octets
  import D = HpackDecode
  import HpackDecoder
  import Codec = H2Codec
  import opened H2Head
  import opened H2HeaderBlock
  import opened H2Read
  import opened H2Order

  class FramedRead {
    const hpack: HpackDecoder.Decoder
    const other: (Head, Bytes) -> Option<ReadError>
    var maxListSize: nat
    var partial: Option<Partial>

    ghost predicate Valid()
      reads this, hpack, hpack.table
    {
      hpack.Valid()
    }

    ghost function Abstract(): (r: Reader)
      reads this, hpack, hpack.table
    {
      Reader(hpack.Abstract(), hpack.maxSizeUpdate, partial)
    }

    ghost function Configured(): (c: Config)
      reads this
    {
      Config(hpack.env, maxListSize, other)
    }

    constructor (hpack: HpackDecoder.Decoder, other: (Head, Bytes) -> Option<ReadError>, maxListSize: nat)
      requires hpack.Valid()
      ensures Valid() && this.hpack == hpack && partial.None? && this.maxListSize == maxListSize
    {
      this.hpack, this.other, this.maxListSize, partial := hpack, other, maxListSize, None;
    }

    /** Decodes octets into a block. */
    method LoadBlock(start: HeaderBlock, src: Bytes)
      returns (block: HeaderBlock, rest: Bytes, error: Option<FrameError>)
      requires Valid()
      modifies hpack, hpack.table
      ensures Valid() && hpack.maxSizeUpdate.None?
      ensures Loaded(hpack.Abstract(), block, rest, error)
           == LoadHpack(old(Configured()), old(hpack.Abstract()), old(hpack.maxSizeUpdate), start, src)
    {
      hide LoadOne, D.DecodeAll, Begin;
      var s := Begin(start);
      var emitted, stopped;
      emitted, rest, stopped := hpack.Decode(src);
      for i := 0 to |emitted|
        invariant LoadAll(maxListSize, s, emitted[i..]) == LoadAll(maxListSize, Begin(start), emitted)
      {
        assert emitted[i..][1..] == emitted[i + 1..];
        s := LoadOne(maxListSize, s, emitted[i]);
      }
      block := s.block;
      error := if stopped.Some? then Some(Hpack(stopped.value))
               else if s.malformed then Some(MalformedMessage) else None;
    }

    /** Decodes what a frame brings, and keeps the frame if its block goes on. */
    method Finish(frame: BlockFrame, src: Bytes, isEnd: bool) returns (a: Answer)
      requires Valid()
      modifies this`partial, hpack, hpack.table
      ensures Valid()
      ensures var l := LoadHpack(old(Configured()), old(hpack.Abstract()), old(hpack.maxSizeUpdate), frame.block, src);
              (Abstract(), a) == Settle(frame, l, isEnd)
    {
      hide LoadHpack, SetEndHeaders;
      var block, rest, error := LoadBlock(frame.block, src);
      partial := None;
      match error {
        case Some(Hpack(More(_))) =>
          if isEnd {
            return Err(Quit(Codec.PROTOCOL_ERROR));
          }
        case Some(MalformedMessage) => return Err(ResetStream(frame.stream, Codec.PROTOCOL_ERROR));
        case Some(_) => return Err(Quit(Codec.PROTOCOL_ERROR));
        case None =>
      }
      var f := frame.(block := block);
      if isEnd {
        return Ok(Some(WithHeaders(f.(flags := SetEndHeaders(f.flags)))));
      }
      partial := Some(Partial(f, rest));
      return Ok(None);
    }

    method OpenFrame(head: Head, loaded: Result<(BlockFrame, Bytes), FrameError>) returns (a: Answer)
      requires Valid() && partial.None?
      requires loaded.Ok? ==> loaded.value.0.block == EMPTY_BLOCK
      modifies this`partial, hpack, hpack.table
      ensures Valid()
      ensures (Abstract(), a) == OpenBlock(old(Configured()), old(Abstract()), head, loaded)
    {
      hide LoadHpack, Settle, IsEndHeaders;
      match loaded
      case Err(InvalidDependencyId) => a := Err(ResetStream(head.stream, Codec.PROTOCOL_ERROR));
      case Err(_) => a := Err(Quit(Codec.PROTOCOL_ERROR));
      case Ok((frame, payload)) => a := Finish(frame, payload, IsEndHeaders(head.flag));
    }

    method ContinueFrame(head: Head, bytes: Bytes) returns (a: Answer)
      requires Valid() && |bytes| >= HEADER_LEN
      modifies this`partial, hpack, hpack.table
      ensures Valid()
      ensures (Abstract(), a) == Continue(old(Configured()), old(Abstract()), head, bytes)
    {
      hide LoadHpack, Settle, IsEndHeaders;
      if partial.None? {
        return Err(Quit(Codec.PROTOCOL_ERROR));
      }
      var p := partial.value;
      partial := None;
      if p.frame.stream != head.stream {
        return Err(Quit(Codec.PROTOCOL_ERROR));
      }
      var buf := p.buf;
      if buf == [] {
        buf := bytes[HEADER_LEN..];
        assert p.buf + bytes[HEADER_LEN..] == buf;
      } else {
        if p.frame.block.isOverSize && |buf| + |bytes| > maxListSize {
          return Err(Quit(COMPRESSION_ERROR));
        }
        buf := buf + bytes[HEADER_LEN..];
      }
      a := Finish(p.frame, buf, IsEndHeaders(head.flag));
    }

    /** Decodes one frame; header blocks answer once, when they are complete. */
    method ReadFrame(bytes: Bytes) returns (a: Answer)
      requires Valid() && |bytes| >= HEADER_LEN
      modifies this`partial, hpack, hpack.table
      ensures Valid()
      ensures (Abstract(), a) == DecodeFrame(old(Configured()), old(Abstract()), bytes)
      ensures !MayCome(OpenIn(old(Abstract())), ParseHead(bytes)) ==> a == Err(Quit(Codec.PROTOCOL_ERROR))
    {
      hide ParseHead, LoadHeaders, LoadPushPromise, OpenBlock, Continue, MayCome;
      OneInOrder(Configured(), Abstract(), bytes);
      var head := ParseHead(bytes);
      if partial.Some? && head.kind != Continuation {
        return Err(Quit(Codec.PROTOCOL_ERROR));
      }
      match head.kind
      case Headers =>
        EmptyAtFirst(head, bytes[HEADER_LEN..]);
        a := OpenFrame(head, LoadHeaders(head, bytes[HEADER_LEN..]));
      case PushPromise =>
        EmptyAtFirst(head, bytes[HEADER_LEN..]);
        a := OpenFrame(head, LoadPushPromise(head, bytes[HEADER_LEN..]));
      case Continuation =>
        a := ContinueFrame(head, bytes);
      case Unknown =>
        a := Ok(None);
      case _ =>
        var e := other(head, bytes[HEADER_LEN..]);
        a := if e.Some? then Err(e.value) else Ok(Some(Other(head, bytes[HEADER_LEN..])));
    }

    /** Decodes frames until one is answered. */
    method PollNext(frames: seq<Bytes>) returns (a: Option<Result<Frame, ReadError>>, rest: seq<Bytes>)
      requires Valid() && forall i :: 0 <= i < |frames| ==> |frames[i]| >= HEADER_LEN
      modifies this`partial, hpack, hpack.table
      ensures Valid()
      ensures (Abstract(), a, rest) == NextFrame(old(Configured()), old(Abstract()), frames)
    {
      hide DecodeFrame;
      rest := frames;
      while rest != []
        invariant Valid() && forall i :: 0 <= i < |rest| ==> |rest[i]| >= HEADER_LEN
        invariant NextFrame(old(Configured()), Abstract(), rest)
                  == NextFrame(old(Configured()), old(Abstract()), frames)
        decreases |rest|
      {
        var bytes := rest[0];
        rest := rest[1..];
        var answer := ReadFrame(bytes);
        match answer
        case Err(e) => return Some(Err(e)), rest;
        case Ok(Some(f)) => return Some(Ok(f)), rest;
        case Ok(None) =>
      }
      a := None;
    }
  }

  lemma EmptyAtFirst(head: Head, src: Bytes)
    ensures LoadHeaders(head, src).Ok? ==> LoadHeaders(head, src).value.0.block == EMPTY_BLOCK
    ensures LoadPushPromise(head, src).Ok? ==> LoadPushPromise(head, src).value.0.block == EMPTY_BLOCK
  {
  }
}

/**
 What the reader lets through: header blocks without anything in between (section 6.10 of RFC 7540),
 and no more octets of a block that is too large than the limit allows.
 */
module H2Order {
  import opened Wrappers
  import opened Octets
  import Codec = H2Codec
  import opened HpackHeader
  import L = HpackLockstep
  import D = HpackDecode
  import opened H2Head
  import opened H2HeaderBlock
  import opened H2Read

  // ----- header blocks are not interrupted -----

  /** The stream whose block is open after a frame, going by the heads alone. */
  function OpenAfter(open: Option<nat>, head: Head): (r: Option<nat>) {
    match head.kind
    case Headers => if IsEndHeaders(head.flag) then None else Some(head.stream)
    case PushPromise => if IsEndHeaders(head.flag) then None else Some(head.stream)
    case Continuation => if IsEndHeaders(head.flag) then None else open
    case _ => open
  }

  /** While a block is open only a CONTINUATION of its stream may come, and at no other time. */
  predicate MayCome(open: Option<nat>, head: Head) {
    if open.Some? then head.kind == Continuation && head.stream == open.value else head.kind != Continuation
  }

  /** Frames that keep to this, going by their heads alone. */
  predicate InOrder(open: Option<nat>, frames: seq<Bytes>)
    requires Heads(frames)
    decreases |frames|
  {
    frames != [] ==>
      && MayCome(open, ParseHead(frames[0]))
      && InOrder(OpenAfter(open, ParseHead(frames[0])), frames[1..])
  }

  /** The stream of the block the reader waits for. */
  function OpenIn(r: Reader): (open: Option<nat>) {
    if r.partial.Some? then Some(r.partial.value.frame.stream) else None
  }

  /** One frame out of order ends the connection; one in order leaves the block open that its head says. */
  lemma OneInOrder(c: Config, r: Reader, bytes: Bytes)
    requires |bytes| >= HEADER_LEN
    ensures var (r', a) := DecodeFrame(c, r, bytes);
            && (!MayCome(OpenIn(r), ParseHead(bytes)) ==> a == Err(Quit(Codec.PROTOCOL_ERROR)))
            && (a.Ok? ==> OpenIn(r') == OpenAfter(OpenIn(r), ParseHead(bytes)))
  {
    hide ParseHead, LoadHpack, IsEndHeaders, SetEndHeaders;
    LoadedStream(ParseHead(bytes), bytes[HEADER_LEN..]);
  }

  lemma LoadedStream(head: Head, src: Bytes)
    ensures LoadHeaders(head, src).Ok? ==> LoadHeaders(head, src).value.0.stream == head.stream
    ensures LoadPushPromise(head, src).Ok? ==> LoadPushPromise(head, src).value.0.stream == head.stream
  {
    hide ParseStream;
  }

  /** Frames that are all taken are in order. */
  lemma {:induction false} TakenInOrder(c: Config, r: Reader, frames: seq<Bytes>)
    requires Heads(frames) && AllOk(ReadAll(c, r, frames).1)
    ensures InOrder(OpenIn(r), frames)
    decreases |frames|
  {
    hide DecodeFrame, ParseHead, AllOk;
    if frames != [] {
      var (r', a) := DecodeFrame(c, r, frames[0]);
      OneInOrder(c, r, frames[0]);
      if a.Ok? {
        var tail := ReadAll(c, r', frames[1..]).1;
        OkTail(a, tail);
        TakenInOrder(c, r', frames[1..]);
      } else {
        assert [a] + [] == [a];
        OkTail(a, []);
      }
    }
  }

  /** Of any run of frames the reader takes only frames in order: at the first other one, if not before, it stops. */
  lemma {:induction false} StopsOutOfOrder(c: Config, r: Reader, frames: seq<Bytes>, bad: Bytes)
    requires Heads(frames) && |bad| >= HEADER_LEN
    requires InOrder(OpenIn(r), frames) && !InOrder(OpenIn(r), frames + [bad])
    ensures Heads(frames + [bad])
    ensures var a, all := ReadAll(c, r, frames).1, ReadAll(c, r, frames + [bad]).1;
            all == if AllOk(a) then a + [Err(Quit(Codec.PROTOCOL_ERROR))] else a
    decreases |frames|
  {
    hide DecodeFrame, ParseHead, AllOk;
    var all := frames + [bad];
    if frames == [] {
      assert all == [bad] && all[1..] == [];
      OneInOrder(c, r, bad);
      NoneOk();
    } else {
      assert all[0] == frames[0] && all[1..] == frames[1..] + [bad];
      OneInOrder(c, r, frames[0]);
      var (r', a) := DecodeFrame(c, r, frames[0]);
      if a.Ok? {
        StopsOutOfOrder(c, r', frames[1..], bad);
        OkTail(a, ReadAll(c, r', frames[1..]).1);
        var tail := ReadAll(c, r', frames[1..]).1;
        assert [a] + (tail + [Err(Quit(Codec.PROTOCOL_ERROR))]) == ([a] + tail) + [Err(Quit(Codec.PROTOCOL_ERROR))];
      } else {
        assert [a] + [] == [a];
        OkTail(a, []);
      }
    }
  }

  lemma NoneOk()
    ensures AllOk([])
  {
  }

  // ----- frames of other kinds -----

  /** A frame that the reader passes on unless something is wrong with it. */
  predicate IsPlain(bytes: Bytes)
    requires |bytes| >= HEADER_LEN
  {
    ParseHead(bytes).kind !in {Headers, PushPromise, Continuation, Unknown}
  }

  predicate Faultless(c: Config, bytes: Bytes)
    requires |bytes| >= HEADER_LEN
  {
    c.other(ParseHead(bytes), bytes[HEADER_LEN..]).None?
  }

  /** Such a frame is passed on whole, or its error is reported; it never changes what the reader holds. */
  lemma OnePassedOn(c: Config, r: Reader, bytes: Bytes)
    requires |bytes| >= HEADER_LEN && IsPlain(bytes) && r.partial.None?
    ensures var (r', a) := DecodeFrame(c, r, bytes);
            r' == r && a == if Faultless(c, bytes) then Ok(Some(Other(ParseHead(bytes), bytes[HEADER_LEN..])))
                            else Err(c.other(ParseHead(bytes), bytes[HEADER_LEN..]).value)
  {
    hide ParseHead;
  }

  /** Of the frames of a run that are all taken, nothing was wrong with any. */
  lemma {:induction false} TakenFaultless(c: Config, r: Reader, frames: seq<Bytes>)
    requires Heads(frames) && AllOk(ReadAll(c, r, frames).1)
    ensures forall i :: 0 <= i < |frames| && IsPlain(frames[i]) ==> Faultless(c, frames[i])
    decreases |frames|
  {
    hide DecodeFrame, AllOk, Faultless, IsPlain, MayCome;
    if frames != [] {
      var (r', a) := DecodeFrame(c, r, frames[0]);
      if a.Ok? {
        OkTail(a, ReadAll(c, r', frames[1..]).1);
        TakenFaultless(c, r', frames[1..]);
        if IsPlain(frames[0]) {
          OneInOrder(c, r, frames[0]);
          PlainBetween(OpenIn(r), frames[0]);
          if MayCome(OpenIn(r), ParseHead(frames[0])) {
            OnePassedOn(c, r, frames[0]);
          }
        }
        assert forall i :: 0 < i < |frames| ==> frames[i] == frames[1..][i - 1];
      } else {
        assert [a] + [] == [a];
        OkTail(a, []);
      }
    }
  }

  lemma PlainBetween(open: Option<nat>, bytes: Bytes)
    requires |bytes| >= HEADER_LEN && IsPlain(bytes)
    ensures MayCome(open, ParseHead(bytes)) ==> open.None?
  {
  }

  // ----- blocks that are too large -----

  /** The frame belongs to an open block that is too large already, and would keep more than the limit. */
  predicate TooMuch(c: Config, r: Reader, bytes: Bytes) {
    && r.partial.Some? && r.partial.value.frame.block.isOverSize && r.partial.value.buf != []
    && |r.partial.value.buf| + |bytes| > c.maxListSize
  }

  /** Exactly such a frame is refused as a compression error. */
  lemma RefusedIffTooMuch(c: Config, r: Reader, bytes: Bytes)
    requires |bytes| >= HEADER_LEN && r.partial.Some? && MayCome(OpenIn(r), ParseHead(bytes))
    ensures DecodeFrame(c, r, bytes).1 == Err(Quit(COMPRESSION_ERROR)) <==> TooMuch(c, r, bytes)
  {
    hide ParseHead, LoadHpack, IsEndHeaders, SetEndHeaders;
  }

  lemma {:induction false} OverSizeStays(max: nat, s: Loading, hs: seq<Header>)
    requires s.block.isOverSize
    ensures LoadAll(max, s, hs).block.isOverSize
    decreases |hs|
  {
    if hs != [] {
      OverSizeStays(max, LoadOne(max, s, hs[0]), hs[1..]);
    }
  }

  function Max(a: nat, b: nat): (m: nat) {
    if a < b then b else a
  }

  /** The longest of these frames. */
  function Longest(frames: seq<Bytes>): (n: nat) {
    if frames == [] then 0 else Max(|frames[0]|, Longest(frames[1..]))
  }

  /** What is decoded of a block leaves no more than there was. */
  lemma {:induction false} NoMoreLeft(env: D.Env, st: D.State, canResize: bool, buf: Bytes)
    ensures |D.DecodeAll(env, st, canResize, buf).rest| <= |buf|
    decreases |buf|
  {
    hide D.ParseOne, D.Dropped;
    if buf != [] {
      var p := D.ParseOne(env, st, canResize, buf);
      if p.Parsed? {
        NoMoreLeft(env, p.value.state, canResize && p.value.emitted == [], buf[p.used..]);
      }
    }
  }

  ghost predicate Keeps(r: Reader, n: nat) {
    r.partial.Some? ==> r.partial.value.frame.block.isOverSize && |r.partial.value.buf| <= n
  }

  lemma OneKeeps(c: Config, r: Reader, bytes: Bytes, n: nat)
    requires |bytes| >= HEADER_LEN && r.partial.Some? && Keeps(r, n) && DecodeFrame(c, r, bytes).1.Ok?
    ensures Keeps(DecodeFrame(c, r, bytes).0, Max(n, Max(c.maxListSize, |bytes|)))
  {
    hide ParseHead, IsEndHeaders, SetEndHeaders, D.DecodeAll, LoadAll;
    OneInOrder(c, r, bytes);
    var p := r.partial.value;
    var src := p.buf + bytes[HEADER_LEN..];
    var st := L.Begin(r.dec, r.queued);
    NoMoreLeft(c.env, st, true, src);
    OverSizeStays(c.maxListSize, Begin(p.frame.block), D.DecodeAll(c.env, st, true, src).emitted);
  }

  /**
   Of a block that is too large, however many frames it goes on for, never more is kept than was kept at
   first, the limit, or one frame.
   */
  lemma {:induction false} NeverKeepsMore(c: Config, r: Reader, frames: seq<Bytes>)
    requires Heads(frames) && r.partial.Some? && r.partial.value.frame.block.isOverSize
    requires AllOk(ReadAll(c, r, frames).1)
    requires forall i :: 0 <= i < |frames| ==> !IsEndHeaders(ParseHead(frames[i]).flag)
    ensures var r' := ReadAll(c, r, frames).0;
            r'.partial.Some? && Keeps(r', Max(|r.partial.value.buf|, Max(c.maxListSize, Longest(frames))))
    decreases |frames|
  {
    hide DecodeFrame, ParseHead, AllOk, IsEndHeaders;
    if frames != [] {
      var (r', a) := DecodeFrame(c, r, frames[0]);
      OneInOrder(c, r, frames[0]);
      assert !IsEndHeaders(ParseHead(frames[0]).flag);
      if a.Ok? {
        OkTail(a, ReadAll(c, r', frames[1..]).1);
        OneKeeps(c, r, frames[0], |r.partial.value.buf|);
        NeverKeepsMore(c, r', frames[1..]);
      } else {
        assert [a] + [] == [a];
        OkTail(a, []);
      }
    }
  }
}

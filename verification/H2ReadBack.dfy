/** A header block that was cut into frames is read back whole. */
module H2ReadBack {
  import opened Wrappers
  import opened Octets
  import opened HpackHeader
  import opened HpackInt
  import D = HpackDecode
  import E = HpackEncode
  import L = HpackLockstep
  import HpackResume
  import opened HpackStatic
  import opened HpackString
  import Codec = H2Codec
  import opened H2Head
  import opened H2Fragment
  import opened H2HeaderBlock
  import opened H2Read

  /** The octets decode to these headers, nothing is left over, and the block takes them all. */
  ghost predicate Completes(c: Config, st: D.State, block: HeaderBlock, src: Bytes) {
    var d := D.DecodeAll(c.env, st, true, src);
    d.error.None? && d.rest == [] && Clean(LoadAll(c.maxListSize, Begin(block), d.emitted))
  }

  /** The decoder and the block once all the octets are in. */
  ghost function Final(c: Config, st: D.State, block: HeaderBlock, src: Bytes): (r: (D.State, HeaderBlock)) {
    var d := D.DecodeAll(c.env, st, true, src);
    (d.state, LoadAll(c.maxListSize, Begin(block), d.emitted).block)
  }

  /** Loading the last octets. */
  lemma LoadLast(c: Config, dec: D.State, queued: Option<nat>, block: HeaderBlock, src: Bytes)
    requires Completes(c, L.Begin(dec, queued), block, src)
    ensures var l := LoadHpack(c, dec, queued, block, src);
            l.error.None? && (l.dec, l.block) == Final(c, L.Begin(dec, queued), block, src)
  {
  }

  /** Loading some of the octets leaves the rest to complete the same block. */
  lemma LoadPiece(c: Config, dec: D.State, queued: Option<nat>, block: HeaderBlock, a: Bytes, b: Bytes)
    requires Completes(c, L.Begin(dec, queued), block, a + b)
    ensures var l := LoadHpack(c, dec, queued, block, a);
            && (l.error.Some? ==> l.error.value.Hpack? && l.error.value.error.More?)
            && Completes(c, l.dec, l.block, l.rest + b)
            && Final(c, l.dec, l.block, l.rest + b) == Final(c, L.Begin(dec, queued), block, a + b)
  {
    hide D.DecodeAll, LoadAll, Begin;
    var st := L.Begin(dec, queued);
    HpackResume.DecodeSplit(c.env, st, true, a, b);
    var first := D.DecodeAll(c.env, st, true, a);
    var second := D.DecodeAll(c.env, first.state, true, first.rest + b);
    LoadSplit(c.maxListSize, block, first.emitted, second.emitted);
  }

  /** An unfinished block is within its size: the reader starts from what it has. */
  lemma NotOverSize(c: Config, st: D.State, block: HeaderBlock, src: Bytes)
    requires Completes(c, st, block, src)
    ensures !block.isOverSize
  {
    WithinThroughout(c.maxListSize, Begin(block), D.DecodeAll(c.env, st, true, src).emitted);
  }

  function ContinuationFrames(stream: nat, pieces: seq<Bytes>): (fs: seq<Bytes>)
    ensures |fs| == |pieces| && forall i :: 0 <= i < |fs| ==> |fs[i]| >= HEADER_LEN
  {
    seq(|pieces|,
        i requires 0 <= i < |pieces| => FrameBytes(Marked(ContinuationHead(stream), i == |pieces| - 1), pieces[i]))
  }

  /** Nothing, until the last frame brings the whole. */
  function Quiet(n: nat, f: BlockFrame): (answers: seq<Answer>) {
    seq(n, _ => Ok(None)) + [Ok(Some(WithHeaders(f)))]
  }

  lemma QuietFirst(n: nat, f: BlockFrame)
    requires n > 0
    ensures Quiet(n, f) == [Ok(None)] + Quiet(n - 1, f)
  {
  }

  /** The frame with its block complete and END_HEADERS set. */
  function Whole(f: BlockFrame, block: HeaderBlock): (r: BlockFrame) {
    f.(block := block, flags := SetEndHeaders(f.flags))
  }

  lemma ReadContinuation(c: Config, r: Reader, p: Partial, piece: Bytes, last: bool)
    requires r.partial == Some(p) && p.frame.stream < 0x8000_0000 && !p.frame.block.isOverSize
    ensures DecodeFrame(c, r, FrameBytes(Marked(ContinuationHead(p.frame.stream), last), piece))
         == Settle(p.frame, LoadHpack(c, r.dec, r.queued, p.frame.block, p.buf + piece), last)
  {
    hide FrameBytes, ParseHead, LoadHpack, Settle, Cleared;
    FrameRoundTrip(Marked(ContinuationHead(p.frame.stream), last), piece);
  }

  /** CONTINUATION frames complete what is partial, wherever the octets were cut. */
  lemma {:induction false} ReadContinuations(c: Config, r: Reader, p: Partial, pieces: seq<Bytes>)
    requires r.partial == Some(p) && r.queued.None? && p.frame.stream < 0x8000_0000 && pieces != []
    requires Completes(c, r.dec, p.frame.block, p.buf + Concat(pieces))
    ensures var end := Final(c, r.dec, p.frame.block, p.buf + Concat(pieces));
            ReadAll(c, r, ContinuationFrames(p.frame.stream, pieces))
            == (Reader(end.0, None, None), Quiet(|pieces| - 1, Whole(p.frame, end.1)))
    decreases |pieces|
  {
    hide Completes, Final, LoadHpack, DecodeFrame, FrameBytes, Marked, Quiet;
    var frames := ContinuationFrames(p.frame.stream, pieces);
    var src, rest := p.buf + pieces[0], Concat(pieces[1..]);
    assert p.buf + Concat(pieces) == src + rest;
    NotOverSize(c, r.dec, p.frame.block, src + rest);
    ReadContinuation(c, r, p, pieces[0], |pieces| == 1);
    if |pieces| == 1 {
      assert src + rest == src;
      LoadLast(c, r.dec, r.queued, p.frame.block, src);
      assert frames[1..] == [];
      ReadLast(c, r, frames);
      QuietLast(Whole(p.frame, Final(c, r.dec, p.frame.block, src).1));
    } else {
      LoadPiece(c, r.dec, r.queued, p.frame.block, src, rest);
      var l := LoadHpack(c, r.dec, r.queued, p.frame.block, src);
      var p' := Partial(p.frame.(block := l.block), l.rest);
      assert frames[1..] == ContinuationFrames(p.frame.stream, pieces[1..]);
      ReadContinuations(c, Reader(l.dec, None, Some(p')), p', pieces[1..]);
      QuietFirst(|pieces| - 1, Whole(p.frame, Final(c, r.dec, p.frame.block, src + rest).1));
    }
  }

  lemma ReadLast(c: Config, r: Reader, frames: seq<Bytes>)
    requires |frames| == 1 && |frames[0]| >= HEADER_LEN
    ensures ReadAll(c, r, frames) == (DecodeFrame(c, r, frames[0]).0, [DecodeFrame(c, r, frames[0]).1])
  {
    hide DecodeFrame;
    var a := DecodeFrame(c, r, frames[0]);
    assert [a.1] + [] == [a.1];
  }

  lemma QuietLast(f: BlockFrame)
    ensures Quiet(0, f) == [Ok(Some(WithHeaders(f)))]
  {
  }

  // ----- the frame that opens a block -----

  function FrameHead(f: BlockFrame): (h: Head) {
    Head(if f.opening.OfHeaders? then Headers else PushPromise, f.flags, f.stream)
  }

  /** What goes in front of the block: the promised id, if there is one. */
  function Extra(f: BlockFrame): (b: Bytes) {
    if f.opening.OfHeaders? then [] else Uint32(f.opening.promised)
  }

  /** A frame as the writer is given it: no padding, no dependency, END_HEADERS set. */
  ghost predicate SendOk(f: BlockFrame) {
    && 0 < f.stream < 0x8000_0000 && IsEndHeaders(f.flags) && !IsPadded(f.flags) && !IsPriority(f.flags)
    && (if f.opening.OfHeaders? then f.opening.dep.None? else f.opening.promised < 0x8000_0000)
  }

  /** A piece that may follow the opening: a PUSH_PROMISE needs at least one octet of its block. */
  predicate Opens(f: BlockFrame, piece: Bytes) {
    f.opening.OfPushPromise? ==> piece != []
  }

  lemma LoadOpening(f: BlockFrame, head: Head, piece: Bytes)
    requires SendOk(f) && head.stream == f.stream && !IsPadded(head.flag) && !IsPriority(head.flag)
    ensures var frame := BlockFrame(f.opening, f.stream, EMPTY_BLOCK, head.flag);
            && (f.opening.OfHeaders? ==> LoadHeaders(head, Extra(f) + piece) == Ok((frame, piece)))
            && (f.opening.OfPushPromise? ==>
                  LoadPushPromise(head, Extra(f) + piece)
                  == if piece != [] then Ok((frame, piece)) else Err(MalformedMessage))
  {
    hide Uint32, ParseStream, IsPadded, IsPriority;
    var body := Extra(f) + piece;
    assert piece[..|piece|] == piece;
    if f.opening.OfHeaders? {
      assert body == piece;
    } else {
      StreamRoundTrip(f.opening.promised, piece);
      assert body[4..] == piece;
    }
  }

  lemma ReadOpening(c: Config, r: Reader, f: BlockFrame, piece: Bytes, last: bool)
    requires SendOk(f) && r.partial.None?
    ensures var head := Marked(FrameHead(f), last);
            DecodeFrame(c, r, FrameBytes(head, Extra(f) + piece))
            == if Opens(f, piece) then
                 Settle(BlockFrame(f.opening, f.stream, EMPTY_BLOCK, head.flag),
                        LoadHpack(c, r.dec, r.queued, EMPTY_BLOCK, piece), last)
               else (r, Err(Quit(Codec.PROTOCOL_ERROR)))
  {
    hide FrameBytes, ParseHead, LoadHpack, Settle, LoadHeaders, LoadPushPromise, IsPadded, IsPriority, IsEndHeaders,
         Uint32;
    var head := Marked(FrameHead(f), last);
    FrameRoundTrip(head, Extra(f) + piece);
    LoadOpening(f, head, piece);
  }

  // ----- the whole block -----

  /** Frames that carry a block which completes are answered by the frame with that block. */
  lemma ReadBlock(c: Config, r: Reader, f: BlockFrame, pieces: seq<Bytes>)
    requires SendOk(f) && r.partial.None? && pieces != [] && Opens(f, pieces[0])
    requires Completes(c, L.Begin(r.dec, r.queued), EMPTY_BLOCK, Concat(pieces))
    ensures var end := Final(c, L.Begin(r.dec, r.queued), EMPTY_BLOCK, Concat(pieces));
            ReadAll(c, r, BlockFrames(FrameHead(f), Extra(f), pieces, true))
            == (Reader(end.0, None, None), Quiet(|pieces| - 1, f.(block := end.1)))
  {
    hide Completes, Final, LoadHpack, DecodeFrame, FrameBytes, Quiet, Opens, Extra, IsPadded, IsPriority,
         IsEndHeaders, SetEndHeaders;
    var frames := BlockFrames(FrameHead(f), Extra(f), pieces, true);
    var rest := Concat(pieces[1..]);
    var st := L.Begin(r.dec, r.queued);
    ReadOpening(c, r, f, pieces[0], |pieces| == 1);
    FlagsRestored(f, |pieces| == 1);
    if |pieces| == 1 {
      assert Concat(pieces) == pieces[0] + rest == pieces[0];
      LoadLast(c, r.dec, r.queued, EMPTY_BLOCK, pieces[0]);
      ReadLast(c, r, frames);
      QuietLast(f.(block := Final(c, st, EMPTY_BLOCK, pieces[0]).1));
    } else {
      LoadPiece(c, r.dec, r.queued, EMPTY_BLOCK, pieces[0], rest);
      var l := LoadHpack(c, r.dec, r.queued, EMPTY_BLOCK, pieces[0]);
      var p := Partial(BlockFrame(f.opening, f.stream, l.block, Marked(FrameHead(f), false).flag), l.rest);
      Tail(FrameHead(f), Extra(f), pieces);
      ReadContinuations(c, Reader(l.dec, None, Some(p)), p, pieces[1..]);
      QuietFirst(|pieces| - 1, f.(block := Final(c, st, EMPTY_BLOCK, pieces[0] + rest).1));
    }
  }

  lemma FlagsRestored(f: BlockFrame, last: bool)
    requires IsEndHeaders(f.flags)
    ensures SetEndHeaders(Marked(FrameHead(f), last).flag) == f.flags
  {
  }

  lemma Tail(head: Head, extra: Bytes, pieces: seq<Bytes>)
    requires IsEndHeaders(head.flag) && |pieces| > 1
    ensures BlockFrames(head, extra, pieces, true)[1..] == ContinuationFrames(head.stream, pieces[1..])
    ensures BlockFrames(head, extra, pieces, true)[0] == FrameBytes(Marked(head, false), extra + pieces[0])
  {
  }

  /** What the encoder writes for a block completes it. */
  lemma BlockCompletes(c: Config, l: L.Link, b: HeaderBlock)
    requires L.Assumed(c.env) && L.InSync(l) && L.EventOk(c.env, l, L.Block(Items(b))) && Sendable(b, c.maxListSize)
    ensures var src, l' := E.EncodeBlock(c.env.huffman, l.enc, Items(b)).0, L.Step(c.env, l, L.Block(Items(b)));
            && L.InSync(l') && Completes(c, L.Begin(l.dec, l.queued), EMPTY_BLOCK, src)
            && Final(c, L.Begin(l.dec, l.queued), EMPTY_BLOCK, src) == (l'.dec, PlainBlock(b))
  {
    hide D.DecodeAll, E.EncodeBlock, LoadAll, L.InSync, L.UpdateFits, L.AllAcceptable, Items, HeaderList, SizeOf,
         Allowed, Begin;
    ReportedItems(b);
    L.BlockLockstep(c.env, l, Items(b));
    LoadRebuilds(c.maxListSize, b);
  }

  /**
   A header block sent in HEADERS or PUSH_PROMISE and CONTINUATION frames, cut anywhere, comes
   back as the same frame: kind, stream, flags, pseudo headers and fields.  Only the never-index
   marks are gone.  Encoder and decoder tables agree afterwards.
   */
  lemma BlockReadBack(c: Config, l: L.Link, f: BlockFrame, pieces: seq<Bytes>)
    requires L.Assumed(c.env) && L.InSync(l) && L.EventOk(c.env, l, L.Block(Items(f.block)))
    requires SendOk(f) && Sendable(f.block, c.maxListSize)
    requires pieces != [] && Opens(f, pieces[0])
             && Concat(pieces) == E.EncodeBlock(c.env.huffman, l.enc, Items(f.block)).0
    ensures var l' := L.Step(c.env, l, L.Block(Items(f.block)));
            && L.InSync(l')
            && ReadAll(c, Reader(l.dec, l.queued, None), BlockFrames(FrameHead(f), Extra(f), pieces, true))
               == (Reader(l'.dec, None, None), Quiet(|pieces| - 1, f.(block := PlainBlock(f.block))))
  {
    hide E.EncodeBlock, L.InSync, L.EventOk, L.Step, L.Assumed, Items, Sendable, Quiet, SendOk, Opens, BlockFrames,
         ReadAll, Completes, Final;
    BlockCompletes(c, l, f.block);
    ReadBlock(c, Reader(l.dec, l.queued, None), f, pieces);
  }

  /** A PUSH_PROMISE that holds nothing of its block is refused at its first frame. */
  lemma EmptyPromiseRefused(c: Config, r: Reader, f: BlockFrame, pieces: seq<Bytes>)
    requires SendOk(f) && r.partial.None? && pieces != [] && !Opens(f, pieces[0])
    ensures ReadAll(c, r, BlockFrames(FrameHead(f), Extra(f), pieces, true)) == (r, [Err(Quit(Codec.PROTOCOL_ERROR))])
  {
    hide FrameBytes, DecodeFrame, IsEndHeaders;
    ReadOpening(c, r, f, pieces[0], |pieces| == 1);
  }

  /** Read-back, exactly: it holds if and only if the opening frame is no PUSH_PROMISE without an octet of its block. */
  lemma BlockReadBackIff(c: Config, l: L.Link, f: BlockFrame, pieces: seq<Bytes>)
    requires L.Assumed(c.env) && L.InSync(l) && L.EventOk(c.env, l, L.Block(Items(f.block)))
    requires SendOk(f) && Sendable(f.block, c.maxListSize)
    requires pieces != [] && Concat(pieces) == E.EncodeBlock(c.env.huffman, l.enc, Items(f.block)).0
    ensures ReadAll(c, Reader(l.dec, l.queued, None), BlockFrames(FrameHead(f), Extra(f), pieces, true))
            == (Reader(L.Step(c.env, l, L.Block(Items(f.block))).dec, None, None),
                Quiet(|pieces| - 1, f.(block := PlainBlock(f.block))))
            <==> Opens(f, pieces[0])
  {
    hide E.EncodeBlock, L.InSync, L.EventOk, L.Step, L.Assumed, Items, Sendable, SendOk, Opens, BlockFrames, ReadAll;
    if Opens(f, pieces[0]) {
      BlockReadBack(c, l, f, pieces);
    } else {
      EmptyPromiseRefused(c, Reader(l.dec, l.queued, None), f, pieces);
      QuietIsOk(|pieces| - 1, f.(block := PlainBlock(f.block)));
    }
  }

  lemma QuietIsOk(n: nat, f: BlockFrame)
    ensures Quiet(n, f)[0].Ok?
  {
  }

  // ----- frames other writers may send -----

  /** Padding and a stream dependency are taken off a HEADERS frame, unless the stream depends on itself. */
  lemma PaddingStripped(head: Head, dep: Dependency, piece: Bytes, padding: Bytes)
    requires head.stream != 0 && IsPadded(head.flag) && IsPriority(head.flag) && |padding| < 256 && dep.id < 0x8000_0000
    ensures var id := Uint32(if dep.exclusive then dep.id + 0x8000_0000 else dep.id);
            LoadHeaders(head, [|padding|] + (id + [dep.weight] + piece + padding))
            == if dep.id == head.stream then Err(InvalidDependencyId)
               else Ok((BlockFrame(OfHeaders(Some(dep)), head.stream, EMPTY_BLOCK, head.flag), piece))
  {
    hide Uint32, IsPadded, IsPriority, ParseStream;
    var id := Uint32(if dep.exclusive then dep.id + 0x8000_0000 else dep.id);
    var body := id + [dep.weight] + piece + padding;
    assert ([|padding|] + body)[1..] == body;
    DependencyRead(dep, [dep.weight] + piece + padding);
    assert body == id + ([dep.weight] + piece + padding);
    assert body[5..] == piece + padding;
    assert (piece + padding)[..|piece|] == piece;
  }

  lemma DependencyRead(dep: Dependency, rest: Bytes)
    requires dep.id < 0x8000_0000
    ensures var b := Uint32(if dep.exclusive then dep.id + 0x8000_0000 else dep.id) + rest;
            ParseStream(b) == dep.id && (b[0] >= 128 <==> dep.exclusive)
  {
    var n := if dep.exclusive then dep.id + 0x8000_0000 else dep.id;
    hide Uint32, Num;
    Uint32RoundTrip(n);
    TopBit(n);
    assert (Uint32(n) + rest)[..4] == Uint32(n);
  }

  lemma TopBit(n: nat)
    requires n < 0x1_0000_0000
    ensures Uint32(n)[0] >= 128 <==> n >= 0x8000_0000
  {
    var n1, n2 := n / 256, n / 256 / 256;
    assert n1 >= 0x80_0000 <==> n >= 0x8000_0000;
    assert n2 >= 0x8000 <==> n1 >= 0x80_0000;
    assert n2 / 256 >= 128 <==> n2 >= 0x8000;
    assert n2 / 256 < 256;
  }

  // ----- malformed blocks -----

  /** A literal cut off behind its first octet. */
  lemma DecodeCutLiteral(env: D.Env, st: D.State, canResize: bool)
    ensures D.DecodeAll(env, st, canResize, [0]) == D.Decoded(st, [], [0], Some(More(UnexpectedEndOfStream)))
  {
    assert ParseInt([0], 4) == Parsed(0, 1) && [0][1..] == [] && [0][0..] == [0];
  }

  lemma ReadShort(h: Huffman, x: byte, rest: Bytes)
    ensures ParseString(h, [1, x] + rest) == Parsed([x], 2)
  {
    var buf := [1, x] + rest;
    assert ParseInt(buf, 7) == Parsed(1, 1);
    assert buf[1..2] == [x];
  }

  /** The whole literal: a field `a` with value `b`. */
  lemma DecodeLiteral(env: D.Env, st: D.State, canResize: bool)
    requires env.grammar.fieldName([97]) && env.grammar.value(Field([97]), [98])
    ensures D.DecodeAll(env, st, canResize, [0, 1, 97, 1, 98])
            == D.Decoded(st, [Header(Field([97]), [98], false)], [], None)
  {
    hide ParseString, D.Dropped;
    var buf := [0, 1, 97, 1, 98];
    assert ParseInt(buf, 4) == Parsed(0, 1);
    assert buf[1..] == [1, 97] + [1, 98] && buf[3..] == [1, 98] + [] && buf[5..] == [];
    ReadShort(env.huffman, 97, [1, 98]);
    ReadShort(env.huffman, 98, []);
    assert D.ParseOne(env, st, canResize, buf) == Parsed(D.Effect(st, [Header(Field([97]), [98], false)]), 5);
    assert D.DecodeAll(env, st, false, []) == D.Decoded(st, [], [], None);
  }

  /** A frame is accepted in two pieces: the first is taken in or asks for more, the second completes it. */
  predicate AcceptedInTwo(c: Config, dec: D.State, block: HeaderBlock, a: Bytes, b: Bytes) {
    var l := LoadHpack(c, dec, None, block, a);
    (l.error.None? || AsksForMore(l)) && LoadHpack(c, l.dec, None, l.block, l.rest + b).error.None?
  }

  predicate AsksForMore(l: Loaded) {
    l.error.Some? && l.error.value.Hpack? && l.error.value.error.More?
  }

  /** Loading these headers into the block meets a malformed one. */
  predicate MalformedIn(c: Config, block: HeaderBlock, hs: seq<Header>) {
    LoadAll(c.maxListSize, Begin(block), hs).malformed
  }

  /**
   A block that decodes and is within the size limit is judged alike whole and in two pieces,
   except exactly when the cut lies inside a representation, a header before it is malformed, and
   the headers from there on are well-formed behind what came before: then the fault is forgotten.
   */
  lemma PiecesJudgedAlikeIff(c: Config, dec: D.State, block: HeaderBlock, a: Bytes, b: Bytes)
    requires var d := D.DecodeAll(c.env, dec, true, a + b);
             d.error.None? && Within(LoadAll(c.maxListSize, Begin(block), d.emitted))
    ensures var list, before := D.DecodeAll(c.env, dec, true, a + b).emitted, D.DecodeAll(c.env, dec, true, a);
            && before.emitted <= list
            && ((LoadHpack(c, dec, None, block, a + b).error.None? <==> AcceptedInTwo(c, dec, block, a, b))
                <==> !(before.rest != [] && MalformedIn(c, block, before.emitted)
                       && !MalformedIn(c, LoadAll(c.maxListSize, Begin(block), before.emitted).block,
                                       list[|before.emitted|..])))
  {
    hide D.DecodeAll, LoadAll, Begin;
    HpackResume.DecodeSplit(c.env, dec, true, a, b);
    var first := D.DecodeAll(c.env, dec, true, a);
    var second := D.DecodeAll(c.env, first.state, true, first.rest + b);
    LoadSplit(c.maxListSize, block, first.emitted, second.emitted);
    assert (first.emitted + second.emitted)[|first.emitted|..] == second.emitted;
  }

  const CUT_SHORT: Bytes := [0x82, 0x82, 0]
  const THE_REST: Bytes := [1, 97, 1, 98]

  lemma DecodePieces(env: D.Env, dec: D.State)
    requires env.grammar.fieldName([97]) && env.grammar.value(Field([97]), [98])
    ensures var get, field := GetStatic(2), Header(Field([97]), [98], false);
            && D.DecodeAll(env, dec, true, CUT_SHORT)
               == D.Decoded(dec, [get, get], [0], Some(More(UnexpectedEndOfStream)))
            && D.DecodeAll(env, dec, true, [0] + THE_REST) == D.Decoded(dec, [field], [], None)
            && D.DecodeAll(env, dec, true, CUT_SHORT + THE_REST) == D.Decoded(dec, [get, get, field], [], None)
  {
    hide D.DecodeAll, GetStatic;
    DecodeCutLiteral(env, dec, false);
    DecodeLiteral(env, dec, false);
    DecodeLiteral(env, dec, true);
    assert [0] + THE_REST == [0, 1, 97, 1, 98];
    assert CUT_SHORT == [0x82] + ([0x82] + [0]);
    assert CUT_SHORT + THE_REST == [0x82] + ([0x82] + [0, 1, 97, 1, 98]);
    HpackResume.DecodeMethod(env, dec, true, [0x82] + [0]);
    HpackResume.DecodeMethod(env, dec, false, [0]);
    HpackResume.DecodeMethod(env, dec, true, [0x82] + [0, 1, 97, 1, 98]);
    HpackResume.DecodeMethod(env, dec, false, [0, 1, 97, 1, 98]);
  }

  lemma LoadPieces(max: nat, h: Header)
    requires h.name == Method && |h.value| == 3 && max > 200
    ensures var field, s := Header(Field([97]), [98], false), LoadAll(max, Begin(EMPTY_BLOCK), [h, h]);
            && !LoadAll(max, Begin(s.block), [field]).malformed
            && LoadAll(max, Begin(EMPTY_BLOCK), [h, h, field]).malformed
  {
    hide Append;
    var field := Header(Field([97]), [98], false);
    var s1 := LoadOne(max, Begin(EMPTY_BLOCK), h);
    var s2 := LoadOne(max, s1, h);
    assert s2.malformed && !Refused([97], [98]);
    assert [h, h][1..] == [h] && [h][1..] == [] && [field][1..] == [];
    assert [h, h, field][1..] == [h, field] && [h, field][1..] == [field];
    assert LoadAll(max, s1, [h]) == s2 && LoadAll(max, s1, [h, field]) == LoadAll(max, s2, [field]);
    assert LoadAll(max, s2, [field]) == LoadOne(max, s2, field);
  }

  lemma MethodEntry()
    ensures GetStatic(2).name == Method && |GetStatic(2).value| == 3
  {
  }

  /** It happens: `:method` twice, then the first octet of a literal, then the rest of it. */
  lemma MalformedForgotten(c: Config, dec: D.State)
    requires c.env.grammar.fieldName([97]) && c.env.grammar.value(Field([97]), [98]) && c.maxListSize > 200
    ensures LoadHpack(c, dec, None, EMPTY_BLOCK, CUT_SHORT + THE_REST).error == Some(MalformedMessage)
    ensures AcceptedInTwo(c, dec, EMPTY_BLOCK, CUT_SHORT, THE_REST)
  {
    hide D.DecodeAll, GetStatic, LoadAll, Begin;
    MethodEntry();
    DecodePieces(c.env, dec);
    LoadPieces(c.maxListSize, GetStatic(2));
  }
}

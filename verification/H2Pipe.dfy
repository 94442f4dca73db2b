/** From one end of a connection to the other: frames buffered by the writer, frames answered by the reader. */
module H2Pipe {
  import opened Wrappers
  import opened Octets
  import E = HpackEncode
  import L = HpackLockstep
  import opened H2Head
  import opened H2Fragment
  import opened H2HeaderBlock
  import opened H2Read
  import opened H2ReadBack
  import opened H2Wire
  import opened H2Writer

  /** The frames in a run of answers. */
  function Arrivals(answers: seq<Answer>): (fs: seq<Frame>) {
    if answers == [] then []
    else (if answers[0].Ok? && answers[0].value.Some? then [answers[0].value.value] else []) + Arrivals(answers[1..])
  }

  lemma {:induction false} ArrivalsAppend(a: seq<Answer>, b: seq<Answer>)
    ensures Arrivals(a + b) == Arrivals(a) + Arrivals(b)
  {
    if a == [] {
      assert a + b == b;
    } else {
      assert (a + b)[1..] == a[1..] + b;
      ArrivalsAppend(a[1..], b);
    }
  }

  lemma {:induction false} ArrivalsQuiet(n: nat, f: BlockFrame)
    ensures Arrivals(Quiet(n, f)) == [WithHeaders(f)] && AllOk(Quiet(n, f))
  {
    if n == 0 {
      QuietLast(f);
      assert Quiet(0, f)[1..] == [];
    } else {
      QuietFirst(n, f);
      ArrivalsQuiet(n - 1, f);
      assert Quiet(n, f)[1..] == Quiet(n - 1, f);
    }
  }

  /** Reading goes on where it stopped, as long as there was no error. */
  lemma {:induction false} ReadAppend(c: Config, r: Reader, a: seq<Bytes>, b: seq<Bytes>)
    requires Heads(a) && Heads(b) && AllOk(ReadAll(c, r, a).1)
    ensures Heads(a + b)
    ensures var first := ReadAll(c, r, a);
            var second := ReadAll(c, first.0, b);
            ReadAll(c, r, a + b) == (second.0, first.1 + second.1)
    decreases |a|
  {
    hide DecodeFrame, AllOk;
    HeadsParts(a, b);
    if a == [] {
      assert a + b == b;
      assert [] + ReadAll(c, r, b).1 == ReadAll(c, r, b).1;
    } else {
      var r', answer := DecodeFrame(c, r, a[0]).0, DecodeFrame(c, r, a[0]).1;
      assert (a + b)[1..] == a[1..] + b && (a + b)[0] == a[0];
      if answer.Ok? {
        var tail := ReadAll(c, r', a[1..]);
        OkTail(answer, tail.1);
        ReadAppend(c, r', a[1..], b);
        assert [answer] + (tail.1 + ReadAll(c, tail.0, b).1) == ([answer] + tail.1) + ReadAll(c, tail.0, b).1;
      } else {
        assert [answer] + [] == [answer];
        OkTail(answer, []);
      }
    }
  }

  lemma HeadsParts(a: seq<Bytes>, b: seq<Bytes>)
    requires Heads(a) && Heads(b)
    ensures Heads(a + b) && (a != [] ==> |a[0]| >= HEADER_LEN && Heads(a[1..]))
  {
  }

  // ----- one buffered frame -----

  /** The octets of a frame that is not a header block. */
  function PlainBytes(item: Item): (b: Bytes)
    requires !item.BlockItem?
  {
    if item.DataItem? then FrameBytes(DataHead(item.data), item.data.payload) else item.bytes
  }

  /** A frame the reader will take: a header block within its limits, or a frame of a kind it passes on. */
  ghost predicate ItemOk(c: Config, l: L.Link, item: Item) {
    match item
    case BlockItem(f) =>
      && SendOk(f) && Sendable(f.block, c.maxListSize) && L.EventOk(c.env, l, L.Block(Items(f.block)))
      && Opens(f, E.EncodeBlock(c.env.huffman, l.enc, Items(f.block)).0)
    case _ => PassedOn(c, PlainBytes(item))
  }

  ghost predicate PassedOn(c: Config, b: Bytes) {
    && |b| >= HEADER_LEN && ParseHead(b).kind !in {Headers, PushPromise, Continuation, Unknown}
    && c.other(ParseHead(b), b[HEADER_LEN..]).None?
  }

  ghost function After(c: Config, l: L.Link, item: Item): (l': L.Link)
    requires ItemOk(c, l, item)
  {
    if item.BlockItem? then L.Step(c.env, l, L.Block(Items(item.frame.block))) else l
  }

  predicate Shown(item: Item) {
    item.BlockItem? || |PlainBytes(item)| >= HEADER_LEN
  }

  /** The frame as the peer gets it: never-index marks are not carried over. */
  function AsRead(item: Item): (f: Frame)
    requires Shown(item)
  {
    if item.BlockItem? then WithHeaders(item.frame.(block := PlainBlock(item.frame.block)))
    else Other(ParseHead(PlainBytes(item)), PlainBytes(item)[HEADER_LEN..])
  }

  ghost function At(l: L.Link): (r: Reader) {
    Reader(l.dec, l.queued, None)
  }

  lemma ReadPlain(c: Config, r: Reader, b: Bytes)
    requires r.partial.None? && PassedOn(c, b)
    ensures ReadAll(c, r, [b]) == (r, [Ok(Some(Other(ParseHead(b), b[HEADER_LEN..])))])
    ensures Heads([b]) && AllOk(ReadAll(c, r, [b]).1)
    ensures Arrivals(ReadAll(c, r, [b]).1) == [Other(ParseHead(b), b[HEADER_LEN..])]
  {
    hide ParseHead;
    ReadLast(c, r, [b]);
  }

  lemma QueueTaken(c: Config, l: L.Link, b: HeaderBlock)
    requires L.EventOk(c.env, l, L.Block(Items(b)))
    ensures L.Step(c.env, l, L.Block(Items(b))).queued.None?
  {
    hide E.EncodeBlock, L.Received;
  }

  lemma ReadWire(c: Config, l: L.Link, item: Item, w: Wire)
    requires L.Assumed(c.env) && L.InSync(l) && ItemOk(c, l, item) && WireFor(item, w, c.env.huffman, l.enc)
             && WireOk(w, []) && Opened(w)
    ensures Heads(WireFrames(w, true)) && L.InSync(After(c, l, item))
    ensures Shown(item)
    ensures var a := ReadAll(c, At(l), WireFrames(w, true));
            a.0 == At(After(c, l, item)) && AllOk(a.1) && Arrivals(a.1) == [AsRead(item)]
  {
    hide E.EncodeBlock, L.InSync, L.EventOk, L.Step, L.Assumed, Items, Sendable, Quiet, SendOk, BlockFrames, ReadAll,
         ParseHead, FrameBytes, WithinLimits, IsEndHeaders, Concat, Arrivals, AllOk, Heads, PlainBlock, Extra,
         FrameHead;
    if item.BlockItem? {
      assert Concat(w.pieces) + [] == Concat(w.pieces);
      PromiseHasId(item.frame);
      BlockReadBack(c, l, item.frame, w.pieces);
      QueueTaken(c, l, item.frame.block);
      ArrivalsQuiet(|w.pieces| - 1, AsRead(item).frame);
      FramesHaveHeads(w);
    } else {
      ReadPlain(c, At(l), PlainBytes(item));
    }
  }

  lemma PromiseHasId(f: BlockFrame)
    ensures f.opening.OfPushPromise? ==> Extra(f) != []
  {
  }

  lemma FramesHaveHeads(w: Wire)
    requires w.Block? && IsEndHeaders(w.head.flag)
    ensures Heads(WireFrames(w, true))
  {
  }

  /** The reader, given the frames of a block, answers once, with what is behind them still to be read. */
  lemma {:induction false} NextQuiet(c: Config, r: Reader, fs: seq<Bytes>, more: seq<Bytes>, n: nat, f: BlockFrame)
    requires Heads(fs) && Heads(more) && ReadAll(c, r, fs).1 == Quiet(n, f)
    ensures Heads(fs + more)
    ensures NextFrame(c, r, fs + more) == (ReadAll(c, r, fs).0, Some(Ok(WithHeaders(f))), more)
    decreases |fs|
  {
    hide DecodeFrame, Quiet;
    HeadsParts(fs, more);
    ArrivalsQuiet(n, f);
    if fs == [] {
      assert false;
    }
    assert (fs + more)[0] == fs[0] && (fs + more)[1..] == fs[1..] + more;
    var (r', answer) := DecodeFrame(c, r, fs[0]);
    var tail := ReadAll(c, r', fs[1..]).1;
    if n > 0 {
      QuietFirst(n, f);
      assert answer == Ok(None) && ([answer] + tail)[1..] == Quiet(n, f)[1..] == Quiet(n - 1, f);
      NextQuiet(c, r', fs[1..], more, n - 1, f);
    } else {
      QuietLast(f);
      assert |fs| == 1;
    }
  }

  /** What one buffered frame puts on the wire comes out of the reader, whatever follows. */
  lemma NextWire(c: Config, l: L.Link, item: Item, w: Wire, more: seq<Bytes>)
    requires L.Assumed(c.env) && L.InSync(l) && ItemOk(c, l, item)
    requires WireFor(item, w, c.env.huffman, l.enc) && WireOk(w, []) && Opened(w) && Heads(more)
    ensures L.InSync(After(c, l, item)) && Heads(WireFrames(w, true) + more)
    ensures Shown(item)
    ensures NextFrame(c, At(l), WireFrames(w, true) + more) == (At(After(c, l, item)), Some(Ok(AsRead(item))), more)
  {
    hide E.EncodeBlock, L.InSync, L.EventOk, L.Step, L.Assumed, Items, Sendable, Quiet, SendOk, BlockFrames, ReadAll,
         ParseHead, FrameBytes, WithinLimits, IsEndHeaders, NextFrame, Concat, Heads, PlainBlock, Extra, FrameHead;
    if item.BlockItem? {
      assert Concat(w.pieces) + [] == Concat(w.pieces);
      PromiseHasId(item.frame);
      BlockReadBack(c, l, item.frame, w.pieces);
      QueueTaken(c, l, item.frame.block);
      FramesHaveHeads(w);
      NextQuiet(c, At(l), WireFrames(w, true), more, |w.pieces| - 1, AsRead(item).frame);
    } else {
      NextPlain(c, At(l), PlainBytes(item), more);
    }
  }

  lemma NextPlain(c: Config, r: Reader, b: Bytes, more: seq<Bytes>)
    requires r.partial.None? && PassedOn(c, b) && Heads(more)
    ensures Heads([b] + more)
    ensures NextFrame(c, r, [b] + more) == (r, Some(Ok(Other(ParseHead(b), b[HEADER_LEN..]))), more)
  {
    hide ParseHead;
    assert ([b] + more)[1..] == more;
  }

  // ----- frames that are no header blocks -----

  lemma UnknownAnswer(c: Config, r: Reader, u: Bytes)
    requires |u| >= HEADER_LEN && ParseHead(u).kind == Unknown && r.partial.None?
    ensures Heads([u]) && ReadAll(c, r, [u]) == (r, [Ok(None)]) && AllOk(ReadAll(c, r, [u]).1)
  {
    hide ParseHead;
    ReadLast(c, r, [u]);
  }

  /** A frame of an unknown kind between header blocks changes nothing, whatever comes before and after it. */
  lemma UnknownIgnored(c: Config, r: Reader, a: seq<Bytes>, u: Bytes, b: seq<Bytes>)
    requires Heads(a) && Heads(b) && |u| >= HEADER_LEN && ParseHead(u).kind == Unknown
    requires AllOk(ReadAll(c, r, a).1) && ReadAll(c, r, a).0.partial.None?
    ensures Heads(a + b) && Heads(a + ([u] + b))
    ensures var first, second := ReadAll(c, r, a), ReadAll(c, ReadAll(c, r, a).0, b);
            && ReadAll(c, r, a + b) == (second.0, first.1 + second.1)
            && ReadAll(c, r, a + ([u] + b)) == (second.0, first.1 + ([Ok(None)] + second.1))
  {
    hide ReadAll, AllOk, ParseHead;
    HeadsParts(a, b);
    var r' := ReadAll(c, r, a).0;
    UnknownAnswer(c, r', u);
    HeadsParts([u], b);
    HeadsParts(a, [u] + b);
    ReadAppend(c, r, a, b);
    ReadAppend(c, r', [u], b);
    ReadAppend(c, r, a, [u] + b);
  }

  /** A DATA frame arrives with its flags, its stream and its payload. */
  lemma DataArrives(d: DataFrame)
    requires d.stream < 0x8000_0000
    ensures Shown(DataItem(d)) && AsRead(DataItem(d)) == Other(Head(Data, d.flags, d.stream), d.payload)
  {
    hide FrameBytes, ParseHead;
    FrameRoundTrip(Head(Data, d.flags, d.stream), d.payload);
  }
}

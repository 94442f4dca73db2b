/** The frame writer: frames are buffered one at a time and flushed through a socket that takes what it likes. */
module H2Writer {
  import opened Wrappers
  import opened Octets
  import opened Supply
  import HpackEncoder
  import E = HpackEncode
  import C = TableChains
  import S = HpackString
  import opened H2Head
  import opened H2Fragment
  import opened H2HeaderBlock
  import opened H2Read
  import opened H2ReadBack
  import opened H2Wire

  const CHAIN_THRESHOLD: nat := 256
  const MIN_BUFFER_CAPACITY: nat := HEADER_LEN + CHAIN_THRESHOLD

  datatype DataFrame = DataFrame(stream: nat, flags: byte, payload: Bytes)

  /** A frame to write; those with a fixed layout come as their octets. */
  datatype Item = DataItem(data: DataFrame) | BlockItem(frame: BlockFrame) | PlainItem(bytes: Bytes)

  /** What the socket must see before another frame may be buffered. */
  datatype Next = NextData(data: DataFrame) | NextContinuation(stream: nat, left: Bytes)

  /** What the socket answers. */
  datatype Attempt = NotNow | Took(n: nat) | Broke

  datatype Flushed = Flushed | Pending | Failed

  function Reply(attempts: seq<Attempt>): (a: Attempt) {
    if attempts == [] then NotNow else attempts[0]
  }

  function Verdict(a: Attempt): (r: Flushed) {
    match a case NotNow => Pending case Took(_) => Flushed case Broke => Failed
  }

  ghost predicate AllTook(attempts: seq<Attempt>) {
    forall i :: 0 <= i < |attempts| ==> attempts[i].Took?
  }

  /** The socket stopped at its first refusal, or its answers ran out, or it took everything. */
  ghost predicate Tells(before: seq<Attempt>, after: seq<Attempt>, r: Flushed) {
    && LeftOver(before, after)
    && var used := Used(before, after);
       if AllTook(used) then r.Flushed? || (r.Pending? && after == [])
       else AllTook(used[..|used| - 1]) && r == Verdict(used[|used| - 1])
  }

  /** How many octets the socket has offered to take. */
  function Total(attempts: seq<Attempt>): (n: nat) {
    if attempts == [] then 0
    else Total(attempts[..|attempts| - 1]) + Size(attempts[|attempts| - 1])
  }

  function Size(a: Attempt): (n: nat) {
    if a.Took? then a.n else 0
  }

  /** The socket gets all it offers to take while there is anything of what waited at first. */
  ghost predicate Grew(sent: nat, waiting: nat, sent': nat, used: seq<Attempt>) {
    && sent <= sent' <= sent + Total(used)
    && (sent' < sent + waiting ==> sent' == sent + Total(used))
  }

  lemma TotalAppend(a: seq<Attempt>, b: seq<Attempt>)
    ensures Total(a + b) == Total(a) + Total(b)
  {
    if b == [] {
      assert a + b == a;
    } else {
      assert (a + b)[..|a + b| - 1] == a + b[..|b| - 1];
      TotalAppend(a, b[..|b| - 1]);
    }
  }

  lemma TookAppend(a: seq<Attempt>, b: seq<Attempt>)
    ensures AllTook(a + b) <==> AllTook(a) && AllTook(b)
  {
    assert forall i :: 0 <= i < |b| ==> (a + b)[|a| + i] == b[i];
    assert forall i :: 0 <= i < |a| ==> (a + b)[i] == a[i];
  }

  /** One answer is used. */
  lemma TellsOne(attempts: seq<Attempt>)
    ensures Tells(attempts, Rest(attempts), Verdict(Reply(attempts)))
    ensures Total(Used(attempts, Rest(attempts))) == Size(Reply(attempts))
  {
    if attempts != [] {
      assert attempts == [attempts[0]] + Rest(attempts) && Used(attempts, Rest(attempts)) == [attempts[0]];
      assert [attempts[0]][..0] == [];
    }
  }

  lemma TellsSame(attempts: seq<Attempt>)
    ensures Tells(attempts, attempts, Flushed) && Total(Used(attempts, attempts)) == 0
  {
  }

  lemma TellsTwice(a: seq<Attempt>, b: seq<Attempt>, c: seq<Attempt>, r: Flushed)
    requires Tells(a, b, Flushed) && Tells(b, c, r)
    ensures Tells(a, c, r) && Total(Used(a, c)) == Total(Used(a, b)) + Total(Used(b, c))
  {
    hide AllTook, Total, Used, Verdict;
    UsedTwice(a, b, c);
    var x, y := Used(a, b), Used(b, c);
    FlushedTook(a, b);
    TookAppend(x, y);
    TotalAppend(x, y);
    if !AllTook(y) {
      NotTook(y);
      assert (x + y)[..|x + y| - 1] == x + y[..|y| - 1];
      TookAppend(x, y[..|y| - 1]);
    }
  }

  lemma NotTook(used: seq<Attempt>)
    ensures !AllTook(used) ==> used != []
  {
  }

  /** Nothing but a run of successes ends in one. */
  lemma FlushedTook(a: seq<Attempt>, b: seq<Attempt>)
    requires Tells(a, b, Flushed)
    ensures AllTook(Used(a, b))
  {
  }

  function DataHead(d: DataFrame): (h: Head) {
    Head(Data, d.flags, d.stream)
  }

  function LeftOf(next: Option<Next>): (b: Bytes) {
    if next.Some? && next.value.NextContinuation? then next.value.left else []
  }

  function PayloadOf(next: Option<Next>): (b: Bytes) {
    if next.Some? && next.value.NextData? then next.value.data.payload else []
  }

  predicate Unfinished(next: Option<Next>) {
    next.Some? && next.value.NextContinuation?
  }

  /** The last wire is the one that is not finished, if any is. */
  ghost predicate WiresOk(ws: seq<Wire>, next: Option<Next>) {
    && Marks(ws)
    && (ws != [] ==> AllWritten(ws[..|ws| - 1]) && WireOk(ws[|ws| - 1], LeftOf(next)))
    && (Unfinished(next) ==>
          ws != [] && ws[|ws| - 1].Block? && ws[|ws| - 1].head.stream == next.value.stream && next.value.left != [])
  }

  /** Nothing is lost, repeated or out of order: sent, buffered and chained octets are the stream. */
  ghost predicate Accounted(ws: seq<Wire>, next: Option<Next>, sent: Bytes, waiting: Bytes)
    requires Marks(ws)
  {
    sent + waiting + PayloadOf(next) == Stream(ws, Unfinished(next))
  }

  /** Wires only grow, at the end. */
  ghost predicate Extended(ws: seq<Wire>, ws': seq<Wire>) {
    && |ws'| == |ws| && (forall i :: 0 <= i < |ws| - 1 ==> ws'[i] == ws[i])
    && (ws != [] ==> Grown(ws[|ws| - 1], ws'[|ws| - 1]))
  }

  /** A frame of this size can open the block: behind a promised id there must be room for some of it. */
  predicate RoomFor(size: nat, f: BlockFrame) {
    Extra(f) == [] || |Extra(f)| < size
  }

  /** A block that opens with a promised id has something of it in its first frame, if there is anything. */
  ghost predicate Opened(w: Wire) {
    w.Block? ==> w.pieces != [] && (w.extra != [] && w.pieces[0] == [] ==> w.block == [])
  }

  ghost predicate Grown(w: Wire, w': Wire) {
    if w.Plain? then w' == w
    else
      && w'.Block? && w'.head == w.head && w'.extra == w.extra && w'.block == w.block
      && w.pieces <= w'.pieces && w.limits <= w'.limits
  }

  // ----- steps on values -----

  lemma PlainPushed(ws: seq<Wire>, sent: Bytes, waiting: Bytes, bytes: Bytes)
    requires WiresOk(ws, None) && Accounted(ws, None, sent, waiting) && IsFrame(bytes)
    ensures WiresOk(ws + [Plain(bytes)], None) && Accounted(ws + [Plain(bytes)], None, sent, waiting + bytes)
  {
    hide IsFrame, IsEndHeaders, AllFrames;
    StreamPush(ws, Plain(bytes), false);
    ConcatOne(bytes);
    assert (ws + [Plain(bytes)])[..|ws|] == ws;
  }

  lemma DataChained(ws: seq<Wire>, sent: Bytes, waiting: Bytes, d: DataFrame)
    requires WiresOk(ws, None) && Accounted(ws, None, sent, waiting) && |d.payload| <= MAX_MAX_FRAME_SIZE
    ensures var f := FrameBytes(DataHead(d), d.payload);
            && WiresOk(ws + [Plain(f)], Some(NextData(d)))
            && Accounted(ws + [Plain(f)], Some(NextData(d)), sent, waiting + HeadBytes(DataHead(d), |d.payload|))
  {
    hide IsFrame, IsEndHeaders, AllFrames, HeadBytes, Stream;
    var f := FrameBytes(DataHead(d), d.payload);
    FrameIsFrame(DataHead(d), d.payload);
    PlainPushed(ws, sent, waiting, f);
    var h := HeadBytes(DataHead(d), |d.payload|);
    assert sent + (waiting + h) + d.payload == sent + (waiting + (h + d.payload)) + [];
  }

  /** The wire of a block with its first piece. */
  function FirstWire(head: Head, extra: Bytes, block: Bytes, n: nat, limit: nat): (w: Wire)
    requires n <= |block|
  {
    Block(head, extra, block, [block[..n]], [limit])
  }

  lemma FirstWireOk(head: Head, extra: Bytes, block: Bytes, n: nat, limit: nat)
    requires IsEndHeaders(head.flag) && n <= |block| && |extra| + n <= limit <= MAX_MAX_FRAME_SIZE
    ensures WireOk(FirstWire(head, extra, block, n, limit), block[n..])
  {
  }

  lemma FirstWireFrames(head: Head, extra: Bytes, block: Bytes, n: nat, limit: nat, complete: bool)
    requires IsEndHeaders(head.flag) && n <= |block|
    ensures Concat(WireFrames(FirstWire(head, extra, block, n, limit), complete))
            == FrameBytes(Marked(head, complete), extra + block[..n])
  {
  }

  lemma BlockPushed(ws: seq<Wire>, sent: Bytes, waiting: Bytes, head: Head, extra: Bytes, block: Bytes, n: nat,
                    limit: nat)
    requires WiresOk(ws, None) && Accounted(ws, None, sent, waiting) && IsEndHeaders(head.flag)
    requires n <= |block| && |extra| + n <= limit <= MAX_MAX_FRAME_SIZE
    ensures var w := FirstWire(head, extra, block, n, limit);
            var next := if n == |block| then None else Some(NextContinuation(head.stream, block[n..]));
            && WiresOk(ws + [w], next)
            && Accounted(ws + [w], next, sent, waiting + FrameBytes(Marked(head, n == |block|), extra + block[..n]))
  {
    hide WireOk, IsEndHeaders, Stream, FrameBytes, Marked, WireFrames;
    var w := FirstWire(head, extra, block, n, limit);
    FirstWireOk(head, extra, block, n, limit);
    FirstWireFrames(head, extra, block, n, limit, n == |block|);
    StreamPush(ws, w, n != |block|);
    assert (ws + [w])[..|ws|] == ws;
  }

  lemma BlockContinued(ws: seq<Wire>, next: Next, sent: Bytes, n: nat, limit: nat)
    requires next.NextContinuation? && WiresOk(ws, Some(next)) && Accounted(ws, Some(next), sent, [])
    requires n <= |next.left| && n <= limit <= MAX_MAX_FRAME_SIZE
    ensures var w := ws[|ws| - 1];
            var ws' := ws[..|ws| - 1] + [w.(pieces := w.pieces + [next.left[..n]], limits := w.limits + [limit])];
            var next' := if n == |next.left| then None else Some(NextContinuation(next.stream, next.left[n..]));
            && WiresOk(ws', next') && Extended(ws, ws')
            && Accounted(ws', next', sent,
                         FrameBytes(Marked(ContinuationHead(next.stream), n == |next.left|), next.left[..n]))
  {
    hide IsFrame, IsEndHeaders, Stream, FrameBytes, Marked, WithinLimits, Concat;
    var k := |ws| - 1;
    var w := ws[k];
    var w' := w.(pieces := w.pieces + [next.left[..n]], limits := w.limits + [limit]);
    assert ws == ws[..k] + [w];
    StreamGrow(ws[..k], w, next.left[..n], limit, n != |next.left|);
    PieceAdded(w, next.left, n, limit);
    assert (ws[..k] + [w'])[..k] == ws[..k];
  }

  class FramedWrite {
    const hpack: HpackEncoder.Encoder
    var buf: Bytes
    var pos: nat
    var next: Option<Next>
    var lastDataFrame: Option<DataFrame>
    var maxFrameSize: nat
    /** The socket: its answers to come, and what it has taken. */
    var attempts: seq<Attempt>
    var sent: Bytes
    /** Every frame buffered, in order. */
    ghost var wires: seq<Wire>

    ghost predicate Valid()
      reads this, hpack, hpack.table
    {
      && hpack.Valid() && WritesOk()
    }

    ghost predicate WritesOk()
      reads this
    {
      && pos <= |buf| && maxFrameSize <= MAX_MAX_FRAME_SIZE
      && WiresOk(wires, next) && Accounted(wires, next, sent, buf[pos..])
      && (next.Some? && next.value.NextData? && pos < |buf| ==> next.value.data.payload != [])
    }

    constructor (hpack: HpackEncoder.Encoder, attempts: seq<Attempt>)
      requires hpack.Valid()
      ensures Valid() && wires == [] && sent == [] && this.hpack == hpack && this.attempts == attempts
      ensures maxFrameSize == DEFAULT_MAX_FRAME_SIZE
    {
      this.hpack, this.attempts, sent, wires := hpack, attempts, [], [];
      buf, pos, next, lastDataFrame, maxFrameSize := [], 0, None, None, DEFAULT_MAX_FRAME_SIZE;
    }

    predicate HasCapacity()
      reads this`next, this`buf
    {
      next.None? && C.WORD - 1 - |buf| >= MIN_BUFFER_CAPACITY
    }

    /** What the socket has not taken yet, a block's rest aside. */
    ghost function Waiting(): (b: Bytes)
      requires pos <= |buf|
      reads this`buf, this`pos, this`next
    {
      buf[pos..] + PayloadOf(next)
    }

    predicate IsEmpty()
      reads this`next, this`buf, this`pos
    {
      if next.Some? && next.value.NextData? then next.value.data.payload == [] else pos >= |buf|
    }

    method SetMaxFrameSize(val: nat)
      requires Valid() && val <= MAX_MAX_FRAME_SIZE
      modifies this`maxFrameSize
      ensures Valid() && maxFrameSize == val
    {
      hide WiresOk, Accounted;
      maxFrameSize := val;
    }

    /** The table limit the peer announced. */
    method SetHeaderTableSize(val: nat)
      requires Valid() && val < C.WORD
      modifies hpack
      ensures Valid() && hpack.Abstract() == E.UpdateMaxSize(old(hpack.Abstract()), val)
    {
      hpack.QueueMaxSize(val);
    }

    /** A DATA frame: a large payload is chained behind its head instead of copied. */
    method BufferData(d: DataFrame) returns (ok: bool)
      requires WritesOk() && next.None?
      modifies this`buf, this`next, this`lastDataFrame, this`wires
      ensures WritesOk()
      ensures ok <==> |d.payload| <= maxFrameSize
      ensures ok ==> wires == old(wires) + [Plain(FrameBytes(DataHead(d), d.payload))]
      ensures !ok ==> wires == old(wires) && buf == old(buf) && next == old(next)
    {
      hide WiresOk, Accounted, IsFrame, HeadBytes;
      var len := |d.payload|;
      if len > maxFrameSize {
        return false;
      }
      ghost var waiting := buf[pos..];
      var head := HeadBytes(DataHead(d), len);
      if len >= CHAIN_THRESHOLD {
        DataChained(wires, sent, waiting, d);
        buf, next := buf + head, Some(NextData(d));
        assert buf[pos..] == waiting + head;
      } else {
        FrameIsFrame(DataHead(d), d.payload);
        PlainPushed(wires, sent, waiting, FrameBytes(DataHead(d), d.payload));
        buf, lastDataFrame := buf + (head + d.payload), Some(d.(payload := []));
        assert buf[pos..] == waiting + FrameBytes(DataHead(d), d.payload);
      }
      wires := wires + [Plain(FrameBytes(DataHead(d), d.payload))];
      return true;
    }

    /** A HEADERS or PUSH_PROMISE frame: what does not fit is left for CONTINUATION frames. */
    method BufferBlock(f: BlockFrame) returns (ghost w: Wire)
      requires Valid() && next.None? && IsEndHeaders(f.flags) && IsMap(f.block.fields) && |Extra(f)| <= maxFrameSize
      modifies this`buf, this`next, this`wires, hpack, hpack.table
      ensures Valid()
      ensures wires == old(wires) + [w] && w.Block? && w.head == FrameHead(f) && w.extra == Extra(f)
      ensures RoomFor(maxFrameSize, f) ==> Opened(w)
      ensures E.WellFormed(Items(f.block), false)
      ensures (w.block, hpack.Abstract()) == E.EncodeBlock(hpack.huffman, old(hpack.Abstract()), Items(f.block))
    {
      hide WiresOk, Accounted, E.EncodeBlock, Items, HeaderList, FrameBytes, IsEndHeaders, Marked, Extra,
           HpackEncoder.Encoder.Valid;
      ReportedItems(f.block);
      var block := hpack.Encode(Items(f.block), []);
      assert block == E.EncodeBlock(hpack.huffman, old(hpack.Abstract()), Items(f.block)).0;
      ghost var waiting := buf[pos..];
      ghost var n := Fits(block, maxFrameSize - |Extra(f)|);
      BlockPushed(wires, sent, waiting, FrameHead(f), Extra(f), block, n, maxFrameSize);
      var left;
      ghost var before := buf;
      buf, left := EncodeFragment(buf, FrameHead(f), Extra(f), block, maxFrameSize);
      assert buf[pos..] == waiting + buf[|before|..];
      if left.Some? {
        next := Some(NextContinuation(f.stream, left.value));
      }
      w := FirstWire(FrameHead(f), Extra(f), block, n, maxFrameSize);
      wires := wires + [w];
    }

    /** Buffers a frame behind all others.  A DATA frame that is too large is refused and changes nothing. */
    method Buffer(item: Item) returns (ok: bool)
      requires Valid() && HasCapacity()
      requires item.BlockItem? ==> IsEndHeaders(item.frame.flags) && IsMap(item.frame.block.fields)
      requires item.BlockItem? ==> |Extra(item.frame)| <= maxFrameSize
      requires item.PlainItem? ==> IsFrame(item.bytes)
      modifies this`buf, this`next, this`lastDataFrame, this`wires, hpack, hpack.table
      ensures Valid()
      ensures ok <==> (item.DataItem? ==> |item.data.payload| <= maxFrameSize)
      ensures !ok ==> wires == old(wires) && buf == old(buf) && next == old(next)
      ensures ok ==> |wires| == |old(wires)| + 1 && old(wires) == wires[..|old(wires)|]
      ensures ok ==> WireFor(item, wires[|old(wires)|], hpack.huffman, old(hpack.Abstract()))
      ensures ok && (item.BlockItem? ==> RoomFor(maxFrameSize, item.frame)) ==> Opened(wires[|old(wires)|])
      ensures item.BlockItem? ==> E.WellFormed(Items(item.frame.block), false)
      ensures item.BlockItem? ==>
                hpack.Abstract() == E.EncodeBlock(hpack.huffman, old(hpack.Abstract()), Items(item.frame.block)).1
      ensures !item.BlockItem? ==> hpack.Abstract() == old(hpack.Abstract())
    {
      hide WiresOk, Accounted, E.EncodeBlock, Items, FrameBytes, IsEndHeaders, Extra, IsFrame, IsMap,
           HpackEncoder.Encoder.Valid, E.WellFormed;
      match item
      case DataItem(d) =>
        ok := BufferData(d);
      case BlockItem(f) =>
        ghost var w := BufferBlock(f);
        ok := true;
      case PlainItem(bytes) =>
        ghost var waiting := buf[pos..];
        PlainPushed(wires, sent, waiting, bytes);
        buf, wires, ok := buf + bytes, wires + [Plain(bytes)], true;
        assert buf[pos..] == waiting + bytes;
    }

    /** The socket takes `n` octets, or all there are: the buffer first, then the chained payload. */
    method HandOver(n: nat)
      requires WritesOk()
      modifies this`sent, this`pos, this`next
      ensures WritesOk()
      ensures Unfinished(next) == old(Unfinished(next)) && LeftOf(next) == old(LeftOf(next))
              && next.None? == old(next.None?)
      ensures var k := if n <= |old(Waiting())| then n else |old(Waiting())|;
              sent == old(sent) + old(Waiting())[..k] && Waiting() == old(Waiting())[k..]
    {
      hide WiresOk, Accounted, Stream, Drop, PayloadOf, LeftOf, Unfinished;
      var waiting, payload := buf[pos..], PayloadOf(next);
      var k := if n <= |waiting| then n else |waiting|;
      var j := if n - k <= |payload| then n - k else |payload|;
      Moves(wires, next, sent, waiting, k, j);
      Dropped(next, j);
      sent := sent + (waiting[..k] + payload[..j]);
      pos := pos + k;
      assert buf[pos..] == waiting[k..];
      next := Drop(next, j);
    }

    /** One attempt to write. */
    method WriteSome() returns (r: Flushed)
      requires WritesOk()
      modifies this`attempts, this`sent, this`pos, this`next
      ensures WritesOk()
      ensures Unfinished(next) == old(Unfinished(next)) && LeftOf(next) == old(LeftOf(next))
              && next.None? == old(next.None?)
      ensures r == Verdict(Reply(old(attempts))) && attempts == Rest(old(attempts))
      ensures var n := Size(Reply(old(attempts)));
              var k := if n <= |old(Waiting())| then n else |old(Waiting())|;
              sent == old(sent) + old(Waiting())[..k] && Waiting() == old(Waiting())[k..]
    {
      hide WiresOk, Accounted, Stream, PayloadOf, LeftOf, Unfinished;
      var attempt := Reply(attempts);
      attempts := Rest(attempts);
      match attempt
      case NotNow => return Pending;
      case Broke => return Failed;
      case Took(n) =>
        HandOver(n);
        return Flushed;
    }

    /** The next CONTINUATION of an unfinished block goes into the empty buffer. */
    method ContinueBlock()
      requires WritesOk() && buf == [] && Unfinished(next)
      modifies this`buf, this`next, this`wires
      ensures WritesOk() && Extended(old(wires), wires) && !IsEmpty()
      ensures maxFrameSize > 0 ==> |LeftOf(next)| < |old(LeftOf(next))|
    {
      hide Accounted, Stream, WireOk, FrameBytes, IsEndHeaders, Marked, Grown;
      var stream, hpackLeft := next.value.stream, next.value.left;
      ghost var n, k := Fits(hpackLeft, maxFrameSize), |wires| - 1;
      assert buf[pos..] == [];
      BlockContinued(wires, next.value, sent, n, maxFrameSize);
      var left;
      buf, left := EncodeFragment([], ContinuationHead(stream), [], hpackLeft, maxFrameSize);
      FrameLength(Marked(ContinuationHead(stream), left.None?), hpackLeft[..n]);
      assert [] + hpackLeft[..n] == hpackLeft[..n];
      next := if left.Some? then Some(NextContinuation(stream, left.value)) else None;
      wires := wires[..k] + [wires[k].(pieces := wires[k].pieces + [hpackLeft[..n]],
                                       limits := wires[k].limits + [maxFrameSize])];
      assert buf[pos..] == buf;
    }

    /** Clears what has been written; a block that is not finished puts its next frame in the buffer. */
    method UnsetFrame() returns (more: bool)
      requires WritesOk() && IsEmpty()
      modifies this`buf, this`pos, this`next, this`lastDataFrame, this`wires
      ensures WritesOk() && Extended(old(wires), wires)
      ensures more <==> old(Unfinished(next))
      ensures more ==> !IsEmpty() && (maxFrameSize > 0 ==> |LeftOf(next)| < |old(LeftOf(next))|)
      ensures !more ==> next.None? && buf == [] && wires == old(wires)
    {
      hide Stream, WireOk, Extended;
      ExtendedSame(wires);
      assert buf[pos..] == [];
      buf, pos := [], 0;
      if next.None? {
        return false;
      }
      match next.value
      case NextData(d) =>
        lastDataFrame, next, more := Some(d), None, false;
      case NextContinuation(_, _) =>
        ContinueBlock();
        more := true;
    }

    /** Writes until nothing is buffered or chained, or the socket refuses. */
    method WriteAll() returns (r: Flushed)
      requires WritesOk()
      modifies this`attempts, this`sent, this`pos, this`next
      ensures WritesOk() && old(sent) <= sent
      ensures Unfinished(next) == old(Unfinished(next)) && LeftOf(next) == old(LeftOf(next))
      ensures Tells(old(attempts), attempts, r) && |attempts| <= |old(attempts)|
      ensures Grew(|old(sent)|, |old(Waiting())|, |sent|, Used(old(attempts), attempts))
      ensures |sent| + |Waiting()| == |old(sent)| + |old(Waiting())|
      ensures r.Flushed? ==> IsEmpty() && (!old(IsEmpty()) ==> |attempts| < |old(attempts)|)
    {
      hide WiresOk, Accounted, Stream, Tells, Total, Used;
      TellsSame(attempts);
      while !IsEmpty()
        invariant WritesOk() && old(sent) <= sent
        invariant Unfinished(next) == old(Unfinished(next)) && LeftOf(next) == old(LeftOf(next))
        invariant Tells(old(attempts), attempts, Flushed)
        invariant Grew(|old(sent)|, |old(Waiting())|, |sent|, Used(old(attempts), attempts))
        invariant |sent| + |Waiting()| == |old(sent)| + |old(Waiting())|
        invariant |attempts| < |old(attempts)| || (attempts == old(attempts) && IsEmpty() == old(IsEmpty()))
        decreases |attempts|
      {
        ghost var before := attempts;
        TellsOne(attempts);
        r := WriteSome();
        TellsTwice(old(attempts), before, attempts, r);
        if !r.Flushed? {
          return;
        }
      }
      r := Flushed;
    }

    /** Writes what is buffered, chained and still to be continued, as far as the socket goes. */
    method Flush() returns (r: Flushed)
      requires WritesOk()
      modifies this`attempts, this`sent, this`buf, this`pos, this`next, this`lastDataFrame, this`wires
      ensures WritesOk() && Extended(old(wires), wires) && old(sent) <= sent <= Stream(wires, Unfinished(next))
      ensures Tells(old(attempts), attempts, r)
      ensures Grew(|old(sent)|, |old(Waiting())|, |sent|, Used(old(attempts), attempts))
      ensures r.Flushed? ==> next.None? && buf == [] && AllWritten(wires) && sent == Stream(wires, false)
    {
      hide WiresOk, Accounted, Stream, Extended, Tells, Total, Used, AllWritten;
      ExtendedSame(wires);
      TellsSame(attempts);
      while true
        invariant WritesOk() && Extended(old(wires), wires) && old(sent) <= sent
        invariant Tells(old(attempts), attempts, Flushed)
        invariant Grew(|old(sent)|, |old(Waiting())|, |sent|, Used(old(attempts), attempts))
        invariant |old(sent)| + |old(Waiting())| <= |sent| + |Waiting()|
        decreases |attempts|, if IsEmpty() then 1 else 0
      {
        ghost var before, ws := attempts, wires;
        r := WriteAll();
        TellsTwice(old(attempts), before, attempts, r);
        if !r.Flushed? {
          SentIsPrefix(wires, next, sent, buf[pos..]);
          return;
        }
        var more := UnsetFrame();
        ExtendedTwice(old(wires), ws, wires);
        if !more {
          break;
        }
      }
      SentIsPrefix(wires, next, sent, buf[pos..]);
      AllSent(wires, sent);
      TellsOne(attempts);
      ghost var before := attempts;
      r, attempts := Verdict(Reply(attempts)), Rest(attempts);
      TellsTwice(old(attempts), before, attempts, r);
    }

    /** Whether a frame may be buffered, flushing first if it may not. */
    method PollReady() returns (r: Flushed)
      requires WritesOk()
      modifies this`attempts, this`sent, this`buf, this`pos, this`next, this`lastDataFrame, this`wires
      ensures WritesOk() && Extended(old(wires), wires) && old(sent) <= sent
      ensures r.Flushed? ==> HasCapacity()
      ensures Tells(old(attempts), attempts, r)
      ensures var waiting := if old(HasCapacity()) then 0 else |old(Waiting())|;
              Grew(|old(sent)|, waiting, |sent|, Used(old(attempts), attempts))
      ensures old(HasCapacity()) ==>
                r.Flushed? && attempts == old(attempts) && wires == old(wires) && Waiting() == old(Waiting())
    {
      hide WiresOk, Accounted, Stream, Tells, Total;
      ExtendedSame(wires);
      TellsSame(attempts);
      if !HasCapacity() {
        r := Flush();
        if !r.Flushed? {
          return;
        }
        if !HasCapacity() {
          return Pending;
        }
      }
      return Flushed;
    }
  }

  lemma FrameLength(h: Head, payload: Bytes)
    ensures |FrameBytes(h, payload)| == HEADER_LEN + |payload|
  {
  }

  lemma ExtendedSame(ws: seq<Wire>)
    ensures Extended(ws, ws)
  {
  }

  lemma ExtendedTwice(a: seq<Wire>, b: seq<Wire>, c: seq<Wire>)
    requires Extended(a, b) && Extended(b, c)
    ensures Extended(a, c)
  {
  }

  /** The socket has only ever been given a prefix of the stream. */
  lemma SentIsPrefix(ws: seq<Wire>, next: Option<Next>, sent: Bytes, waiting: Bytes)
    requires WiresOk(ws, next) && Accounted(ws, next, sent, waiting)
    ensures sent <= Stream(ws, Unfinished(next))
  {
  }

  /** With nothing left to write, everything has been sent. */
  lemma AllSent(ws: seq<Wire>, sent: Bytes)
    requires WiresOk(ws, None) && Accounted(ws, None, sent, [])
    ensures AllWritten(ws) && sent == Stream(ws, false)
  {
    hide WireOk, Stream;
    assert sent + [] + [] == sent;
  }

  /** What a buffered frame puts on the wire. */
  ghost predicate WireFor(item: Item, w: Wire, huffman: S.Huffman, enc: E.State) {
    match item
    case DataItem(d) => w == Plain(FrameBytes(DataHead(d), d.payload))
    case PlainItem(bytes) => w == Plain(bytes)
    case BlockItem(f) =>
      && w.Block? && w.head == FrameHead(f) && w.extra == Extra(f)
      && E.WellFormed(Items(f.block), false) && w.block == E.EncodeBlock(huffman, enc, Items(f.block)).0
  }

  /** The payload with its first octets gone. */
  function Drop(next: Option<Next>, j: nat): (r: Option<Next>)
    requires j <= |PayloadOf(next)|
  {
    if next.Some? && next.value.NextData? then Some(NextData(next.value.data.(payload := next.value.data.payload[j..])))
    else next
  }

  lemma Dropped(next: Option<Next>, j: nat)
    requires j <= |PayloadOf(next)|
    ensures var next' := Drop(next, j);
            && PayloadOf(next') == PayloadOf(next)[j..] && LeftOf(next') == LeftOf(next)
            && Unfinished(next') == Unfinished(next) && next'.None? == next.None?
            && (next'.Some? && next'.value.NextData? ==>
                  && next.Some? && next.value.NextData? && PayloadOf(next) == next.value.data.payload
                  && next'.value.data.payload == next.value.data.payload[j..])
  {
  }

  lemma Moves(ws: seq<Wire>, next: Option<Next>, sent: Bytes, waiting: Bytes, k: nat, j: nat)
    requires WiresOk(ws, next) && Accounted(ws, next, sent, waiting)
    requires k <= |waiting| && j <= |PayloadOf(next)| && (j > 0 ==> k == |waiting|)
    ensures var payload := PayloadOf(next);
            && WiresOk(ws, Drop(next, j))
            && Accounted(ws, Drop(next, j), sent + (waiting[..k] + payload[..j]), waiting[k..])
            && waiting[..k] + payload[..j] == (waiting + payload)[..k + j]
            && waiting[k..] + payload[j..] == (waiting + payload)[k + j..]
  {
    hide Stream, WireOk;
    var payload := PayloadOf(next);
    assert sent + waiting + payload == (sent + (waiting[..k] + payload[..j])) + waiting[k..] + payload[j..];
  }
}

/** A whole run of a connection in one direction, with limits changing on the way. */
module H2Run {
  import opened Wrappers
  import opened Octets
  import E = HpackEncode
  import L = HpackLockstep
  import C = TableChains
  import opened H2Head
  import opened H2HeaderBlock
  import opened H2Read
  import opened H2ReadBack
  import opened H2Reader
  import opened H2Wire
  import opened H2Writer
  import opened H2Pipe

  /** A frame is buffered, or a limit changes: of the encoder's table, the decoder's table, or the size of frames. */
  datatype Step = Put(item: Item) | NewLimit(size: nat) | Allow(size: nat) | FrameSize(size: nat)

  /** How sending a run ends; `Stuck` when the socket would not go on. */
  datatype Sending = Complete | Stuck(why: Flushed) | TooLarge

  ghost predicate StepOk(c: Config, l: L.Link, s: Step) {
    match s
    case Put(item) => ItemOk(c, l, item) && (item.PlainItem? ==> IsFrame(item.bytes))
    case NewLimit(v) => v < C.WORD
    case Allow(_) => true
    case FrameSize(v) => v <= MAX_MAX_FRAME_SIZE
  }

  ghost function StepAfter(c: Config, l: L.Link, s: Step): (l': L.Link) {
    match s
    case Put(item) => if ItemOk(c, l, item) then After(c, l, item) else l
    case NewLimit(v) => l.(enc := E.UpdateMaxSize(l.enc, v))
    case Allow(v) => l.(queued := L.QueueSizeUpdate(l.queued, v))
    case FrameSize(_) => l
  }

  ghost function LinkAfter(c: Config, l: L.Link, steps: seq<Step>): (l': L.Link) {
    if steps == [] then l else StepAfter(c, LinkAfter(c, l, steps[..|steps| - 1]), steps[|steps| - 1])
  }

  /** Every step may be taken when it comes. */
  ghost predicate Runs(c: Config, l: L.Link, steps: seq<Step>) {
    forall i :: 0 <= i < |steps| ==> StepOk(c, LinkAfter(c, l, steps[..i]), steps[i])
  }

  function Puts(steps: seq<Step>): (items: seq<Item>) {
    if steps == [] then []
    else Puts(steps[..|steps| - 1]) + (if steps[|steps| - 1].Put? then [steps[|steps| - 1].item] else [])
  }

  /** The limit on frames in force after these steps. */
  function SizeAfter(size: nat, steps: seq<Step>): (n: nat) {
    if steps == [] then size
    else if steps[|steps| - 1].FrameSize? then steps[|steps| - 1].size
    else SizeAfter(size, steps[..|steps| - 1])
  }

  /** A header block put can be opened by a frame of this size. */
  predicate Room(size: nat, s: Step) {
    s.Put? && s.item.BlockItem? ==> RoomFor(size, s.item.frame)
  }

  ghost predicate Roomy(size: nat, steps: seq<Step>) {
    forall i :: 0 <= i < |steps| ==> Room(SizeAfter(size, steps[..i]), steps[i])
  }

  /** A DATA frame the writer will refuse. */
  predicate Refused(size: nat, s: Step) {
    s.Put? && s.item.DataItem? && |s.item.data.payload| > size
  }

  ghost predicate SomeRefused(size: nat, steps: seq<Step>) {
    exists i :: 0 <= i < |steps| && Refused(SizeAfter(size, steps[..i]), steps[i])
  }

  /** The wires are those of the items put, one after the other. */
  ghost predicate Carry(c: Config, l: L.Link, steps: seq<Step>, ws: seq<Wire>) {
    if steps == [] then ws == []
    else
      var k := |steps| - 1;
      if !steps[k].Put? then Carry(c, l, steps[..k], ws)
      else
        && ws != [] && Carry(c, l, steps[..k], ws[..|ws| - 1])
        && WireFor(steps[k].item, ws[|ws| - 1], c.env.huffman, LinkAfter(c, l, steps[..k]).enc) && Opened(ws[|ws| - 1])
  }

  ghost predicate Arrived(fs: seq<Frame>, items: seq<Item>) {
    && |fs| == |items|
    && forall i :: 0 <= i < |items| ==> Shown(items[i]) && fs[i] == AsRead(items[i])
  }

  // ----- steps -----

  lemma Snoc(c: Config, l: L.Link, steps: seq<Step>, i: nat)
    requires i < |steps| && Runs(c, l, steps)
    ensures LinkAfter(c, l, steps[..i + 1]) == StepAfter(c, LinkAfter(c, l, steps[..i]), steps[i])
    ensures Puts(steps[..i + 1]) == Puts(steps[..i]) + (if steps[i].Put? then [steps[i].item] else [])
    ensures StepOk(c, LinkAfter(c, l, steps[..i]), steps[i])
  {
    hide StepAfter, StepOk;
    assert steps[..i + 1][..i] == steps[..i];
  }

  lemma {:induction false} CarryCount(c: Config, l: L.Link, steps: seq<Step>, ws: seq<Wire>)
    requires Carry(c, l, steps, ws)
    ensures |ws| == |Puts(steps)|
  {
    hide WireFor;
    if steps != [] {
      var k := |steps| - 1;
      CarryCount(c, l, steps[..k], if steps[k].Put? then ws[..|ws| - 1] else ws);
    }
  }

  /** Wires may grow without carrying anything else. */
  lemma {:induction false} CarryExtended(c: Config, l: L.Link, steps: seq<Step>, ws: seq<Wire>, ws': seq<Wire>)
    requires Carry(c, l, steps, ws) && Extended(ws, ws')
    ensures Carry(c, l, steps, ws')
    decreases |steps|
  {
    hide Grown, WireFor;
    if steps != [] {
      var k := |steps| - 1;
      if steps[k].Put? {
        assert ws[..|ws| - 1] == ws'[..|ws| - 1];
        GrownCarries(steps[k].item, ws[|ws| - 1], ws'[|ws| - 1], c, LinkAfter(c, l, steps[..k]));
      } else {
        CarryExtended(c, l, steps[..k], ws, ws');
      }
    }
  }

  lemma GrownCarries(item: Item, w: Wire, w': Wire, c: Config, l: L.Link)
    requires WireFor(item, w, c.env.huffman, l.enc) && Grown(w, w') && Opened(w)
    ensures WireFor(item, w', c.env.huffman, l.enc) && Opened(w')
  {
    hide E.EncodeBlock, E.WellFormed;
  }

  lemma CarryPush(c: Config, l: L.Link, steps: seq<Step>, i: nat, ws: seq<Wire>, w: Wire)
    requires i < |steps| && Carry(c, l, steps[..i], ws) && steps[i].Put?
    requires WireFor(steps[i].item, w, c.env.huffman, LinkAfter(c, l, steps[..i]).enc) && Opened(w)
    ensures Carry(c, l, steps[..i + 1], ws + [w])
  {
    hide WireFor;
    assert steps[..i + 1][..i] == steps[..i] && (ws + [w])[..|ws|] == ws;
  }

  lemma CarrySkip(c: Config, l: L.Link, steps: seq<Step>, i: nat, ws: seq<Wire>)
    requires i < |steps| && Carry(c, l, steps[..i], ws) && !steps[i].Put?
    ensures Carry(c, l, steps[..i + 1], ws)
  {
    assert steps[..i + 1][..i] == steps[..i];
  }

  /** The part of a run that carries its first steps. */
  lemma {:induction false} CarryPrefix(c: Config, l: L.Link, steps: seq<Step>, ws: seq<Wire>, i: nat)
    requires Carry(c, l, steps, ws) && i <= |steps|
    ensures |Puts(steps[..i])| <= |ws| && Carry(c, l, steps[..i], ws[..|Puts(steps[..i])|])
    decreases |steps|
  {
    hide WireFor;
    CarryCount(c, l, steps, ws);
    if i == |steps| {
      assert steps[..i] == steps && ws[..|ws|] == ws;
    } else {
      var k := |steps| - 1;
      var ws' := if steps[k].Put? then ws[..|ws| - 1] else ws;
      CarryPrefix(c, l, steps[..k], ws', i);
      assert steps[..k][..i] == steps[..i];
      assert ws'[..|Puts(steps[..i])|] == ws[..|Puts(steps[..i])|];
    }
  }

  /** The wire of the item put at step `i`. */
  lemma CarryAt(c: Config, l: L.Link, steps: seq<Step>, ws: seq<Wire>, i: nat)
    requires Carry(c, l, steps, ws) && i < |steps| && steps[i].Put?
    ensures var k := |Puts(steps[..i])|;
            && k < |ws| && WireFor(steps[i].item, ws[k], c.env.huffman, LinkAfter(c, l, steps[..i]).enc)
            && Opened(ws[k])
  {
    hide WireFor, LinkAfter;
    var k := |Puts(steps[..i])|;
    CarryPrefix(c, l, steps, ws, i + 1);
    assert steps[..i + 1][..i] == steps[..i];
    assert ws[..k + 1][k] == ws[k];
  }

  // ----- frames -----

  lemma MarksOf(ws: seq<Wire>)
    requires AllWritten(ws)
    ensures Marks(ws)
  {
    hide IsEndHeaders, IsFrame, WithinLimits;
  }

  lemma {:induction false} AllHeads(ws: seq<Wire>)
    requires AllWritten(ws) && Marks(ws)
    ensures Heads(AllFrames(ws, false))
  {
    hide AllFrames, WireOk, IsEndHeaders;
    FramesOfAll(ws);
  }

  /** The frames of the first wires, those of the next one, and the rest. */
  lemma {:induction false} FramesSplit(ws: seq<Wire>, k: nat) returns (more: seq<Bytes>)
    requires k < |ws| && Marks(ws)
    ensures Marks(ws[..k]) && Marks(ws[..k + 1])
    ensures AllFrames(ws[..k + 1], false) == AllFrames(ws[..k], false) + WireFrames(ws[k], true)
    ensures AllFrames(ws, false) == AllFrames(ws[..k + 1], false) + more
    decreases |ws|
  {
    hide WireFrames, IsEndHeaders;
    assert ws[..k + 1][..k] == ws[..k];
    var n := |ws| - 1;
    if k == n {
      assert ws[..k + 1] == ws;
      more := [];
    } else {
      var tail := FramesSplit(ws[..n], k);
      assert ws[..n][..k + 1] == ws[..k + 1];
      more := tail + WireFrames(ws[n], true);
    }
  }

  // ----- sending -----

  lemma NotRefused(size: nat, steps: seq<Step>, i: nat)
    requires i < |steps|
    ensures SomeRefused(size, steps[..i + 1]) <==>
            SomeRefused(size, steps[..i]) || Refused(SizeAfter(size, steps[..i]), steps[i])
    ensures SomeRefused(size, steps[..i + 1]) ==> SomeRefused(size, steps)
    ensures SizeAfter(size, steps[..i + 1])
            == if steps[i].FrameSize? then steps[i].size else SizeAfter(size, steps[..i])
  {
    hide SizeAfter, Refused;
    assert forall j :: 0 <= j <= i ==> steps[..i + 1][..j] == steps[..j];
    assert forall j :: 0 <= j <= i ==> steps[..i][..j] == steps[..j];
    if SomeRefused(size, steps[..i]) {
      var j :| 0 <= j < i && Refused(SizeAfter(size, steps[..i][..j]), steps[j]);
      assert Refused(SizeAfter(size, steps[..i + 1][..j]), steps[..i + 1][j]);
    }
    if Refused(SizeAfter(size, steps[..i]), steps[i]) {
      assert Refused(SizeAfter(size, steps[..i + 1][..i]), steps[..i + 1][i]);
    }
    SizeSnoc(size, steps, i);
  }

  lemma RoomAt(size: nat, steps: seq<Step>, i: nat)
    requires Roomy(size, steps) && i < |steps|
    ensures Room(SizeAfter(size, steps[..i]), steps[i])
  {
  }

  lemma SizeSnoc(size: nat, steps: seq<Step>, i: nat)
    requires i < |steps|
    ensures SizeAfter(size, steps[..i + 1])
            == if steps[i].FrameSize? then steps[i].size else SizeAfter(size, steps[..i])
  {
    assert steps[..i + 1][..i] == steps[..i];
  }

  lemma AfterEncodes(c: Config, l: L.Link, item: Item)
    requires ItemOk(c, l, item)
    ensures item.BlockItem? ==>
              && E.WellFormed(Items(item.frame.block), false)
              && IsEndHeaders(item.frame.flags) && IsMap(item.frame.block.fields)
              && After(c, l, item).enc == E.EncodeBlock(c.env.huffman, l.enc, Items(item.frame.block)).1
    ensures !item.BlockItem? ==> After(c, l, item) == l
  {
    hide E.EncodeBlock, Items, IsEndHeaders, L.Received, IsMap, L.AllAcceptable;
  }

  /** Makes room, if need be, and buffers one frame. */
  method SendItem(w: FramedWrite, item: Item, ghost c: Config, ghost l: L.Link)
    returns (r: Sending, ghost before: seq<Wire>, ghost wire: Wire)
    requires w.Valid() && w.hpack.huffman == c.env.huffman && w.hpack.Abstract() == l.enc
    requires StepOk(c, l, Put(item)) && Room(w.maxFrameSize, Put(item))
    modifies w, w.hpack, w.hpack.table
    ensures w.Valid() && w.maxFrameSize == old(w.maxFrameSize)
    ensures Tells(old(w.attempts), w.attempts, if r.Stuck? then r.why else Flushed)
    ensures r.Stuck? ==> !r.why.Flushed?
    ensures r.TooLarge? ==> Refused(w.maxFrameSize, Put(item))
    ensures r.Complete? ==>
              && !Refused(w.maxFrameSize, Put(item))
              && Extended(old(w.wires), before) && w.wires == before + [wire]
              && WireFor(item, wire, c.env.huffman, l.enc) && Opened(wire)
              && w.hpack.Abstract() == After(c, l, item).enc
  {
    hide WiresOk, Accounted, E.EncodeBlock, Items, IsEndHeaders, IsFrame, IsMap, Extended, Tells, ItemOk, WireFor,
         After;
    before, wire := [], Plain([]);
    AfterEncodes(c, l, item);
    var ready := w.PollReady();
    if !ready.Flushed? {
      return Stuck(ready), before, wire;
    }
    before := w.wires;
    var ok := w.Buffer(item);
    if !ok {
      return TooLarge, before, wire;
    }
    wire := w.wires[|before|];
    assert w.wires == before + [wire];
    r := Complete;
  }

  /**
   Buffers a run, flushing when it must, and flushes at the end.  What the socket has then is, cut by
   its length fields, the frames of the run.
   */
  method Send(w: FramedWrite, steps: seq<Step>, ghost c: Config, ghost l: L.Link) returns (r: Sending)
    requires w.Valid() && w.wires == [] && w.hpack.huffman == c.env.huffman && w.hpack.Abstract() == l.enc
    requires Runs(c, l, steps) && Roomy(w.maxFrameSize, steps)
    modifies w, w.hpack, w.hpack.table
    ensures w.Valid()
    ensures r.Complete? ==>
              && Carry(c, l, steps, w.wires) && AllWritten(w.wires) && Marks(w.wires)
              && Frames(w.sent) == (AllFrames(w.wires, false), [])
              && w.hpack.Abstract() == LinkAfter(c, l, steps).enc
    ensures r.TooLarge? ==> SomeRefused(old(w.maxFrameSize), steps)
    ensures r.Complete? ==> !SomeRefused(old(w.maxFrameSize), steps)
    ensures Tells(old(w.attempts), w.attempts, if r.Stuck? then r.why else Flushed)
    ensures r.Stuck? ==> !r.why.Flushed?
  {
    hide WiresOk, Accounted, Extended, Tells, WireFor, After, ItemOk, Carry, LinkAfter, SizeAfter, SomeRefused, Runs,
         Roomy, Room, Opened, AllFrames, Frames, E.UpdateMaxSize, AllWritten, Marks, Puts;
    TellsSame(w.attempts);
    Begins(c, l, steps, w.maxFrameSize);
    for i := 0 to |steps|
      invariant w.Valid() && Carry(c, l, steps[..i], w.wires) && w.hpack.Abstract() == LinkAfter(c, l, steps[..i]).enc
      invariant w.maxFrameSize == SizeAfter(old(w.maxFrameSize), steps[..i])
                && !SomeRefused(old(w.maxFrameSize), steps[..i])
      invariant Tells(old(w.attempts), w.attempts, Flushed)
    {
      Snoc(c, l, steps, i);
      RoomAt(old(w.maxFrameSize), steps, i);
      NotRefused(old(w.maxFrameSize), steps, i);
      ghost var l', ws, attempts := LinkAfter(c, l, steps[..i]), w.wires, w.attempts;
      match steps[i] {
        case Put(item) =>
          ghost var before, wire;
          r, before, wire := SendItem(w, item, c, l');
          TellsTwice(old(w.attempts), attempts, w.attempts, if r.Stuck? then r.why else Flushed);
          if !r.Complete? {
            return;
          }
          CarryExtended(c, l, steps[..i], ws, before);
          CarryPush(c, l, steps, i, before, wire);
        case NewLimit(v) =>
          w.SetHeaderTableSize(v);
          CarrySkip(c, l, steps, i, ws);
        case Allow(_) =>
          CarrySkip(c, l, steps, i, ws);
        case FrameSize(v) =>
          w.SetMaxFrameSize(v);
          CarrySkip(c, l, steps, i, ws);
      }
    }
    assert steps[..|steps|] == steps;
    ghost var ws, attempts := w.wires, w.attempts;
    var flushed := w.Flush();
    TellsTwice(old(w.attempts), attempts, w.attempts, flushed);
    if !flushed.Flushed? {
      return Stuck(flushed);
    }
    CarryExtended(c, l, steps, ws, w.wires);
    MarksOf(w.wires);
    StreamCutsBack(w.wires);
    r := Complete;
  }

  lemma Begins(c: Config, l: L.Link, steps: seq<Step>, size: nat)
    ensures Carry(c, l, steps[..0], []) && LinkAfter(c, l, steps[..0]) == l && Puts(steps[..0]) == []
    ensures SizeAfter(size, steps[..0]) == size && !SomeRefused(size, steps[..0])
  {
  }

  // ----- receiving -----

  /** What is left to read after the first wires. */
  ghost predicate Behind(ws: seq<Wire>, k: nat, left: seq<Bytes>)
    requires Marks(ws)
  {
    k <= |ws| && Marks(ws[..k]) && AllFrames(ws, false) == AllFrames(ws[..k], false) + left && Heads(left)
  }

  lemma BehindAll(ws: seq<Wire>, left: seq<Bytes>)
    requires Marks(ws) && Behind(ws, |ws|, left)
    ensures left == []
  {
    hide AllFrames;
    assert ws[..|ws|] == ws;
  }

  lemma BehindNone(ws: seq<Wire>)
    requires AllWritten(ws) && Marks(ws)
    ensures Behind(ws, 0, AllFrames(ws, false))
  {
    hide WireOk, WireFrames, Heads;
    AllHeads(ws);
    assert ws[..0] == [];
  }

  lemma BehindNext(ws: seq<Wire>, k: nat, left: seq<Bytes>) returns (more: seq<Bytes>)
    requires Marks(ws) && Behind(ws, k, left) && k < |ws|
    ensures left == WireFrames(ws[k], true) + more && Behind(ws, k + 1, more) && Heads(more)
  {
    hide AllFrames, WireFrames;
    more := FramesSplit(ws, k);
    var done, next := AllFrames(ws[..k], false), WireFrames(ws[k], true);
    assert done + left == done + (next + more);
    Cancel(done, left, next + more);
    assert forall i :: 0 <= i < |more| ==> more[i] == left[|next| + i];
  }

  lemma Cancel<T>(a: seq<T>, b: seq<T>, c: seq<T>)
    requires a + b == a + c
    ensures b == c
  {
    assert b == (a + b)[|a|..] && c == (a + c)[|a|..];
  }

  /** One item comes out of the reader as it was put. */
  lemma ReadPut(c: Config, l: L.Link, steps: seq<Step>, ws: seq<Wire>, i: nat,
                left: seq<Bytes>) returns (more: seq<Bytes>)
    requires L.Assumed(c.env) && Runs(c, l, steps) && Carry(c, l, steps, ws) && AllWritten(ws) && Marks(ws)
    requires i < |steps| && steps[i].Put? && L.InSync(LinkAfter(c, l, steps[..i]))
             && Behind(ws, |Puts(steps[..i])|, left)
    ensures var l' := LinkAfter(c, l, steps[..i + 1]);
            && L.InSync(l') && Behind(ws, |Puts(steps[..i + 1])|, more) && Heads(left)
            && Shown(steps[i].item)
            && NextFrame(c, At(LinkAfter(c, l, steps[..i])), left) == (At(l'), Some(Ok(AsRead(steps[i].item))), more)
  {
    hide Carry, LinkAfter, Runs, Puts, WireFor, WireOk, WireFrames, ItemOk, After, L.InSync, L.Assumed, NextFrame,
         Behind, IsEndHeaders, IsFrame;
    Snoc(c, l, steps, i);
    CarryAt(c, l, steps, ws, i);
    var k := |Puts(steps[..i])|;
    more := BehindNext(ws, k, left);
    NextWire(c, LinkAfter(c, l, steps[..i]), steps[i].item, ws[k], more);
  }

  lemma LimitKeepsSync(c: Config, l: L.Link, s: Step)
    requires L.InSync(l) && !s.Put?
    ensures L.InSync(StepAfter(c, l, s))
    ensures At(StepAfter(c, l, s))
            == if s.Allow? then Reader(l.dec, L.QueueSizeUpdate(l.queued, s.size), None) else At(l)
  {
    hide L.Sound;
  }

  /** Reads a run; the decoder's limits change where they did when it was sent. */
  method Receive(r: FramedRead, steps: seq<Step>, frames: seq<Bytes>, ghost l: L.Link, ghost ws: seq<Wire>)
    returns (got: seq<Frame>, left: seq<Bytes>)
    requires r.Valid() && L.Assumed(r.hpack.env) && L.InSync(l) && r.Abstract() == At(l)
    requires Runs(r.Configured(), l, steps) && Carry(r.Configured(), l, steps, ws)
    requires AllWritten(ws) && Marks(ws) && frames == AllFrames(ws, false)
    modifies r`partial, r.hpack, r.hpack.table
    ensures r.Valid() && r.Configured() == old(r.Configured())
    ensures Arrived(got, Puts(steps)) && left == []
    ensures L.InSync(LinkAfter(r.Configured(), l, steps)) && r.Abstract() == At(LinkAfter(r.Configured(), l, steps))
  {
    hide Carry, LinkAfter, Runs, Puts, AllWritten, Marks, ItemOk, L.InSync, L.Assumed, NextFrame, Behind, AllFrames,
         AsRead, Shown, StepAfter;
    ghost var c := r.Configured();
    Begins(c, l, steps, 0);
    BehindNone(ws);
    got, left := [], frames;
    for i := 0 to |steps|
      invariant r.Valid() && r.Configured() == c && Behind(ws, |Puts(steps[..i])|, left)
                && Arrived(got, Puts(steps[..i]))
      invariant L.InSync(LinkAfter(c, l, steps[..i])) && r.Abstract() == At(LinkAfter(c, l, steps[..i]))
    {
      Snoc(c, l, steps, i);
      match steps[i] {
        case Put(_) =>
          ghost var more := ReadPut(c, l, steps, ws, i, left);
          var a;
          a, left := r.PollNext(left);
          got := got + [a.value.value];
        case Allow(v) =>
          LimitKeepsSync(c, LinkAfter(c, l, steps[..i]), steps[i]);
          r.hpack.QueueSizeUpdate(v);
        case _ =>
          LimitKeepsSync(c, LinkAfter(c, l, steps[..i]), steps[i]);
      }
    }
    assert steps[..|steps|] == steps;
    CarryCount(c, l, steps, ws);
    BehindAll(ws, left);
  }

  /**
   From one end to the other: when the writer has got everything out, the reader, cutting the octets and
   reading the frames, gives every item back, once, in order, and the two tables agree.
   */
  method Transfer(w: FramedWrite, r: FramedRead, steps: seq<Step>) returns (sending: Sending, got: seq<Frame>)
    requires w.Valid() && w.wires == [] && r.Valid() && r.partial.None? && w.hpack.huffman == r.hpack.env.huffman
    requires L.Assumed(r.hpack.env) && L.InSync(Between(w, r)) && Runs(r.Configured(), Between(w, r), steps)
    requires Roomy(w.maxFrameSize, steps)
    modifies w, w.hpack, w.hpack.table, r`partial, r.hpack, r.hpack.table
    ensures w.Valid() && r.Valid()
    ensures Tells(old(w.attempts), w.attempts, if sending.Stuck? then sending.why else Flushed)
    ensures sending.Stuck? ==> !sending.why.Flushed?
    ensures sending.TooLarge? ==> SomeRefused(old(w.maxFrameSize), steps)
    ensures sending.Complete? ==>
              && !SomeRefused(old(w.maxFrameSize), steps)
              && Arrived(got, Puts(steps))
              && L.InSync(Between(w, r)) && Between(w, r) == LinkAfter(old(r.Configured()), old(Between(w, r)), steps)
    ensures !sending.Complete? ==> got == []
  {
    hide Carry, LinkAfter, Runs, Roomy, Puts, AllWritten, Marks, L.InSync, L.Assumed, AllFrames, Tells, SomeRefused,
         Frames, Arrived;
    ghost var c, l := r.Configured(), Between(w, r);
    got := [];
    sending := Send(w, steps, c, l);
    if sending.Complete? {
      var left;
      got, left := Receive(r, steps, Frames(w.sent).0, l, w.wires);
    }
  }

  ghost function Between(w: FramedWrite, r: FramedRead): (l: L.Link)
    reads w, w.hpack, w.hpack.table, r, r.hpack, r.hpack.table
  {
    L.Link(w.hpack.Abstract(), r.hpack.Abstract(), r.hpack.maxSizeUpdate)
  }

  // ----- the same of frames alone -----

  lemma RunsInit(c: Config, l: L.Link, steps: seq<Step>)
    requires steps != [] && Runs(c, l, steps)
    ensures Runs(c, l, steps[..|steps| - 1])
    ensures StepOk(c, LinkAfter(c, l, steps[..|steps| - 1]), steps[|steps| - 1])
  {
    hide LinkAfter, StepOk;
    var init := steps[..|steps| - 1];
    assert forall i :: 0 <= i < |init| ==> init[..i] == steps[..i] && init[i] == steps[i];
  }

  lemma WrittenInit(ws: seq<Wire>)
    requires ws != [] && AllWritten(ws) && Marks(ws)
    ensures AllWritten(ws[..|ws| - 1]) && Marks(ws[..|ws| - 1]) && WireOk(ws[|ws| - 1], [])
  {
    hide WireOk, IsEndHeaders;
  }

  /** One more wire, read after the others. */
  lemma ReadOneMore(c: Config, l: L.Link, l': L.Link, item: Item, ws: seq<Wire>, items: seq<Item>)
    requires L.Assumed(c.env) && L.InSync(l') && ItemOk(c, l', item) && ws != [] && Marks(ws) && Marks(ws[..|ws| - 1])
    requires WireFor(item, ws[|ws| - 1], c.env.huffman, l'.enc) && WireOk(ws[|ws| - 1], []) && Opened(ws[|ws| - 1])
    requires var fs := AllFrames(ws[..|ws| - 1], false);
             Heads(fs) && ReadAll(c, At(l), fs).0 == At(l')
             && AllOk(ReadAll(c, At(l), fs).1) && Arrived(Arrivals(ReadAll(c, At(l), fs).1), items)
    ensures Heads(AllFrames(ws, false)) && L.InSync(After(c, l', item))
    ensures var a := ReadAll(c, At(l), AllFrames(ws, false));
            a.0 == At(After(c, l', item)) && AllOk(a.1) && Arrived(Arrivals(a.1), items + [item])
  {
    hide L.InSync, L.Assumed, ItemOk, WireFor, WireOk, ReadAll, WireFrames, After, PlainBytes, IsEndHeaders, AsRead,
         Shown;
    var fs, more := AllFrames(ws[..|ws| - 1], false), WireFrames(ws[|ws| - 1], true);
    ReadWire(c, l', item, ws[|ws| - 1]);
    ReadAppend(c, At(l), fs, more);
    ArrivalsAppend(ReadAll(c, At(l), fs).1, ReadAll(c, At(l'), more).1);
  }

  /** Without new limits for the decoder, the reader may be given all frames at once. */
  lemma {:induction false} RunReadBack(c: Config, l: L.Link, steps: seq<Step>, ws: seq<Wire>)
    requires L.Assumed(c.env) && L.InSync(l) && Runs(c, l, steps) && Carry(c, l, steps, ws) && AllWritten(ws)
             && Marks(ws)
    requires forall i :: 0 <= i < |steps| ==> !steps[i].Allow?
    ensures Heads(AllFrames(ws, false)) && L.InSync(LinkAfter(c, l, steps))
    ensures var a := ReadAll(c, At(l), AllFrames(ws, false));
            a.0 == At(LinkAfter(c, l, steps)) && AllOk(a.1) && Arrived(Arrivals(a.1), Puts(steps))
    decreases |steps|
  {
    hide L.InSync, L.Assumed, ItemOk, WireFor, WireOk, Runs, After, AllWritten, Marks, WireFrames, DecodeFrame;
    if steps != [] {
      var k := |steps| - 1;
      var l' := LinkAfter(c, l, steps[..k]);
      RunsInit(c, l, steps);
      if steps[k].Put? {
        WrittenInit(ws);
        RunReadBack(c, l, steps[..k], ws[..|ws| - 1]);
        ReadOneMore(c, l, l', steps[k].item, ws, Puts(steps[..k]));
      } else {
        RunReadBack(c, l, steps[..k], ws);
        LimitKeepsSync(c, l', steps[k]);
      }
    }
  }
}

/**
 The reorder buffer by absolute stream offsets.

 `Drain` is what a call may deliver.  The lemmas say what any run of arrivals delivers:
 always a prefix of the stream, as long as possible, and in the end all of it.
 `TcpReassemble` holds the buffer itself, over wrapping sequence numbers.
 */
module TcpReorder {
  import opened Octets

  /** How far past the lowest missing offset a segment may start. */
  const WINDOW := 0x7fff_ffff

  /** Everything below `low` has been delivered; `pend` holds segments by offset. */
  datatype Buffer = Buffer(low: nat, pend: map<nat, Bytes>)

  /** Delivers segments for as long as the next one is there. */
  function Drain(b: Buffer): (r: (Buffer, Bytes))
    decreases |b.pend|
  {
    if b.low in b.pend then
      var d := b.pend[b.low];
      var r := Drain(Buffer(b.low + |d|, b.pend - {b.low}));
      (r.0, d + r.1)
    else (b, [])
  }

  function Ingest(b: Buffer, off: nat, data: Bytes): (r: (Buffer, Bytes)) {
    Drain(b.(pend := b.pend[off := data]))
  }

  // ----- what a well-behaved sender does -----

  ghost predicate Piece(stream: Bytes, off: nat, data: Bytes) {
    off + |data| <= |stream| && stream[off..off + |data|] == data
  }

  ghost predicate Apart(off: nat, data: Bytes, off': nat, data': Bytes) {
    off + |data| <= off' || off' + |data'| <= off
  }

  ghost predicate PieceOk(stream: Bytes, b: Buffer, o: nat)
    requires o in b.pend
  {
    b.low <= o < b.low + WINDOW && Piece(stream, o, b.pend[o])
  }

  /** Segments are pieces of the stream at or above `low`, in the window, and do not overlap. */
  ghost predicate Consistent(stream: Bytes, b: Buffer) {
    && b.low <= |stream|
    && (forall o :: o in b.pend ==> PieceOk(stream, b, o))
    && (forall o, o' :: o in b.pend && o' in b.pend && o != o' ==> Apart(o, b.pend[o], o', b.pend[o']))
  }

  /** Nothing more could have been delivered. */
  ghost predicate Eager(b: Buffer) {
    b.low !in b.pend
  }

  /** A piece of the stream in the window that overlaps no segment buffered at another offset. */
  ghost predicate Fits(stream: Bytes, b: Buffer, off: nat, data: Bytes) {
    && Piece(stream, off, data) && b.low <= off < b.low + WINDOW
    && forall o :: o in b.pend && o != off ==> Apart(off, data, o, b.pend[o])
  }

  /** A segment replaces one buffered at its offset, so it must be at least as long. */
  ghost predicate NoShorter(b: Buffer, off: nat, data: Bytes) {
    off in b.pend ==> |b.pend[off]| <= |data|
  }

  // ----- one arrival -----

  lemma DrainStep(stream: Bytes, b: Buffer)
    requires Consistent(stream, b) && b.low in b.pend
    ensures Consistent(stream, Buffer(b.low + |b.pend[b.low]|, b.pend - {b.low}))
  {
  }

  lemma LowPiece(stream: Bytes, b: Buffer)
    requires Consistent(stream, b) && b.low in b.pend
    ensures Piece(stream, b.low, b.pend[b.low])
  {
  }

  lemma LowBound(stream: Bytes, b: Buffer)
    requires Consistent(stream, b)
    ensures b.low <= |stream|
  {
  }

  /** What is drained is the stream from the old low mark to the new one. */
  lemma {:induction false} DrainDelivers(stream: Bytes, b: Buffer)
    requires Consistent(stream, b)
    ensures var (b', out) := Drain(b);
            && Consistent(stream, b') && Eager(b')
            && b.low <= b'.low && out == stream[b.low..b'.low]
            && b'.pend.Keys <= b.pend.Keys
    decreases |b.pend|
  {
    hide Consistent;
    LowBound(stream, b);
    if b.low in b.pend {
      var d := b.pend[b.low];
      LowPiece(stream, b);
      var b1 := Buffer(b.low + |d|, b.pend - {b.low});
      DrainStep(stream, b);
      DrainDelivers(stream, b1);
      var b' := Drain(b1).0;
      LowBound(stream, b');
      assert stream[b.low..b'.low] == stream[b.low..b1.low] + stream[b1.low..b'.low];
    }
  }

  lemma ArrivalConsistent(stream: Bytes, b: Buffer, off: nat, data: Bytes)
    requires Consistent(stream, b) && Fits(stream, b, off, data)
    ensures Consistent(stream, b.(pend := b.pend[off := data]))
  {
  }

  // ----- coverage -----

  /** Offset `i` has been delivered or is buffered. */
  ghost predicate Covered(b: Buffer, i: nat) {
    i < b.low || exists o :: o in b.pend && o <= i < o + |b.pend[o]|
  }

  lemma CoveredStep(stream: Bytes, b: Buffer, i: nat)
    requires Consistent(stream, b) && b.low in b.pend
    ensures Covered(Buffer(b.low + |b.pend[b.low]|, b.pend - {b.low}), i) <==> Covered(b, i)
  {
    var b1 := Buffer(b.low + |b.pend[b.low]|, b.pend - {b.low});
    if Covered(b, i) && i >= b1.low {
      var o :| o in b.pend && o <= i < o + |b.pend[o]|;
      assert o in b1.pend;
    }
  }

  /** Draining neither loses nor invents octets. */
  lemma {:induction false} DrainCovers(stream: Bytes, b: Buffer, i: nat)
    requires Consistent(stream, b)
    ensures Covered(Drain(b).0, i) <==> Covered(b, i)
    decreases |b.pend|
  {
    hide Consistent, Covered;
    if b.low in b.pend {
      DrainStep(stream, b);
      CoveredStep(stream, b, i);
      DrainCovers(stream, Buffer(b.low + |b.pend[b.low]|, b.pend - {b.low}), i);
    }
  }

  /** An arrival keeps what was covered and adds its own octets. */
  lemma IngestCovers(stream: Bytes, b: Buffer, off: nat, data: Bytes, i: nat)
    requires Consistent(stream, b) && Eager(b) && Fits(stream, b, off, data) && NoShorter(b, off, data)
    requires Covered(b, i) || off <= i < off + |data|
    ensures Covered(Ingest(b, off, data).0, i)
  {
    var b1 := b.(pend := b.pend[off := data]);
    ArrivalConsistent(stream, b, off, data);
    assert Covered(b1, i) by {
      if off <= i < off + |data| {
        assert b1.pend[off] == data;
      } else if i >= b.low {
        var o :| o in b.pend && o <= i < o + |b.pend[o]|;
        assert o in b1.pend;
      }
    }
    DrainCovers(stream, b1, i);
  }

  /** In an eager buffer every segment starts past the low mark and ends within the stream. */
  lemma LowestMissing(stream: Bytes, b: Buffer)
    requires Consistent(stream, b) && Eager(b)
    ensures !Covered(b, b.low)
    ensures forall o :: o in b.pend ==> b.low < o <= |stream|
  {
  }

  /** Once every octet is covered nothing is left in the buffer. */
  lemma CoveredIsDelivered(stream: Bytes, b: Buffer)
    requires Consistent(stream, b) && Eager(b)
    requires forall i :: 0 <= i < |stream| ==> Covered(b, i)
    ensures b.low == |stream| && b.pend == map[]
  {
    LowestMissing(stream, b);
    assert b.pend.Keys == {};
  }

  // ----- whole runs -----

  datatype Segment = Segment(off: nat, data: Bytes)

  /** Every segment fits the buffer when it arrives; `lossless` if it also replaces nothing longer. */
  ghost predicate GoodRun(stream: Bytes, b: Buffer, segs: seq<Segment>, lossless: bool)
    decreases |segs|
  {
    segs != [] ==>
      && Fits(stream, b, segs[0].off, segs[0].data) && (lossless ==> NoShorter(b, segs[0].off, segs[0].data))
      && GoodRun(stream, Ingest(b, segs[0].off, segs[0].data).0, segs[1..], lossless)
  }

  function Run(b: Buffer, segs: seq<Segment>): (r: (Buffer, Bytes))
    decreases |segs|
  {
    if segs == [] then (b, [])
    else
      var (b1, out) := Ingest(b, segs[0].off, segs[0].data);
      var r := Run(b1, segs[1..]);
      (r.0, out + r.1)
  }

  lemma {:induction false} LosslessRunFits(stream: Bytes, b: Buffer, segs: seq<Segment>)
    requires GoodRun(stream, b, segs, true)
    ensures GoodRun(stream, b, segs, false)
    decreases |segs|
  {
    if segs != [] {
      LosslessRunFits(stream, Ingest(b, segs[0].off, segs[0].data).0, segs[1..]);
    }
  }

  /** However segments are reordered, what has been delivered is a prefix of the stream. */
  lemma {:induction false} RunDeliversPrefix(stream: Bytes, b: Buffer, segs: seq<Segment>)
    requires Consistent(stream, b) && Eager(b) && GoodRun(stream, b, segs, false)
    ensures var (b', out) := Run(b, segs);
            && Consistent(stream, b') && Eager(b')
            && b.low <= b'.low && out == stream[b.low..b'.low]
    decreases |segs|
  {
    hide Consistent, Fits, Drain;
    LowBound(stream, b);
    if segs != [] {
      var s := segs[0];
      ArrivalConsistent(stream, b, s.off, s.data);
      DrainDelivers(stream, b.(pend := b.pend[s.off := s.data]));
      var b1 := Ingest(b, s.off, s.data).0;
      RunDeliversPrefix(stream, b1, segs[1..]);
      var b' := Run(b1, segs[1..]).0;
      LowBound(stream, b');
      assert stream[b.low..b'.low] == stream[b.low..b1.low] + stream[b1.low..b'.low];
    }
  }

  ghost predicate Sent(segs: seq<Segment>, i: nat) {
    exists k :: 0 <= k < |segs| && segs[k].off <= i < segs[k].off + |segs[k].data|
  }

  /** Every octet of the stream has been sent at least once. */
  ghost predicate AllSent(segs: seq<Segment>, stream: Bytes) {
    forall i :: 0 <= i < |stream| ==> Sent(segs, i)
  }

  lemma {:induction false} RunCovers(stream: Bytes, b: Buffer, segs: seq<Segment>, i: nat)
    requires Consistent(stream, b) && Eager(b) && GoodRun(stream, b, segs, true)
    requires Covered(b, i) || Sent(segs, i)
    ensures Covered(Run(b, segs).0, i)
    decreases |segs|
  {
    if segs != [] {
      var s := segs[0];
      ArrivalConsistent(stream, b, s.off, s.data);
      DrainDelivers(stream, b.(pend := b.pend[s.off := s.data]));
      if Covered(b, i) || s.off <= i < s.off + |s.data| {
        IngestCovers(stream, b, s.off, s.data, i);
      } else {
        var k :| 0 <= k < |segs| && segs[k].off <= i < segs[k].off + |segs[k].data|;
        assert segs[1..][k - 1] == segs[k];
      }
      RunCovers(stream, Ingest(b, s.off, s.data).0, segs[1..], i);
    }
  }

  /** Once every octet has been sent, in any order, the whole stream has been delivered. */
  lemma RunComplete(stream: Bytes, segs: seq<Segment>)
    requires GoodRun(stream, Buffer(0, map[]), segs, true) && AllSent(segs, stream)
    ensures Run(Buffer(0, map[]), segs) == (Buffer(|stream|, map[]), stream)
  {
    var b := Buffer(0, map[]);
    LosslessRunFits(stream, b, segs);
    RunDeliversPrefix(stream, b, segs);
    forall i | 0 <= i < |stream|
      ensures Covered(Run(b, segs).0, i)
    {
      assert Sent(segs, i);
      RunCovers(stream, b, segs, i);
    }
    CoveredIsDelivered(stream, Run(b, segs).0);
    assert stream[0..|stream|] == stream;
  }

  // ----- segments that lose data -----

  /** The last octet of a segment that a shorter one replaces is covered no more. */
  lemma ShorterLosesLast(stream: Bytes, b: Buffer, off: nat, data: Bytes)
    requires Consistent(stream, b) && Fits(stream, b, off, data) && !NoShorter(b, off, data) && Eager(b)
    ensures var i := off + |b.pend[off]| - 1;
            Covered(b, i) && !Covered(Ingest(b, off, data).0, i)
  {
    var i := off + |b.pend[off]| - 1;
    var b1 := b.(pend := b.pend[off := data]);
    ArrivalConsistent(stream, b, off, data);
    assert PieceOk(stream, b, off);
    assert !Covered(b1, i) by {
      if o :| o in b1.pend && o <= i < o + |b1.pend[o]| {
        assert o != off ==> Apart(off, b.pend[off], o, b.pend[o]);
      }
    }
    DrainCovers(stream, b1, i);
  }

  ghost predicate LosesNothing(b: Buffer, b': Buffer) {
    forall i :: Covered(b, i) ==> Covered(b', i)
  }

  /** Exactly when a fitting segment loses nothing: it is no shorter than the one it replaces, if any. */
  lemma LosesNothingIff(stream: Bytes, b: Buffer, off: nat, data: Bytes)
    requires Consistent(stream, b) && Eager(b) && Fits(stream, b, off, data)
    ensures LosesNothing(b, Ingest(b, off, data).0) <==> NoShorter(b, off, data)
  {
    if NoShorter(b, off, data) {
      forall i | Covered(b, i)
        ensures Covered(Ingest(b, off, data).0, i)
      {
        IngestCovers(stream, b, off, data, i);
      }
    } else {
      ShorterLosesLast(stream, b, off, data);
    }
  }

  /** An empty segment above the low mark replaces the data buffered there, which is then lost. */
  lemma EmptySegmentLosesData()
    ensures var stream := [97, 98];
            var segs := [Segment(1, [98]), Segment(1, []), Segment(0, [97])];
            && AllSent(segs, stream)
            && Run(Buffer(0, map[]), segs) == (Buffer(1, map[]), [97])
  {
    var segs := [Segment(1, [98]), Segment(1, []), Segment(0, [97])];
    assert segs[0].off == 1 && segs[2].off == 0;
    assert segs[1..] == [Segment(1, []), Segment(0, [97])] && segs[1..][1..] == [Segment(0, [97])];
    var b0, b1, b2 := Buffer(0, map[]), Buffer(0, map[1 := [98]]), Buffer(0, map[1 := []]);
    assert Ingest(b0, 1, [98]) == (b1, []);
    assert b1.pend[1 := []] == b2.pend;
    assert Ingest(b1, 1, []) == (b2, []);
    var full := Buffer(0, map[1 := [], 0 := [97]]);
    assert b2.pend[0 := [97]] == full.pend && full.pend - {0} == b2.pend && b2.pend - {1} == map[];
    var none: Bytes := [];
    var end := Buffer(1, map[]);
    assert Drain(end) == (end, none);
    assert none + none == none && [97] + none == [97] && none + [97] == [97];
    assert Drain(Buffer(1, b2.pend)) == (end, none + none);
    assert Drain(full) == (end, [97] + none);
    assert Run(end, []) == (end, none);
    assert Run(b2, [Segment(0, [97])]) == (end, [97] + none);
    assert Run(b1, segs[1..]) == (end, none + [97]);
  }
}

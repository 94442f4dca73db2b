/** The TCP reorder buffer over 32-bit wrapping sequence numbers, proved to refine `TcpReorder`. */
module TcpReassemble {
  import opened Wrappers
  import opened Octets
  import opened TcpSequence
  import opened TcpReorder

  /** The map of segments by sequence number mirrors the one by offset. */
  ghost predicate Mirrors(m: map<u32, Bytes>, isn: u32, pend: map<nat, Bytes>) {
    && (forall o :: o in pend ==> Key(isn, o) in m && m[Key(isn, o)] == pend[o])
    && (forall k :: k in m ==> exists o :: o in pend && Key(isn, o) == k)
  }

  /** All offsets lie within one turn above `low`, so sequence numbers tell them apart. */
  ghost predicate OneTurn(b: Buffer) {
    forall o :: o in b.pend ==> b.low <= o < b.low + MODULUS
  }

  /** The cursor sees the segment nearest above `low`, and stands on it if it is the one at `low`. */
  ghost predicate Sees(keys: set<u32>, isn: u32, b: Buffer, pos: u32) {
    keys != {} ==>
      var k := Peek(keys, pos).value;
      && (k == Key(isn, b.low) ==> pos == k)
      && forall o :: o in b.pend ==> Ahead(Key(isn, b.low), k) <= o - b.low
  }

  lemma MirrorAdd(m: map<u32, Bytes>, isn: u32, b: Buffer, off: nat, data: Bytes)
    requires Mirrors(m, isn, b.pend) && OneTurn(b) && b.low <= off < b.low + MODULUS
    ensures Mirrors(m[Key(isn, off) := data], isn, b.pend[off := data])
  {
    hide Key;
    var m', pend' := m[Key(isn, off) := data], b.pend[off := data];
    forall o | o in pend'
      ensures Key(isn, o) in m' && m'[Key(isn, o)] == pend'[o]
    {
      if o != off {
        KeyInjective(isn, if o < off then o else off, if o < off then off else o);
      }
    }
    forall k | k in m'
      ensures exists o :: o in pend' && Key(isn, o) == k
    {
      if k == Key(isn, off) {
        assert off in pend';
      } else {
        var o :| o in b.pend && Key(isn, o) == k;
        assert o in pend';
      }
    }
  }

  lemma MirrorRemove(m: map<u32, Bytes>, isn: u32, b: Buffer, off: nat)
    requires Mirrors(m, isn, b.pend) && OneTurn(b) && off in b.pend
    ensures Mirrors(m - {Key(isn, off)}, isn, b.pend - {off})
  {
    hide Key;
    var m', pend' := m - {Key(isn, off)}, b.pend - {off};
    forall o | o in pend'
      ensures Key(isn, o) in m' && m'[Key(isn, o)] == pend'[o]
    {
      KeyInjective(isn, if o < off then o else off, if o < off then off else o);
    }
    forall k | k in m'
      ensures exists o :: o in pend' && Key(isn, o) == k
    {
      var o :| o in b.pend && Key(isn, o) == k;
      assert o in pend';
    }
  }

  lemma OffsetOf(m: map<u32, Bytes>, isn: u32, b: Buffer, k: u32) returns (o: nat)
    requires Mirrors(m, isn, b.pend) && OneTurn(b) && k in m
    ensures o in b.pend && Key(isn, o) == k && Ahead(Key(isn, b.low), k) == o - b.low
  {
    o :| o in b.pend && Key(isn, o) == k;
    KeyDistance(isn, b.low, o);
  }

  /** Starting at the lowest missing sequence number the cursor sees the nearest segment. */
  lemma SeesAtLow(m: map<u32, Bytes>, isn: u32, b: Buffer)
    requires Mirrors(m, isn, b.pend) && OneTurn(b)
    ensures Sees(m.Keys, isn, b, Key(isn, b.low))
  {
    hide Peek, Key, Ahead;
    forall o | o in b.pend
      ensures Ahead(Key(isn, b.low), Peek(m.Keys, Key(isn, b.low)).value) <= o - b.low
    {
      PeekIsNearest(m.Keys, Key(isn, b.low), Key(isn, o));
      KeyDistance(isn, b.low, o);
    }
  }

  /** The cursor's position tells whether the wanted segment is there. */
  lemma SeesWanted(m: map<u32, Bytes>, isn: u32, b: Buffer, pos: u32)
    requires Mirrors(m, isn, b.pend) && OneTurn(b) && Sees(m.Keys, isn, b, pos)
    ensures b.low in b.pend <==> Peek(m.Keys, pos) == Some(Key(isn, b.low))
    ensures b.low in b.pend ==> pos == Key(isn, b.low)
  {
    hide Key;
    if b.low in b.pend {
      assert Key(isn, b.low) in m;
    }
    if Peek(m.Keys, pos) == Some(Key(isn, b.low)) {
      var o := OffsetOf(m, isn, b, Key(isn, b.low));
    }
  }

  /** After removing the segment at `low`, the next key round is the nearest segment left. */
  lemma SeesAfterRemove(m: map<u32, Bytes>, isn: u32, b: Buffer, b': Buffer)
    requires Mirrors(m, isn, b.pend) && OneTurn(b) && b.low in b.pend
    requires b' == Buffer(b.low + |b.pend[b.low]|, b.pend - {b.low}) && OneTurn(b')
    ensures var k := PeekNext(m.Keys, Key(isn, b.low));
            k.Some? && Sees((m - {Key(isn, b.low)}).Keys, isn, b', k.value)
  {
    hide Peek, PeekNext, Key, Ahead;
    var at := Key(isn, b.low);
    var m' := m - {at};
    assert at in m;
    var k := PeekNext(m.Keys, at).value;
    MirrorRemove(m, isn, b, b.low);
    if j :| j in m' {
      PeekNextIsNearest(m.Keys, at, j);
      assert k in m';
      PeekAtKey(m'.Keys, k);
      var o2 := OffsetOf(m', isn, b', k);
      KeyDistance(isn, b.low, o2);
      forall o | o in b'.pend
        ensures Ahead(Key(isn, b'.low), k) <= o - b'.low
      {
        KeyInjective(isn, b.low, o);
        PeekNextIsNearest(m.Keys, at, Key(isn, o));
        KeyDistance(isn, b.low, o);
      }
    }
  }

  // ----- the buffer as it is: any arrivals -----

  /** The lowest sequence number not delivered yet, and the segments kept. */
  datatype Raw = Raw(lowest: u32, segs: map<u32, Bytes>)

  /** What the export loop delivers with its cursor at `pos`: the cursor moves to the next key round. */
  function RawDrain(r: Raw, pos: u32): (res: (Raw, Bytes))
    decreases |r.segs|
  {
    if pos !in r.segs || pos != r.lowest then (r, [])
    else
      var v := r.segs[pos];
      var (r', out) := RawDrain(Raw((pos + |v|) % MODULUS, r.segs - {pos}), PeekNext(r.segs.Keys, pos).value);
      (r', v + out)
  }

  function RawIngest(r: Raw, seqno: u32, data: Bytes): (res: (Raw, Bytes)) {
    RawDrain(r.(segs := r.segs[seqno := data]), r.lowest)
  }

  class TcpReorderBuffer {
    var lowest: u32
    var reassemble: map<u32, Bytes>
    /** What the callback has been given so far. */
    var delivered: Bytes

    ghost function State(): (r: Raw)
      reads this`lowest, this`reassemble
    {
      Raw(lowest, reassemble)
    }

    constructor (isn: u32)
      ensures State() == Raw(isn, map[]) && delivered == []
    {
      lowest, reassemble, delivered := isn, map[], [];
    }

    /** Exports all the data it can.  The cursor always stands on a key when it removes one. */
    method Export()
      modifies this
      ensures (State(), delivered)
              == (RawDrain(old(State()), old(lowest)).0, old(delivered) + RawDrain(old(State()), old(lowest)).1)
    {
      hide Peek, PeekNext;
      var pos := Some(lowest);
      ghost var all, goal := RawDrain(State(), lowest).0, delivered + RawDrain(State(), lowest).1;
      while true
        invariant pos.Some? && (pos.value in reassemble || pos.value == lowest || reassemble == map[])
        invariant all == RawDrain(State(), pos.value).0 && goal == delivered + RawDrain(State(), pos.value).1
        decreases reassemble.Keys
      {
        CursorStands(reassemble.Keys, pos.value);
        var k := Peek(reassemble.Keys, pos.value);
        if k.None? || k.value != lowest {
          assert RawDrain(State(), pos.value) == (State(), []);
          assert delivered + [] == delivered;
          break;
        }
        var at := pos.value;
        pos := PeekNext(reassemble.Keys, at);
        var v := reassemble[at];
        NextStays(reassemble.Keys, at);
        reassemble := reassemble - {at};
        lowest, delivered := (lowest + |v|) % MODULUS, delivered + v;
      }
    }

    /** Ingests a segment and delivers what it can.  It must not start too far ahead of what is missing. */
    method Ingest(seqno: u32, data: Bytes)
      requires Ahead(lowest, seqno) < 0xffff_ffff / 2
      modifies this
      ensures (State(), delivered)
              == (RawIngest(old(State()), seqno, data).0, old(delivered) + RawIngest(old(State()), seqno, data).1)
    {
      reassemble := reassemble[seqno := data];
      assert Ahead(lowest, seqno) < 0xffff_ffff / 2;
      Export();
    }

    /** Whatever order the segments come in, a prefix of the stream is delivered, and all of it once all have come. */
    method Receive(isn: u32, segs: seq<(u32, Bytes)>, ghost stream: Bytes, ghost offs: seq<nat>)
      requires State() == Raw(isn, map[]) && delivered == [] && |offs| == |segs|
      requires forall i :: 0 <= i < |segs| ==> segs[i].0 == Key(isn, offs[i])
      requires GoodRun(stream, Buffer(0, map[]), Arrivals(segs, offs), false)
      modifies this
      ensures delivered == Run(Buffer(0, map[]), Arrivals(segs, offs)).1 <= stream
      ensures GoodRun(stream, Buffer(0, map[]), Arrivals(segs, offs), true) && AllSent(Arrivals(segs, offs), stream) ==>
                delivered == stream && reassemble == map[]
    {
      hide Drain, Fits, Consistent, Represents, RawIngest, TcpReorder.Ingest;
      ghost var all, abs := Arrivals(segs, offs), Buffer(0, map[]);
      Nothing(isn, stream);
      RunDeliversPrefix(stream, abs, all);
      LowBound(stream, Run(abs, all).0);
      assert all[0..] == all;
      for i := 0 to |segs|
        invariant Represents(State(), isn, stream, abs) && GoodRun(stream, abs, all[i..], false)
        invariant Run(Buffer(0, map[]), all).0 == Run(abs, all[i..]).0
        invariant Run(Buffer(0, map[]), all).1 == delivered + Run(abs, all[i..]).1
      {
        assert all[i..][1..] == all[i + 1..];
        IngestRefines(State(), isn, stream, abs, offs[i], segs[i].1);
        ghost var next := TcpReorder.Ingest(abs, offs[i], segs[i].1);
        Ingest(segs[i].0, segs[i].1);
        abs := next.0;
      }
      if GoodRun(stream, Buffer(0, map[]), all, true) && AllSent(all, stream) {
        RunComplete(stream, all);
        NothingLeft(State(), isn, stream, abs);
      }
    }
  }

  ghost function Arrivals(segs: seq<(u32, Bytes)>, offs: seq<nat>): (r: seq<Segment>)
    requires |offs| == |segs|
  {
    seq(|segs|, i requires 0 <= i < |segs| => Segment(offs[i], segs[i].1))
  }

  /** A cursor on a key sees that key. */
  lemma CursorStands(keys: set<u32>, pos: u32)
    ensures pos in keys ==> Peek(keys, pos) == Some(pos)
    ensures pos !in keys ==> Peek(keys, pos) != Some(pos)
    ensures keys == {} <==> Peek(keys, pos).None?
  {
    if pos in keys {
      PeekAtKey(keys, pos);
    }
  }

  /** Past a key the cursor goes to another one, if there is one. */
  lemma NextStays(keys: set<u32>, at: u32)
    requires at in keys
    ensures PeekNext(keys, at).Some? && (PeekNext(keys, at).value in keys - {at} || keys - {at} == {})
  {
    if j :| j in keys - {at} {
      PeekNextIsNearest(keys, at, j);
    }
  }

  // ----- arrivals that belong to a stream -----

  /** The buffer holds pieces of this stream, by sequence number. */
  ghost predicate Represents(r: Raw, isn: u32, stream: Bytes, b: Buffer) {
    r.lowest == Key(isn, b.low) && Mirrors(r.segs, isn, b.pend) && Consistent(stream, b) && Eager(b)
  }

  lemma Nothing(isn: u32, stream: Bytes)
    ensures Represents(Raw(isn, map[]), isn, stream, Buffer(0, map[]))
  {
  }

  lemma NothingLeft(r: Raw, isn: u32, stream: Bytes, b: Buffer)
    requires Represents(r, isn, stream, b) && b.pend == map[]
    ensures r.segs == map[]
  {
  }

  /** The export loop over sequence numbers delivers what draining over offsets does. */
  lemma {:induction false} DrainRefines(r: Raw, isn: u32, stream: Bytes, b: Buffer, pos: u32)
    requires r.lowest == Key(isn, b.low) && Mirrors(r.segs, isn, b.pend) && Consistent(stream, b)
             && Sees(r.segs.Keys, isn, b, pos)
    ensures var raw, abs := RawDrain(r, pos), Drain(b);
            raw.1 == abs.1 && raw.0.lowest == Key(isn, abs.0.low) && Mirrors(raw.0.segs, isn, abs.0.pend)
    decreases |r.segs|
  {
    hide Key, Peek, PeekNext, Ahead, Consistent, Mirrors, OneTurn, Sees;
    ConsistentOneTurn(stream, b);
    SeesWanted(r.segs, isn, b, pos);
    CursorStands(r.segs.Keys, pos);
    if b.low in b.pend {
      WantedData(r.segs, isn, b);
      var v := r.segs[pos];
      var next := Buffer(b.low + |v|, b.pend - {b.low});
      DrainStep(stream, b);
      ConsistentOneTurn(stream, next);
      MirrorRemove(r.segs, isn, b, b.low);
      SeesAfterRemove(r.segs, isn, b, next);
      KeyAdvance(isn, b.low, |v|);
      DrainRefines(Raw((pos + |v|) % MODULUS, r.segs - {pos}), isn, stream, next, PeekNext(r.segs.Keys, pos).value);
    }
  }

  /** A segment of the stream is taken in as its offset says, across any number of wraps. */
  lemma IngestRefines(r: Raw, isn: u32, stream: Bytes, b: Buffer, off: nat, data: Bytes)
    requires Represents(r, isn, stream, b) && Fits(stream, b, off, data)
    ensures Ahead(r.lowest, Key(isn, off)) < 0xffff_ffff / 2
    ensures var raw, abs := RawIngest(r, Key(isn, off), data), TcpReorder.Ingest(b, off, data);
            raw.1 == abs.1 && Represents(raw.0, isn, stream, abs.0)
  {
    hide Key, Ahead, Consistent, Mirrors, OneTurn, Sees;
    ConsistentOneTurn(stream, b);
    MirrorAdd(r.segs, isn, b, off, data);
    ArrivalConsistent(stream, b, off, data);
    KeyDistance(isn, b.low, off);
    var b1, r1 := b.(pend := b.pend[off := data]), r.(segs := r.segs[Key(isn, off) := data]);
    ConsistentOneTurn(stream, b1);
    SeesAtLow(r1.segs, isn, b1);
    DrainRefines(r1, isn, stream, b1, r.lowest);
    DrainDelivers(stream, b1);
  }

  lemma ConsistentOneTurn(stream: Bytes, b: Buffer)
    requires Consistent(stream, b)
    ensures OneTurn(b)
  {
  }

  lemma KeyAdvance(isn: u32, low: nat, n: nat)
    ensures (Key(isn, low) + n) % MODULUS == Key(isn, low + n)
  {
  }

  lemma WantedData(m: map<u32, Bytes>, isn: u32, b: Buffer)
    requires Mirrors(m, isn, b.pend) && b.low in b.pend
    ensures Key(isn, b.low) in m && m[Key(isn, b.low)] == b.pend[b.low]
  {
  }
}

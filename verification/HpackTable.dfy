/**
 The HPACK encoder's dynamic table: a FIFO of slots indexed by a Robin Hood array.

 `Valid` is the whole-table invariant.  Every public method is proved against the
 plain FIFO of `HpackFifo`, so lookup through the array and the chains agrees with a
 linear scan of the slots.
 */
module HpackTable {
  import opened Wrappers
  import opened HpackHeader
  import opened HpackFifo
  import opened HpackStatic
  import opened HpackPolicy
  import opened RobinHood
  import opened RobinHoodGrowth
  import opened TableChains

  function Headers(slots: seq<Slot>): (es: Entries)
    ensures |es| == |slots|
  {
    seq(|slots|, i requires 0 <= i < |slots| => slots[i].header)
  }

  function Usable(cap: nat): (n: nat) {
    cap - cap / 4
  }

  function ToRawCapacity(n: nat): (cap: nat) {
    n + n / 3
  }

  ghost predicate PowerOfTwo(n: nat) {
    n == 1 || (n > 1 && n % 2 == 0 && PowerOfTwo(n / 2))
  }

  /** With fewer slots than buckets some bucket is empty. */
  lemma SpareBucket(ix: Indices, slots: seq<Slot>, inserted: nat)
    requires Distinct(ix) && Headed(ix, slots, inserted, None) && |slots| < |ix|
    ensures HasEmpty(ix)
  {
    if !HasEmpty(ix) {
      forall b | 0 <= b < |ix|
        ensures ix[b].Some? && ix[b].value.index < WORD && Real(ix[b].value.index, inserted) < |slots|
      {
        assert Has(ix, ix[b].value);
        assert IsHead(slots, inserted, ix[b].value);
      }
      var f := seq(|ix|, b requires 0 <= b < |ix| => Real(ix[b].value.index, inserted));
      forall b, c | 0 <= b < c < |f|
        ensures f[b] != f[c]
      {
        IdOfReal(ix[b].value.index, inserted);
        IdOfReal(ix[c].value.index, inserted);
      }
      Pigeonhole(f, |slots|);
    }
  }

  /** A header's name is in the slots exactly when it is in the FIFO. */
  lemma NameInFifo(slots: seq<Slot>, n: Name)
    ensures NameAbsent(slots, n) <==> !HasName(Headers(slots), n)
  {
    if !NameAbsent(slots, n) {
      var i :| 0 <= i < |slots| && slots[i].header.name == n;
      assert Headers(slots)[i].name == n;
    }
  }

  /** Some slot of a present name is the oldest one. */
  lemma {:induction false} OldestExists(slots: seq<Slot>, i: nat) returns (o: nat)
    requires i < |slots|
    ensures o < |slots| && SameName(slots, i, o) && Oldest(slots, o)
    decreases |slots| - i
  {
    if k :| i < k < |slots| && SameName(slots, i, k) {
      o := OldestExists(slots, k);
    } else {
      o := i;
    }
  }

  /** Where a lookup of `hash` stands after `dist` steps without a hit. */
  ghost predicate Probing(ix: Indices, slots: seq<Slot>, inserted: nat, hash: nat, n: Name, dist: nat)
    requires 0 < |ix| && dist <= |ix|
  {
    forall m :: 0 <= m < dist ==>
      var b := At(|ix|, Desired(|ix|, hash), m);
      && ix[b].Some? && DistAt(ix, b) >= m
      && (Real(ix[b].value.index, inserted) < |slots| ==>
            slots[Real(ix[b].value.index, inserted)].header.name != n)
  }

  lemma ProbeStart(ix: Indices, slots: seq<Slot>, inserted: nat, hash: nat, n: Name)
    requires 0 < |ix|
    ensures Probing(ix, slots, inserted, hash, n, 0)
  {
  }

  lemma ProbeStep(ix: Indices, slots: seq<Slot>, inserted: nat, hash: nat, n: Name, dist: nat)
    requires 0 < |ix| && dist < |ix| && Probing(ix, slots, inserted, hash, n, dist)
    requires var b := At(|ix|, Desired(|ix|, hash), dist);
             && ix[b].Some? && DistAt(ix, b) >= dist
             && (Real(ix[b].value.index, inserted) < |slots| ==>
                   slots[Real(ix[b].value.index, inserted)].header.name != n)
    ensures Probing(ix, slots, inserted, hash, n, dist + 1)
  {
  }

  lemma HeadAt(ix: Indices, slots: seq<Slot>, inserted: nat, b: nat)
    requires Headed(ix, slots, inserted, None) && b < |ix| && ix[b].Some?
    ensures IsHead(slots, inserted, ix[b].value)
  {
  }

  /** A lookup that stops at an empty or less displaced bucket proves the name absent. */
  lemma ProbeMiss(ix: Indices, slots: seq<Slot>, inserted: nat, hash: Name -> nat, n: Name, dist: nat)
    requires 0 < |ix| && dist < |ix| && |slots| < WORD - 1
    requires Ordered(ix) && Hashed(slots, hash) && Headed(ix, slots, inserted, None)
    requires Probing(ix, slots, inserted, hash(n), n, dist)
    requires var b := At(|ix|, Desired(|ix|, hash(n)), dist);
             ix[b].None? || DistAt(ix, b) < dist
    ensures NameAbsent(slots, n)
  {
    if !NameAbsent(slots, n) {
      var i :| 0 <= i < |slots| && slots[i].header.name == n;
      var o := OldestExists(slots, i);
      assert Reached(ix, slots, inserted, o);
      var p := HeadPos(slots, inserted, o);
      var b :| 0 <= b < |ix| && ix[b] == Some(p);
      RealOfId(o, inserted);
      var d := DistAt(ix, b);
      if dist <= d {
        PathToEntry(ix, b, dist);
      }
    }
  }

  /** A probe cannot go all the way round. */
  lemma ProbeIsShort(ix: Indices, slots: seq<Slot>, inserted: nat, hash: nat, n: Name, dist: nat)
    requires HasEmpty(ix) && dist <= |ix|
    requires Probing(ix, slots, inserted, hash, n, dist)
    ensures dist < |ix|
  {
    var e :| 0 <= e < |ix| && ix[e].None?;
    var o := Offset(|ix|, Desired(|ix|, hash), e);
    assert At(|ix|, Desired(|ix|, hash), o) == e;
  }

  /** A lookup `dist` steps from its ideal bucket stops at `b`. */
  ghost predicate StopsAt(ix: Indices, b: nat, dist: nat)
    requires b < |ix|
  {
    ix[b].Some? ==> DistAt(ix, b) < dist
  }

  class Table {
    const hash: Name -> nat
    var mask: nat
    var indices: Indices
    var slots: seq<Slot>
    var inserted: nat
    var size: nat
    var maxSize: nat

    ghost function Contents(): Entries
      reads this
    {
      Headers(slots)
    }

    /** Buckets and chains agree; `pending` is set only while a chain waits for the slot being inserted. */
    ghost predicate Coherent(pending: Option<Pos>)
      reads this
    {
      && |indices| >= 8 && mask == |indices| - 1 && inserted < WORD
      && |slots| <= Usable(|indices|) && |slots| < WORD - 1
      && WellPlaced(indices)
      && Linked(slots, inserted) && Hashed(slots, hash) && Headed(indices, slots, inserted, pending)
    }

    ghost predicate Unallocated()
      reads this
    {
      indices == [] && slots == [] && mask == 0 && inserted < WORD
    }

    ghost predicate Fifo()
      reads this
    {
      NoRepeats(Contents()) && NoneSensitive(Contents())
    }

    /** The full table invariant. */
    ghost predicate Valid()
      reads this
    {
      && (Unallocated() || (Coherent(None) && PowerOfTwo(|indices|)))
      && Fifo()
      && size == Size(Contents()) <= maxSize < WORD
    }

    // Closes the gap at `h`: entries behind it that are not where they belong move back by one.
    method RemovePhaseTwo(h: nat, ghost before: Indices)
      requires WellPlaced(before) && h < |before| && before[h].Some? && indices == before[h := None]
      modifies this`indices
      ensures WellPlaced(indices) && Shrinks(before, indices)
      ensures forall q :: Has(indices, q) <==> Has(before, q) && q.index != before[h].value.index
    {
      var cap := |indices|;
      var lastProbe, probe := h, Next(cap, h);
      ghost var run := 0;
      RunIsShort(before, h, 0);
      while indices[probe].Some? && DistAt(indices, probe) > 0
        invariant |indices| == cap && run + 1 < cap
        invariant RemovedAt(before, indices, h, run) && DisplacedRun(before, h, run)
        invariant lastProbe == At(cap, h, run) && probe == At(cap, h, run + 1)
        decreases cap - run
      {
        assert Offset(cap, h, probe) == run + 1;
        RemoveStep(before, indices, h, run);
        RunIsShort(before, h, run + 1);
        indices := indices[lastProbe := indices[probe]][probe := None];
        lastProbe, probe, run := probe, Next(cap, probe), run + 1;
      }
      assert Offset(cap, h, probe) == run + 1;
      RemoveKeepsOrder(before, indices, h, run);
      RemoveKeepsDistinct(before, indices, h, run);
      RemoveDropsOne(before, indices, h, run);
    }

    // Walks from the ideal bucket of `p.hash` to the bucket that holds `p`.
    method FindBucket(p: Pos) returns (probe: nat)
      requires WellPlaced(indices) && Has(indices, p)
      ensures probe < |indices| && indices[probe] == Some(p)
    {
      var cap := |indices|;
      ghost var goal: nat :| goal < cap && indices[goal] == Some(p);
      probe := Desired(cap, p.hash);
      ghost var t := 0;
      PathToEntry(indices, goal, 0);
      while indices[probe].value.index != p.index
        invariant t <= DistAt(indices, goal) && probe == At(cap, Desired(cap, p.hash), t)
        invariant indices[probe].Some?
        decreases DistAt(indices, goal) - t
      {
        assert t < DistAt(indices, goal);
        PathToEntry(indices, goal, t + 1);
        probe, t := Next(cap, probe), t + 1;
      }
    }

    /** The new slot will be linked behind slot `tail`, the newest of its name, unless that gets evicted. */
    ghost predicate Appending(prevIdx: Option<nat>, tail: Slot, t: nat)
      reads this
    {
      prevIdx.Some? ==>
        && t < WORD - 1 && prevIdx == Some(Id(t, inserted)) && tail.next.None?
        && (t < |slots| ==> slots[t] == tail)
    }

    ghost function Pending(prevIdx: Option<nat>, tail: Slot, t: nat): Option<Pos>
      reads this
    {
      if prevIdx.Some? && |slots| <= t then Some(Pos(Id(-1, inserted), tail.hash)) else None
    }

    // Finds the bucket of an evicted chain head and repoints it, or deletes it with a back shift.
    method RemoveHead(slot: Slot, posIdx: nat, prevIdx: Option<nat>)
      requires WellPlaced(indices) && Has(indices, Pos(posIdx, slot.hash))
      requires slot.next.Some? ==> IndexUnused(indices, slot.next.value)
      requires slot.next.None? && prevIdx == Some(posIdx) ==> IndexUnused(indices, Id(-1, inserted))
      modifies this`indices
      ensures WellPlaced(indices) && Shrinks(old(indices), indices) && |indices| == old(|indices|)
      ensures EvictedBuckets(old(indices), indices, Pos(posIdx, slot.hash),
                             Successor(slot, inserted, prevIdx == Some(posIdx)))
    {
      hide Ordered, Distinct, HasEmpty, IndexUnused, Id, DistAt;
      ghost var before := indices;
      var probe := FindBucket(Pos(posIdx, slot.hash));
      if slot.next.Some? {
        Repoint(before, probe, slot.next.value);
        indices := indices[probe := Some(Pos(slot.next.value, slot.hash))];
      } else if prevIdx == Some(posIdx) {
        Repoint(before, probe, Id(-1, inserted));
        indices := indices[probe := Some(Pos(Id(-1, inserted), slot.hash))];
      } else {
        indices := indices[probe := None];
        RemovePhaseTwo(probe, before);
      }
    }

    // Removes the oldest slot.  `prevIdx` is the chain tail a new slot is about to be linked to.
    method Evict(prevIdx: Option<nat>, ghost tail: Slot, ghost t: nat)
      requires Coherent(Pending(prevIdx, tail, t)) && Appending(prevIdx, tail, t)
      requires |slots| > 0 && size >= Len(slots[|slots| - 1].header)
      modifies this`indices, this`slots, this`size
      ensures Coherent(Pending(prevIdx, tail, t)) && Appending(prevIdx, tail, t)
      ensures slots == old(slots)[..|old(slots)| - 1]
      ensures size == old(size) - Len(old(slots)[|old(slots)| - 1].header)
      ensures Shrinks(old(indices), indices)
    {
      hide Linked, WellPlaced, Shrinks, Has, Id, EvictedBuckets, Headed;
      var n := |slots| - 1;
      var posIdx := Id(n, inserted);
      var slot := slots[n];
      ghost var before, was, pending := indices, slots, Pending(prevIdx, tail, t);
      ghost var appendTo := prevIdx == Some(posIdx);
      assert prevIdx.Some? ==> (appendTo <==> n == t) by {
        if prevIdx.Some? && n != t {
          IdInjective(if t < n then t else n, if t < n then n else t, inserted);
        }
      }
      LastIsHead(indices, slots, inserted, pending);
      EvictKeepsLinks(slots, inserted);
      slots := slots[..n];
      size := size - Len(slot.header);
      if slot.next.Some? {
        NextNotHead(before, was, inserted, pending);
      } else if prevIdx == Some(posIdx) {
        PendingNotHead(before, was, inserted);
      }
      RemoveHead(slot, posIdx, prevIdx);
      EvictKeepsHeaded(before, indices, was, inserted, hash, pending, appendTo);
    }

    // Evicts until the size fits.  `extra` is the part of the size not yet in a slot.
    method Converge(prevIdx: Option<nat>, ghost tail: Slot, ghost t: nat, ghost extra: nat) returns (evicted: bool)
      requires Coherent(Pending(prevIdx, tail, t)) && Appending(prevIdx, tail, t)
      requires size == Size(Contents()) + extra && extra <= maxSize
      modifies this`indices, this`slots, this`size
      ensures Coherent(Pending(prevIdx, tail, t)) && Appending(prevIdx, tail, t)
      ensures Contents() == EvictTo(old(Contents()), maxSize - extra)
      ensures slots <= old(slots) && size == Size(Contents()) + extra <= maxSize
      ensures Shrinks(old(indices), indices) && (!evicted ==> indices == old(indices))
    {
      hide Coherent, Appending, Pending, Len, Shrinks, EvictTo, Size, Headers;
      ShrinksReflexive(indices);
      evicted := false;
      while size > maxSize
        invariant Coherent(Pending(prevIdx, tail, t)) && Appending(prevIdx, tail, t)
        invariant slots <= old(slots)
        invariant size == Size(Contents()) + extra
        invariant EvictTo(Contents(), maxSize - extra) == EvictTo(old(Contents()), maxSize - extra)
        invariant Shrinks(old(indices), indices) && (!evicted ==> indices == old(indices))
        decreases |slots|
      {
        evicted := true;
        ghost var before := indices;
        EvictOne(slots, maxSize - extra);
        Evict(prevIdx, tail, t);
        ShrinksTransitive(old(indices), before, indices);
      }
      EvictNone(Contents(), maxSize - extra);
    }

    // Writes `p` at bucket `s` and shifts the entries it displaces forward.
    method PlaceAt(s: nat, p: Pos)
      requires WellPlaced(indices) && s < |indices| && Insertable(indices, p.hash, s) && IndexUnused(indices, p.index)
      modifies this`indices
      ensures |indices| == old(|indices|) && Ordered(indices) && Distinct(indices)
      ensures forall q :: Has(indices, q) <==> Has(old(indices), q) || q == p
    {
      hide Ordered, Distinct, HasEmpty, Insertable, IndexUnused, FullRun;
      ghost var before := indices;
      var cap := |indices|;
      var prev := indices[s];
      InsertStart(before, p, s);
      indices := indices[s := Some(p)];
      var probe := Next(cap, s);
      ghost var run := 0;
      while prev.Some?
        invariant |indices| == cap && run < cap
        invariant InsertedAt(before, indices, p, s, run) && FullRun(before, s, run)
        invariant prev == before[At(cap, s, run)] && probe == At(cap, s, run + 1)
        decreases cap - run
      {
        InsertRunIsShort(before, s, run);
        InsertStep(before, indices, p, s, run);
        var displaced := indices[probe];
        indices := indices[probe := prev];
        prev, probe, run := displaced, Next(cap, probe), run + 1;
      }
      InsertKeepsOrder(before, indices, p, s, run);
      InsertAddsOne(before, indices, p, s, run);
      InsertKeepsDistinct(before, indices, p, s, run);
    }

    // After evictions the new entry may belong further back than where the lookup stopped.
    method WalkBack(hashValue: nat, start: nat, startDist: nat) returns (probe: nat)
      requires WellPlaced(indices) && startDist < |indices|
      requires start == At(|indices|, Desired(|indices|, hashValue), startDist)
      requires StopsAt(indices, start, startDist)
      ensures probe < |indices| && Insertable(indices, hashValue, probe)
    {
      var cap := |indices|;
      probe := start;
      var dist := startDist;
      while dist != 0
        invariant 0 <= dist <= startDist && probe == At(cap, Desired(cap, hashValue), dist)
        invariant StopsAt(indices, probe, dist)
      {
        var back := Prev(cap, probe);
        if indices[back].Some? && DistAt(indices, back) >= dist - 1 {
          break;
        }
        probe, dist := back, dist - 1;
      }
      assert Dist(cap, hashValue, probe) == dist;
    }

    method Insert(header: Header, hashValue: nat)
      modifies this`slots, this`inserted
      ensures inserted == (old(inserted) + 1) % WORD
      ensures slots == [Slot(hashValue, header, None)] + old(slots)
    {
      inserted := (inserted + 1) % WORD;
      slots := [Slot(hashValue, header, None)] + slots;
    }

    // Adds a slot of a new name, and the bucket entry that points at it.
    method InsertHead(header: Header, hashValue: nat, at: nat)
      requires Coherent(None) && |slots| < Usable(|indices|) && |slots| + 1 < WORD - 1
      requires NameAbsent(slots, header.name) && hashValue == hash(header.name)
      requires at < |indices| && Insertable(indices, hashValue, at)
      modifies this`indices, this`slots, this`inserted
      ensures Coherent(None) && |indices| == old(|indices|)
      ensures slots == [Slot(hashValue, header, None)] + old(slots)
    {
      ghost var was, ins, before := slots, inserted, indices;
      PendingNotHead(indices, slots, inserted);
      IdAfterPush(-1, inserted);
      Insert(header, hashValue);
      PlaceAt(at, Pos(Id(0, inserted), hashValue));
      PushKeepsLinks(was, slots[0], None, ins);
      PushKeepsHeaded(before, indices, was, slots, ins, None);
      SpareBucket(indices, slots, inserted);
    }

    method IndexVacant(header: Header, hashValue: nat, dist: nat, probe: nat, statik: Static) returns (index: Index)
      requires Valid() && Coherent(None) && Len(header) <= maxSize
      requires header.sensitive || |slots| < Usable(|indices|)
      requires NameAbsent(slots, header.name) && hashValue == hash(header.name)
      requires dist < |indices| && probe == At(|indices|, Desired(|indices|, hashValue), dist)
      requires StopsAt(indices, probe, dist) && Insertable(indices, hashValue, probe)
      modifies this
      ensures Valid() && maxSize == old(maxSize)
      ensures (index, Contents()) == IndexDynamic(old(Contents()), maxSize, header, statik)
    {
      hide Linked, Hashed, Headed, Insertable, EvictTo, Shrinks, StopsAt, NoRepeats, NoneSensitive, Size, Headers,
           PowerOfTwo;
      NameInFifo(slots, header.name);
      NoNameNoHeader(Contents(), header);
      if header.sensitive {
        return StaticIndex(statik, header);
      }
      InsertKeeps(Contents(), header, maxSize);
      size := size + Len(header);
      var evicted := Converge(None, Slot(0, header, None), 0, Len(header));
      ShrinksStop(old(indices), indices, probe, dist);
      var at := probe;
      if evicted {
        at := WalkBack(hashValue, probe, dist);
      }
      PushHeader(slots, hashValue, header, None);
      InsertHead(header, hashValue, at);
      index := if statik.Some? then InsertedValue(statik.value.0, 0) else Inserted(0);
    }

    // Follows a chain from its oldest slot, looking for the header's value.
    method SearchChain(header: Header, first: nat) returns (found: bool, index: nat)
      requires Coherent(None) && first < WORD && Real(first, inserted) < |slots|
      requires slots[Real(first, inserted)].header.name == header.name && Oldest(slots, Real(first, inserted))
      ensures index < WORD && Real(index, inserted) < |slots|
      ensures found ==> SameNameValue(slots[Real(index, inserted)].header, header)
      ensures !found ==> !HasHeader(Contents(), header) && IsTail(slots, header.name, Some(Real(index, inserted)))
    {
      hide Headed, Hashed, WellPlaced, NoMatchFrom;
      index := first;
      ChainStart(slots, header, Real(first, inserted));
      while true
        invariant index < WORD && Real(index, inserted) < |slots|
        invariant slots[Real(index, inserted)].header.name == header.name
        invariant NoMatchFrom(slots, header, Real(index, inserted) + 1)
        decreases Real(index, inserted)
      {
        var r := Real(index, inserted);
        assert LinkOk(slots, inserted, r);
        if slots[r].header.value == header.value {
          return true, index;
        }
        if slots[r].next.None? {
          ChainEnd(slots, inserted, header, r);
          return false, index;
        }
        ChainStep(slots, header, r, Real(slots[r].next.value, inserted));
        index := slots[r].next.value;
      }
    }

    // Adds a slot of a name that was present, linking it behind slot `t` unless that was evicted.
    method InsertTail(header: Header, hashValue: nat, index: nat, ghost tail: Slot, ghost t: nat)
      requires Coherent(Pending(Some(index), tail, t)) && Appending(Some(index), tail, t)
      requires |slots| < Usable(|indices|) && |slots| + 1 < WORD - 1
      requires hashValue == hash(header.name) == tail.hash
      requires IsTail(slots, header.name, if t < |slots| then Some(t) else None)
      modifies this`slots, this`inserted
      ensures Coherent(None)
      ensures Headers(slots) == [header] + Headers(old(slots))
    {
      ghost var was, ins := slots, inserted;
      ghost var at := if t < |slots| then Some(t) else None;
      ghost var s := Slot(hashValue, header, None);
      Insert(header, hashValue);
      IdAfterPush(-1, ins);
      RealOfId(t, ins);
      RealAfterPush(index, ins);
      var newReal := Real(index, inserted);
      if newReal < |slots| {
        slots := slots[newReal := slots[newReal].(next := Some(Id(0, inserted)))];
      }
      assert slots == PushSlot(was, s, at, ins);
      PushKeepsLinks(was, s, at, ins);
      PushKeepsHeaded(indices, indices, was, slots, ins, if t < |was| then None else Some(Pos(Id(-1, ins), tail.hash)));
    }

    // Makes room for, and adds, a header whose name is at the chain tail `index`.
    method InsertOccupied(header: Header, hashValue: nat, index: nat)
      requires Valid() && Coherent(None) && Len(header) <= maxSize
      requires !header.sensitive && |slots| < Usable(|indices|) && !HasHeader(Contents(), header)
      requires hashValue == hash(header.name) && index < WORD
      requires IsTail(slots, header.name, Some(Real(index, inserted)))
      modifies this
      ensures Valid() && maxSize == old(maxSize)
      ensures Contents() == HpackFifo.Insert(old(Contents()), header, maxSize)
    {
      hide Linked, Headed, WellPlaced, EvictTo, Shrinks, Size, PowerOfTwo, NoneSensitive, NoRepeats, IsTail,
           HasHeader, Headers;
      ghost var t := Real(index, inserted);
      TailName(slots, header.name, t);
      ghost var tail := slots[t];
      InsertKeeps(Contents(), header, maxSize);
      IdOfReal(index, inserted);
      TailUnlinked(slots, inserted, t);
      size := size + Len(header);
      var _ := Converge(Some(index), tail, t, Len(header));
      TailAfterEvict(old(slots), slots, header.name, t);
      InsertTail(header, hashValue, index, tail, t);
    }

    method IndexOccupied(header: Header, hashValue: nat, first: nat, statik: Static) returns (result: Index)
      requires Valid() && Coherent(None) && Len(header) <= maxSize
      requires header.sensitive || |slots| < Usable(|indices|)
      requires hashValue == hash(header.name) && first < WORD && Real(first, inserted) < |slots|
      requires slots[Real(first, inserted)].header.name == header.name && Oldest(slots, Real(first, inserted))
      modifies this
      ensures Valid() && maxSize == old(maxSize)
      ensures (result, Contents()) == IndexDynamic(old(Contents()), maxSize, header, statik)
    {
      hide Coherent, Size, PowerOfTwo, NoneSensitive, NoRepeats, IsTail, HasHeader, HasName, Oldest, EvictTo;
      var found, index := SearchChain(header, first);
      var realIdx := Real(index, inserted);
      if found {
        OnlyMatch(Contents(), header, realIdx);
        return Indexed(realIdx + DYN_OFFSET, header);
      }
      OnlyTail(slots, header.name, realIdx);
      if header.sensitive {
        return NameOnly(realIdx + DYN_OFFSET, header);
      }
      InsertOccupied(header, hashValue, index);
      result := InsertedValue(if statik.Some? then statik.value.0 else realIdx + DYN_OFFSET, 0);
    }

    method ReinsertEntryInOrder(pos: Option<Pos>, ghost o: Indices, ghost first: nat, ghost ob: nat)
      requires Ordered(o) && Distinct(o) && Ideal(o, first) && ob < |o| && pos == o[ob]
      requires Carried(o, indices, first, Offset(|o|, first, ob))
      modifies this`indices
      ensures Carried(o, indices, first, Offset(|o|, first, ob) + 1)
    {
      hide Origin, Kept, Ordered, Distinct;
      if pos.Some? {
        var cap := |indices|;
        var probe := Desired(cap, pos.value.hash);
        ghost var t := 0;
        RoomInOrder(o, indices, first, ob);
        while indices[probe].Some?
          invariant t <= DistAt(o, ob) && probe == At(cap, Desired(cap, pos.value.hash), t)
          invariant t > 0 ==> indices[At(cap, Desired(cap, pos.value.hash), t - 1)].Some?
          decreases DistAt(o, ob) - t
        {
          probe, t := Next(cap, probe), t + 1;
        }
        CarryOne(o, indices, first, ob, t);
        indices := indices[probe := pos];
      } else {
        CarryNone(o, indices, first, ob);
      }
    }

    method FirstIdeal() returns (first: nat)
      requires WellPlaced(indices) && exists b :: 0 <= b < |indices| && indices[b].Some?
      ensures Ideal(indices, first)
    {
      ghost var b: nat :| b < |indices| && indices[b].Some?;
      ghost var e: nat :| e < |indices| && indices[e].None?;
      ghost var goal := IdealExists(indices, b, e);
      first := 0;
      while !(indices[first].Some? && DistAt(indices, first) == 0)
        invariant first <= goal
        decreases goal - first
      {
        first := first + 1;
      }
    }

    // Reinserts every entry of `o`, in order from the first ideally placed one.
    method CarryOver(o: Indices, first: nat)
      requires Ordered(o) && Distinct(o) && Ideal(o, first)
      requires Carried(o, indices, first, 0)
      modifies this`indices
      ensures Carried(o, indices, first, |o|)
    {
      hide Carried, Ordered, Distinct;
      for i := first to |o|
        invariant Carried(o, indices, first, i - first)
      {
        ReinsertEntryInOrder(o[i], o, first, i);
      }
      for i := 0 to first
        invariant Carried(o, indices, first, |o| - first + i)
      {
        ReinsertEntryInOrder(o[i], o, first, i);
      }
    }

    // Doubles the array without bucket stealing.
    method Grow(newRawCap: nat)
      requires Coherent(None) && slots != [] && newRawCap == 2 * |indices|
      modifies this`indices, this`mask
      ensures Coherent(None) && |indices| == newRawCap
      ensures NoFurther(old(indices), indices)
    {
      hide Origin, Kept, Linked, Hashed, Headed, NoFurther, Ordered, Distinct;
      SomeBucket(indices, slots, inserted);
      var first := FirstIdeal();
      var o := indices;
      indices := seq(newRawCap, _ => None);
      mask := newRawCap - 1;
      CarriedNothing(o, indices, first);
      CarryOver(o, first);
      CarriedSame(o, indices, first);
      CarriedNoFurther(o, indices, first);
      SameHeads(o, indices, slots, inserted);
      SpareBucket(indices, slots, inserted);
    }

    method ReserveOne()
      requires Valid()
      modifies this`indices, this`mask
      ensures Valid() && Coherent(None) && |slots| < Usable(|indices|)
    {
      hide Linked, Hashed, Headed, WellPlaced, NoFurther, NoRepeats, NoneSensitive, Size, Headers;
      var len := |slots|;
      if len == Usable(|indices|) {
        if len == 0 {
          mask := 7;
          indices := seq(8, _ => None);
          EmptyBuckets(indices, slots, inserted, hash);
          assert PowerOfTwo(8) by { assert PowerOfTwo(1) && PowerOfTwo(2) && PowerOfTwo(4); }
        } else {
          Grow(2 * |indices|);
        }
      }
    }

    // Probes for the header's name; the caller has made sure some bucket is empty.
    method Lookup(header: Header, hashValue: nat) returns (hit: bool, dist: nat, probe: nat)
      requires Coherent(None) && hashValue == hash(header.name)
      ensures dist < |indices| && probe == At(|indices|, Desired(|indices|, hashValue), dist)
      ensures hit ==>
                && indices[probe].Some? && indices[probe].value.index < WORD
                && var r := Real(indices[probe].value.index, inserted);
                   r < |slots| && slots[r].header.name == header.name && Oldest(slots, r)
      ensures !hit ==>
                && NameAbsent(slots, header.name)
                && StopsAt(indices, probe, dist) && Insertable(indices, hashValue, probe)
    {
      hide Linked, Hashed, Headed, Probing, Oldest, Ordered, Distinct;
      var cap := |indices|;
      probe, dist := Desired(cap, hashValue), 0;
      ProbeStart(indices, slots, inserted, hashValue, header.name);
      while true
        invariant 0 <= dist < cap && probe == At(cap, Desired(cap, hashValue), dist)
        invariant Probing(indices, slots, inserted, hashValue, header.name, dist)
        decreases cap - dist
      {
        if indices[probe].None? || DistAt(indices, probe) < dist {
          ProbeMiss(indices, slots, inserted, hash, header.name, dist);
          MissInsertable(indices, slots, inserted, hashValue, header.name, dist);
          return false, dist, probe;
        }
        var pos := indices[probe].value;
        HeadAt(indices, slots, inserted, probe);
        var slotIdx := Real(pos.index, inserted);
        if pos.hash == hashValue && slots[slotIdx].header.name == header.name {
          return true, dist, probe;
        }
        OtherName(slots, hash, slotIdx, pos.hash, header.name);
        ProbeStep(indices, slots, inserted, hashValue, header.name, dist);
        dist, probe := dist + 1, Next(cap, probe);
        ProbeIsShort(indices, slots, inserted, hashValue, header.name, dist);
      }
    }

    method IndexDynamicHeader(header: Header, statik: Static) returns (index: Index)
      requires Valid() && Len(header) * 4 <= maxSize * 3
      modifies this
      ensures Valid() && maxSize == old(maxSize)
      ensures (index, Contents()) == IndexDynamic(old(Contents()), maxSize, header, statik)
    {
      hide Linked, Hashed, Headed, WellPlaced, EvictTo, NoRepeats, NoneSensitive, Size, PowerOfTwo, Insertable,
           StopsAt, Oldest;
      if Len(header) + size < maxSize || !header.sensitive {
        ReserveOne();
      }
      if indices == [] {
        return StaticIndex(statik, header);
      }
      var hashValue := hash(header.name);
      var hit, dist, probe := Lookup(header, hashValue);
      if hit {
        index := IndexOccupied(header, hashValue, indices[probe].value.index, statik);
      } else {
        index := IndexVacant(header, hashValue, dist, probe, statik);
      }
    }

    /** Finds or makes the representation of a header. */
    method Index(header: Header) returns (index: Index)
      requires Valid()
      modifies this
      ensures Valid() && maxSize == old(maxSize)
      ensures (index, Contents()) == IndexHeader(old(Contents()), maxSize, header)
      ensures NoneUnstored(old(Contents())) ==>
                && NoneUnstored(Contents())
                && (HasHeader(Contents(), header) <==>
                      || HasHeader(old(Contents()), header)
                      || (!header.sensitive && !Unstored(header) && !StaticHeader(header) && Small(header, maxSize)))
    {
      hide IndexStatic, SkipValueIndex, Valid, IndexDynamic, NoneUnstored, Unstored, StaticHeader, HasHeader;
      if NoneUnstored(Contents()) {
        IndexUnstored(Contents(), maxSize, header);
        Chooses(Contents(), maxSize, header);
      }
      var statik := IndexStatic(header);
      if SkipValueIndex(header) {
        return StaticIndex(statik, header);
      }
      if statik.Some? && statik.value.1 {
        return Indexed(statik.value.0, header);
      }
      if Len(header) * 4 > maxSize * 3 {
        return StaticIndex(statik, header);
      }
      index := IndexDynamicHeader(header, statik);
    }

    method Clear()
      requires Unallocated() || (Coherent(None) && PowerOfTwo(|indices|))
      requires maxSize < WORD
      modifies this`size, this`indices, this`slots, this`inserted
      ensures Valid() && Contents() == []
    {
      size := 0;
      indices := seq(|indices|, _ => None);
      slots := [];
      inserted := 0;
      if |indices| > 0 {
        EmptyBuckets(indices, slots, inserted, hash);
      }
    }

    method Resize(newSize: nat)
      requires Valid() && newSize < WORD
      modifies this
      ensures Valid() && maxSize == newSize
      ensures Contents() == EvictTo(old(Contents()), newSize)
    {
      hide Linked, Hashed, Headed, WellPlaced, Size, EvictTo, NoRepeats, NoneSensitive, PowerOfTwo, Shrinks, Headers;
      maxSize := newSize;
      if newSize == 0 {
        EvictAll(Contents());
        Clear();
      } else if size > maxSize {
        EvictKeeps(Contents(), newSize);
        var _ := Converge(None, slots[0], 0, 0);
      } else {
        EvictNone(Contents(), newSize);
      }
    }

    /** Any run of calls answers, and ends, as a linear scan of a plain FIFO would. */
    method Perform(calls: seq<Call>) returns (answers: seq<Index>)
      requires Valid() && forall i :: 0 <= i < |calls| && calls[i].Resizing? ==> calls[i].newSize < WORD
      modifies this
      ensures Valid()
      ensures var r := ScanRun(old(Contents()), old(maxSize), calls);
              answers == r.0 && Contents() == r.1 && maxSize == r.2
      ensures NoneUnstored(old(Contents())) ==> NoneUnstored(Contents())
    {
      hide Valid, IndexHeader, EvictTo, NoneUnstored, HasHeader, Unstored, StaticHeader, Small;
      if NoneUnstored(Contents()) {
        RunUnstored(Contents(), maxSize, calls);
      }
      answers := [];
      ghost var whole := ScanRun(Contents(), maxSize, calls);
      assert calls[0..] == calls;
      for k := 0 to |calls|
        invariant Valid()
        invariant var r := ScanRun(Contents(), maxSize, calls[k..]);
                  whole.0 == answers + r.0 && whole.1 == r.1 && whole.2 == r.2
      {
        assert calls[k..][0] == calls[k] && calls[k..][1..] == calls[k + 1..];
        match calls[k]
        case Indexing(h) =>
          var i := Index(h);
          answers := answers + [i];
        case Resizing(n) =>
          Resize(n);
      }
    }

    constructor (hash: Name -> nat, maxSize: nat, capacity: nat)
      requires maxSize < WORD
      ensures Valid() && Contents() == [] && this.maxSize == maxSize && this.hash == hash
    {
      this.hash := hash;
      this.maxSize := maxSize;
      slots, inserted, size := [], 0, 0;
      if capacity == 0 {
        mask, indices := 0, [];
      } else {
        var raw := NextPowerOfTwo(1, ToRawCapacity(capacity));
        var cap := if raw < 8 then 8 else raw;
        mask, indices := cap - 1, seq(cap, _ => None);
        EmptyBuckets(seq(cap, _ => None), [], 0, hash);
        assert PowerOfTwo(8) by { assert PowerOfTwo(1) && PowerOfTwo(2) && PowerOfTwo(4); }
      }
    }
  }

  /** No bucket points at a slot that another slot links to. */
  lemma NextNotHead(ix: Indices, slots: seq<Slot>, inserted: nat, pending: Option<Pos>)
    requires 0 < |slots| < WORD - 1 && Linked(slots, inserted) && Headed(ix, slots, inserted, pending)
    requires slots[|slots| - 1].next.Some?
    ensures IndexUnused(ix, slots[|slots| - 1].next.value)
  {
    var n := |slots| - 1;
    var x := slots[n].next.value;
    assert LinkOk(slots, inserted, n);
    forall c | 0 <= c < |ix| && ix[c].Some?
      ensures ix[c].value.index != x
    {
      var p := ix[c].value;
      assert Has(ix, p);
      if IsHead(slots, inserted, p) {
        assert p.index == x ==> SameName(slots, Real(x, inserted), n);
      } else {
        IdOfReal(x, inserted);
        IdInjective(-1, Real(x, inserted), inserted);
      }
    }
  }

  lemma LastIsHead(ix: Indices, slots: seq<Slot>, inserted: nat, pending: Option<Pos>)
    requires |slots| > 0 && Headed(ix, slots, inserted, pending)
    ensures Has(ix, HeadPos(slots, inserted, |slots| - 1))
  {
    LastIsOldest(slots);
    assert Reached(ix, slots, inserted, |slots| - 1);
  }

  lemma PendingNotHead(ix: Indices, slots: seq<Slot>, inserted: nat)
    requires |slots| < WORD - 1 && Headed(ix, slots, inserted, None)
    ensures IndexUnused(ix, Id(-1, inserted))
  {
  }

  lemma TailUnlinked(slots: seq<Slot>, inserted: nat, t: nat)
    requires Linked(slots, inserted) && t < |slots|
    requires IsTail(slots, slots[t].header.name, Some(t))
    ensures slots[t].next.None?
  {
    assert LinkOk(slots, inserted, t);
  }

  lemma ShrinksReflexive(ix: Indices)
    ensures Shrinks(ix, ix)
  {
  }

  /** Popping the last slot of a table that is too large is one step of the FIFO's eviction. */
  lemma EvictOne(slots: seq<Slot>, limit: nat)
    requires Size(Headers(slots)) > limit
    ensures |slots| > 0
    ensures Size(Headers(slots)) == Size(Headers(slots[..|slots| - 1])) + Len(slots[|slots| - 1].header)
    ensures EvictTo(Headers(slots), limit) == EvictTo(Headers(slots[..|slots| - 1]), limit)
  {
    EvictPop(Headers(slots), limit);
    assert Headers(slots[..|slots| - 1]) == Headers(slots)[..|slots| - 1];
  }

  lemma ShrinksStop(before: Indices, after: Indices, b: nat, dist: nat)
    requires Shrinks(before, after) && b < |before| && StopsAt(before, b, dist)
    ensures StopsAt(after, b, dist)
  {
  }

  /** Pushing a slot pushes its header. */
  lemma PushHeader(slots: seq<Slot>, hashValue: nat, header: Header, next: Option<nat>)
    ensures Headers([Slot(hashValue, header, next)] + slots) == [header] + Headers(slots)
  {
  }

  /** In a FIFO without repeats the match found is the one a scan finds. */
  lemma OnlyMatch(es: Entries, h: Header, i: nat)
    requires NoRepeats(es) && i < |es| && SameNameValue(es[i], h)
    ensures HasHeader(es, h) && NewestEqual(es, h) == i
  {
  }

  lemma TailName(slots: seq<Slot>, n: Name, t: nat)
    requires IsTail(slots, n, Some(t))
    ensures t < |slots| && slots[t].header.name == n
  {
  }

  lemma TailAfterEvict(slots: seq<Slot>, kept: seq<Slot>, n: Name, t: nat)
    requires IsTail(slots, n, Some(t)) && kept <= slots
    ensures IsTail(kept, n, if t < |kept| then Some(t) else None)
  {
  }

  lemma OnlyTail(slots: seq<Slot>, n: Name, t: nat)
    requires IsTail(slots, n, Some(t))
    ensures HasName(Headers(slots), n) && NewestNamed(Headers(slots), n) == t
  {
    assert Headers(slots)[t].name == n;
  }

  /** No slot at or after `from` (older) equals the header. */
  ghost predicate NoMatchFrom(slots: seq<Slot>, h: Header, from: nat) {
    forall k :: from <= k < |slots| ==> !SameNameValue(slots[k].header, h)
  }

  lemma ChainStart(slots: seq<Slot>, h: Header, r: nat)
    requires r < |slots| && slots[r].header.name == h.name && Oldest(slots, r)
    ensures NoMatchFrom(slots, h, r + 1)
  {
    forall k | r + 1 <= k < |slots|
      ensures !SameNameValue(slots[k].header, h)
    {
      assert !SameName(slots, r, k);
    }
  }

  lemma ChainStep(slots: seq<Slot>, h: Header, r: nat, j: nat)
    requires r < |slots| && slots[r].header.name == h.name && slots[r].header.value != h.value
    requires NoMatchFrom(slots, h, r + 1) && NextNewer(slots, r, j)
    ensures NoMatchFrom(slots, h, j + 1)
  {
    forall k | j + 1 <= k < |slots|
      ensures !SameNameValue(slots[k].header, h)
    {
      if k < r {
        assert !SameName(slots, r, k);
      }
    }
  }

  lemma ChainEnd(slots: seq<Slot>, inserted: nat, h: Header, r: nat)
    requires r < |slots| && slots[r].header.name == h.name && slots[r].header.value != h.value
    requires NoMatchFrom(slots, h, r + 1) && LinkOk(slots, inserted, r) && slots[r].next.None?
    ensures !HasHeader(Headers(slots), h) && IsTail(slots, h.name, Some(r))
  {
    forall k | 0 <= k < r
      ensures slots[k].header.name != h.name
    {
      assert !SameName(slots, r, k);
    }
  }

  lemma {:induction false} IdealExists(ix: Indices, b: nat, e: nat) returns (f: nat)
    requires Ordered(ix) && b < |ix| && ix[b].Some? && e < |ix| && ix[e].None?
    ensures Ideal(ix, f)
    decreases Offset(|ix|, e, b)
  {
    assert OrderedAt(ix, b);
    if DistAt(ix, b) == 0 {
      f := b;
    } else {
      f := IdealExists(ix, Prev(|ix|, b), e);
    }
  }

  lemma CarriedNothing(o: Indices, w: Indices, first: nat)
    requires first < |o| && |w| == 2 * |o| && forall b :: 0 <= b < |w| ==> w[b].None?
    ensures Carried(o, w, first, 0)
  {
  }

  lemma SameHeads(ix: Indices, ix': Indices, slots: seq<Slot>, inserted: nat)
    requires Headed(ix, slots, inserted, None) && forall q :: Has(ix', q) <==> Has(ix, q)
    ensures Headed(ix', slots, inserted, None)
  {
    forall i | 0 <= i < |slots|
      ensures Reached(ix', slots, inserted, i)
    {
      assert Reached(ix, slots, inserted, i);
    }
  }

  lemma SomeBucket(ix: Indices, slots: seq<Slot>, inserted: nat)
    requires slots != [] && Headed(ix, slots, inserted, None)
    ensures exists b :: 0 <= b < |ix| && ix[b].Some?
  {
    LastIsOldest(slots);
    assert Reached(ix, slots, inserted, |slots| - 1);
  }

  lemma EmptyBuckets(ix: Indices, slots: seq<Slot>, inserted: nat, hash: Name -> nat)
    requires |ix| > 0 && slots == [] && forall b :: 0 <= b < |ix| ==> ix[b].None?
    ensures WellPlaced(ix) && Headed(ix, slots, inserted, None)
    ensures Linked(slots, inserted) && Hashed(slots, hash)
  {
    assert ix[0].None?;
  }

  /** The least power of two at least `n`, searched upwards from `p`. */
  function NextPowerOfTwo(p: nat, n: nat): (r: nat)
    requires PowerOfTwo(p)
    ensures PowerOfTwo(r) && r >= n
    decreases n - p
  {
    if p >= n then p
    else
      assert PowerOfTwo(2 * p);
      NextPowerOfTwo(2 * p, n)
  }

  /** Where a lookup misses, the new entry may go. */
  lemma MissInsertable(ix: Indices, slots: seq<Slot>, inserted: nat, hash: nat, n: Name, dist: nat)
    requires 0 < |ix| && dist < |ix|
    requires Probing(ix, slots, inserted, hash, n, dist)
    requires StopsAt(ix, At(|ix|, Desired(|ix|, hash), dist), dist)
    ensures Insertable(ix, hash, At(|ix|, Desired(|ix|, hash), dist))
  {
    var b := At(|ix|, Desired(|ix|, hash), dist);
    assert Dist(|ix|, hash, b) == dist;
    if dist > 0 {
      assert Prev(|ix|, b) == At(|ix|, Desired(|ix|, hash), dist - 1);
    }
  }

  /** Slots of equal name have equal hash. */
  lemma OtherName(slots: seq<Slot>, hash: Name -> nat, i: nat, h: nat, n: Name)
    requires Hashed(slots, hash) && i < |slots| && slots[i].hash == h
    requires h != hash(n) || slots[i].header.name != n
    ensures slots[i].header.name != n
  {
  }
}

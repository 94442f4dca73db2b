/**
 The per-name chains of the encoder table.

 Slots are kept newest first.  A chain links the slots of one name from oldest to
 newest; its oldest slot is the one the bucket array points at.  Links and buckets hold
 positions that stay valid while slots are pushed at the front: the slot number minus
 the count of insertions, wrapping at the machine word.
 */
module TableChains {
  import opened Wrappers
  import opened HpackHeader
  import opened RobinHood

  const WORD := 0x1_0000_0000_0000_0000

  datatype Slot = Slot(hash: nat, header: Header, next: Option<nat>)

  // ----- wrapping positions -----

  /** `slot.wrapping_sub(inserted)` */
  function Id(slot: int, inserted: nat): (x: nat)
    ensures x < WORD
  {
    (slot - inserted) % WORD
  }

  /** `index.wrapping_add(inserted)` */
  function Real(index: nat, inserted: nat): (r: nat)
    ensures r < WORD
  {
    (index + inserted) % WORD
  }

  lemma RealOfId(slot: nat, inserted: nat)
    requires slot < WORD
    ensures Real(Id(slot, inserted), inserted) == slot
  {
  }

  lemma IdOfReal(index: nat, inserted: nat)
    requires index < WORD
    ensures Id(Real(index, inserted), inserted) == index
  {
  }

  lemma IdInjective(i: int, j: int, inserted: nat)
    requires -1 <= i < j < WORD - 1
    ensures Id(i, inserted) != Id(j, inserted)
  {
  }

  /** Counting one more insertion and moving one slot back leaves the position alone. */
  lemma IdAfterPush(i: int, inserted: nat)
    ensures Id(i + 1, (inserted + 1) % WORD) == Id(i, inserted)
  {
  }

  // ----- chains -----

  predicate SameName(slots: seq<Slot>, i: nat, j: nat)
    requires i < |slots| && j < |slots|
  {
    slots[i].header.name == slots[j].header.name
  }

  /** No older slot has this slot's name. */
  ghost predicate Oldest(slots: seq<Slot>, i: nat)
    requires i < |slots|
  {
    forall k :: i < k < |slots| ==> !SameName(slots, i, k)
  }

  /** `j` is the next newer slot of slot `i`'s name. */
  ghost predicate NextNewer(slots: seq<Slot>, i: nat, j: nat)
    requires i < |slots|
  {
    j < i && SameName(slots, i, j) && forall k :: j < k < i ==> !SameName(slots, i, k)
  }

  ghost predicate LinkOk(slots: seq<Slot>, inserted: nat, i: nat)
    requires i < |slots|
  {
    match slots[i].next
    case None => forall k :: 0 <= k < i ==> !SameName(slots, i, k)
    case Some(x) => x < WORD && NextNewer(slots, i, Real(x, inserted))
  }

  /** Every slot links to the next newer one of its name, if there is one. */
  ghost predicate Linked(slots: seq<Slot>, inserted: nat) {
    forall i :: 0 <= i < |slots| ==> LinkOk(slots, inserted, i)
  }

  function HeadPos(slots: seq<Slot>, inserted: nat, i: nat): (p: Pos)
    requires i < |slots|
  {
    Pos(Id(i, inserted), slots[i].hash)
  }

  /** `p` points at the oldest slot of some name. */
  ghost predicate IsHead(slots: seq<Slot>, inserted: nat, p: Pos) {
    && p.index < WORD
    && var r := Real(p.index, inserted);
       r < |slots| && Oldest(slots, r) && p.hash == slots[r].hash
  }

  /** Slot `i`, if oldest of its name, is pointed at. */
  ghost predicate Reached(ix: Indices, slots: seq<Slot>, inserted: nat, i: nat)
    requires i < |slots|
  {
    Oldest(slots, i) ==> Has(ix, HeadPos(slots, inserted, i))
  }

  /**
   The buckets hold exactly the chain heads, plus possibly one `pending` entry for the
   slot about to be pushed (its chain was evicted to make room for it).
   */
  ghost predicate Headed(ix: Indices, slots: seq<Slot>, inserted: nat, pending: Option<Pos>) {
    && (forall i :: 0 <= i < |slots| ==> Reached(ix, slots, inserted, i))
    && (forall p :: Has(ix, p) ==> IsHead(slots, inserted, p) || pending == Some(p))
    && (pending.Some? ==> Has(ix, pending.value) && pending.value.index == Id(-1, inserted))
  }

  ghost predicate Hashed(slots: seq<Slot>, hash: Name -> nat) {
    forall i :: 0 <= i < |slots| ==> slots[i].hash == hash(slots[i].header.name)
  }

  // ----- evicting the oldest slot -----

  lemma EvictKeepsLinks(slots: seq<Slot>, inserted: nat)
    requires |slots| > 0 && Linked(slots, inserted)
    ensures Linked(slots[..|slots| - 1], inserted)
  {
    var rest := slots[..|slots| - 1];
    forall i | 0 <= i < |rest|
      ensures LinkOk(rest, inserted, i)
    {
      assert LinkOk(slots, inserted, i);
      assert forall k :: 0 <= k < i ==> SameName(rest, i, k) == SameName(slots, i, k);
    }
  }

  /** Dropping the last slot makes a slot oldest exactly when the last one was linked to it. */
  lemma OldestAfterEvict(slots: seq<Slot>, inserted: nat, i: nat)
    requires |slots| > 0 && Linked(slots, inserted) && i < |slots| - 1
    ensures var last := slots[|slots| - 1];
            Oldest(slots[..|slots| - 1], i) <==>
              Oldest(slots, i) || (last.next.Some? && Real(last.next.value, inserted) == i)
  {
    var n := |slots| - 1;
    var rest := slots[..n];
    assert LinkOk(slots, inserted, n);
    assert forall k :: 0 <= k < n ==> SameName(rest, i, k) == SameName(slots, i, k);
    if slots[n].next.Some? {
      var j := Real(slots[n].next.value, inserted);
      assert NextNewer(slots, n, j);
      if i < j && SameName(slots, i, n) {
        assert SameName(slots, i, j);
      }
      if j < i {
        assert !SameName(slots, n, i);
      }
      if i == j {
        forall k | i < k < n
          ensures !SameName(rest, i, k)
        {
          assert !SameName(slots, n, k);
        }
      }
    } else {
      assert !SameName(slots, n, i);
    }
  }

  lemma LastIsOldest(slots: seq<Slot>)
    requires |slots| > 0
    ensures Oldest(slots, |slots| - 1)
  {
  }

  /**
   Buckets after an eviction: the evicted head is gone, and if it was linked the bucket
   points at the next newer slot, if it was the slot being appended to at the pending one.
   */
  ghost predicate EvictedBuckets(ix: Indices, ix': Indices, gone: Pos, heir: Option<Pos>) {
    forall q :: Has(ix', q) <==> (Has(ix, q) && q.index != gone.index) || heir == Some(q)
  }

  /** The entry that takes the evicted head's bucket, if any. */
  function Successor(last: Slot, inserted: nat, appendTo: bool): (p: Option<Pos>) {
    if last.next.Some? then Some(Pos(last.next.value, last.hash))
    else if appendTo then Some(Pos(Id(-1, inserted), last.hash))
    else None
  }

  lemma EvictKeepsReached(ix: Indices, ix': Indices, slots: seq<Slot>, inserted: nat, hash: Name -> nat,
                          pending: Option<Pos>, appendTo: bool, i: nat)
    requires 0 < |slots| < WORD - 1 && Linked(slots, inserted) && Hashed(slots, hash)
    requires Headed(ix, slots, inserted, pending)
    requires EvictedBuckets(ix, ix', HeadPos(slots, inserted, |slots| - 1),
                            Successor(slots[|slots| - 1], inserted, appendTo))
    requires i < |slots| - 1
    ensures Reached(ix', slots[..|slots| - 1], inserted, i)
  {
    hide Linked, Hashed, Id, Real;
    var n := |slots| - 1;
    var rest := slots[..n];
    OldestAfterEvict(slots, inserted, i);
    if Oldest(rest, i) {
      if Oldest(slots, i) {
        assert Reached(ix, slots, inserted, i);
        IdInjective(i, n, inserted);
      } else {
        LinkedHash(slots, inserted, hash);
        IdOfReal(slots[n].next.value, inserted);
      }
      assert Has(ix', HeadPos(rest, inserted, i));
    }
  }

  lemma LinkedHash(slots: seq<Slot>, inserted: nat, hash: Name -> nat)
    requires |slots| > 0 && Linked(slots, inserted) && Hashed(slots, hash)
    requires slots[|slots| - 1].next.Some?
    ensures var x := slots[|slots| - 1].next.value;
            && x < WORD && Real(x, inserted) < |slots| - 1
            && slots[Real(x, inserted)].hash == slots[|slots| - 1].hash
  {
    assert LinkOk(slots, inserted, |slots| - 1);
  }

  lemma EvictKeepsHeads(ix: Indices, ix': Indices, slots: seq<Slot>, inserted: nat, hash: Name -> nat,
                        pending: Option<Pos>, appendTo: bool, p: Pos)
    requires 0 < |slots| < WORD - 1 && Linked(slots, inserted) && Hashed(slots, hash)
    requires Headed(ix, slots, inserted, pending)
    requires EvictedBuckets(ix, ix', HeadPos(slots, inserted, |slots| - 1),
                            Successor(slots[|slots| - 1], inserted, appendTo))
    requires Has(ix', p)
    ensures IsHead(slots[..|slots| - 1], inserted, p) || pending == Some(p)
         || (slots[|slots| - 1].next.None? && appendTo && p == Pos(Id(-1, inserted), slots[|slots| - 1].hash))
  {
    hide Linked, Hashed, Id, Real;
    var n := |slots| - 1;
    if Has(ix, p) && p.index != Id(n, inserted) {
      if IsHead(slots, inserted, p) {
        var r := Real(p.index, inserted);
        IdOfReal(p.index, inserted);
        OldestAfterEvict(slots, inserted, r);
      }
    } else if slots[n].next.Some? {
      LinkedHash(slots, inserted, hash);
      OldestAfterEvict(slots, inserted, Real(slots[n].next.value, inserted));
    }
  }

  lemma EvictKeepsHeaded(ix: Indices, ix': Indices, slots: seq<Slot>, inserted: nat, hash: Name -> nat,
                         pending: Option<Pos>, appendTo: bool)
    requires 0 < |slots| < WORD - 1 && Linked(slots, inserted) && Hashed(slots, hash)
    requires Headed(ix, slots, inserted, pending)
    requires pending.Some? ==> !appendTo
    requires EvictedBuckets(ix, ix', HeadPos(slots, inserted, |slots| - 1),
                            Successor(slots[|slots| - 1], inserted, appendTo))
    ensures var last := slots[|slots| - 1];
            var pending' := if last.next.None? && appendTo then Some(Pos(Id(-1, inserted), last.hash)) else pending;
            Headed(ix', slots[..|slots| - 1], inserted, pending')
  {
    var n := |slots| - 1;
    var rest := slots[..n];
    forall i | 0 <= i < n
      ensures Reached(ix', rest, inserted, i)
    {
      EvictKeepsReached(ix, ix', slots, inserted, hash, pending, appendTo, i);
    }
    forall p | Has(ix', p)
      ensures IsHead(rest, inserted, p) || pending == Some(p)
           || (slots[n].next.None? && appendTo && p == Pos(Id(-1, inserted), slots[n].hash))
    {
      EvictKeepsHeads(ix, ix', slots, inserted, hash, pending, appendTo, p);
    }
    IdInjective(-1, n, inserted);
  }

  // ----- pushing a new slot -----

  lemma RealAfterPush(x: nat, inserted: nat)
    requires Real(x, inserted) < WORD - 1
    ensures Real(x, (inserted + 1) % WORD) == Real(x, inserted) + 1
  {
  }

  /** `slots'` is `slots` behind a new slot, links apart. */
  ghost predicate Pushed(slots: seq<Slot>, slots': seq<Slot>) {
    && |slots'| == |slots| + 1
    && forall i :: 0 < i < |slots'| ==>
         slots'[i].header == slots[i - 1].header && slots'[i].hash == slots[i - 1].hash
  }

  ghost predicate NameAbsent(slots: seq<Slot>, n: Name) {
    forall i :: 0 <= i < |slots| ==> slots[i].header.name != n
  }

  lemma OldestAfterPush(slots: seq<Slot>, slots': seq<Slot>, i: nat)
    requires Pushed(slots, slots') && i < |slots|
    ensures Oldest(slots', i + 1) <==> Oldest(slots, i)
  {
    var i' := i + 1;
    forall k | i < k < |slots|
      ensures SameName(slots, i, k) == SameName(slots', i', k + 1)
    {
    }
    if Oldest(slots, i) {
      forall k | i' < k < |slots'|
        ensures !SameName(slots', i', k)
      {
        assert !SameName(slots, i, k - 1);
      }
    }
  }

  lemma NewIsOldest(slots: seq<Slot>, slots': seq<Slot>)
    requires Pushed(slots, slots')
    ensures Oldest(slots', 0) <==> NameAbsent(slots, slots'[0].header.name)
  {
    if Oldest(slots', 0) {
      forall i | 0 <= i < |slots|
        ensures slots[i].header.name != slots'[0].header.name
      {
        assert !SameName(slots', 0, i + 1);
      }
    }
    if NameAbsent(slots, slots'[0].header.name) {
      forall k | 0 < k < |slots'|
        ensures !SameName(slots', 0, k)
      {
        assert slots[k - 1].header.name != slots'[0].header.name;
      }
    }
  }

  /** A slot that only moved keeps a good link. */
  lemma PushKeepsLink(slots: seq<Slot>, slots': seq<Slot>, inserted: nat, i: nat)
    requires Pushed(slots, slots') && |slots| < WORD - 1 && i < |slots|
    requires LinkOk(slots, inserted, i) && slots'[i + 1].next == slots[i].next
    requires slots[i].next.None? ==> slots[i].header.name != slots'[0].header.name
    ensures LinkOk(slots', (inserted + 1) % WORD, i + 1)
  {
    var i' := i + 1;
    forall k | 0 < k < i'
      ensures SameName(slots', i', k) == SameName(slots, i, k - 1)
    {
    }
    match slots[i].next
    case None =>
      assert !SameName(slots', i', 0);
    case Some(x) =>
      RealAfterPush(x, inserted);
  }

  /** The slots of a table after pushing `s`, linked from the newest slot `tail` of its name if any. */
  function PushSlot(slots: seq<Slot>, s: Slot, tail: Option<nat>, inserted: nat): (r: seq<Slot>)
    requires tail.Some? ==> tail.value < |slots|
    ensures |r| == |slots| + 1
  {
    var r := [s] + slots;
    if tail.Some? then r[tail.value + 1 := slots[tail.value].(next := Some(Id(-1, inserted)))] else r
  }

  /** `tail` is the newest slot named `n`, or nothing is named `n`. */
  ghost predicate IsTail(slots: seq<Slot>, n: Name, tail: Option<nat>) {
    match tail
    case None => NameAbsent(slots, n)
    case Some(t) => t < |slots| && slots[t].header.name == n
                    && forall k :: 0 <= k < t ==> slots[k].header.name != n
  }

  lemma PushKeepsLinks(slots: seq<Slot>, s: Slot, tail: Option<nat>, inserted: nat)
    requires Linked(slots, inserted) && |slots| < WORD - 1
    requires IsTail(slots, s.header.name, tail) && s.next.None?
    ensures Linked(PushSlot(slots, s, tail, inserted), (inserted + 1) % WORD)
    ensures Pushed(slots, PushSlot(slots, s, tail, inserted))
  {
    var slots', ins' := PushSlot(slots, s, tail, inserted), (inserted + 1) % WORD;
    assert Pushed(slots, slots');
    forall i | 0 <= i < |slots'|
      ensures LinkOk(slots', ins', i)
    {
      if i > 0 {
        var j: nat := i - 1;
        assert LinkOk(slots, inserted, j);
        if tail == Some(j) {
          NewLink(slots, slots', inserted, j);
        } else {
          if tail.Some? && slots[j].header.name == s.header.name {
            assert tail.value < j ==> SameName(slots, j, tail.value);
          }
          PushKeepsLink(slots, slots', inserted, j);
        }
      }
    }
  }

  lemma NewLink(slots: seq<Slot>, slots': seq<Slot>, inserted: nat, t: nat)
    requires Pushed(slots, slots') && t < |slots|
    requires IsTail(slots, slots'[0].header.name, Some(t))
    requires slots'[t + 1].next == Some(Id(-1, inserted))
    ensures LinkOk(slots', (inserted + 1) % WORD, t + 1)
  {
  }

  lemma PushKeepsReached(ix: Indices, ix': Indices, slots: seq<Slot>, slots': seq<Slot>, inserted: nat, i: nat)
    requires Pushed(slots, slots') && i < |slots'|
    requires i > 0 ==> Reached(ix, slots, inserted, i - 1)
    requires forall q :: Has(ix, q) ==> Has(ix', q)
    requires NameAbsent(slots, slots'[0].header.name) ==> Has(ix', Pos(Id(-1, inserted), slots'[0].hash))
    ensures Reached(ix', slots', (inserted + 1) % WORD, i)
  {
    IdAfterPush(i - 1, inserted);
    if i == 0 {
      NewIsOldest(slots, slots');
    } else {
      OldestAfterPush(slots, slots', i - 1);
    }
  }

  lemma PushKeepsHead(slots: seq<Slot>, slots': seq<Slot>, inserted: nat, p: Pos)
    requires Pushed(slots, slots') && |slots| < WORD - 1
    requires IsHead(slots, inserted, p)
    ensures IsHead(slots', (inserted + 1) % WORD, p)
  {
    var r := Real(p.index, inserted);
    RealAfterPush(p.index, inserted);
    OldestAfterPush(slots, slots', r);
  }

  /** The buckets a push must find: a pointer to the new slot exactly when its name was absent. */
  ghost predicate PushedBuckets(ix: Indices, ix': Indices, slots: seq<Slot>, s: Slot, inserted: nat,
                                pending: Option<Pos>) {
    var own := Pos(Id(-1, inserted), s.hash);
    && (pending.None? || pending == Some(own))
    && if NameAbsent(slots, s.header.name)
       then forall q :: Has(ix', q) <==> Has(ix, q) || q == own
       else pending.None? && ix' == ix
  }

  lemma PushedHead(ix: Indices, ix': Indices, slots: seq<Slot>, slots': seq<Slot>, inserted: nat,
                   pending: Option<Pos>, p: Pos)
    requires Pushed(slots, slots') && |slots| < WORD - 1
    requires Headed(ix, slots, inserted, pending)
    requires PushedBuckets(ix, ix', slots, slots'[0], inserted, pending)
    requires Has(ix', p)
    ensures IsHead(slots', (inserted + 1) % WORD, p)
  {
    hide Reached, Oldest;
    if IsHead(slots, inserted, p) {
      PushKeepsHead(slots, slots', inserted, p);
    } else {
      assert NameAbsent(slots, slots'[0].header.name);
      NewIsOldest(slots, slots');
      assert Real(Id(-1, inserted), (inserted + 1) % WORD) == 0;
    }
  }

  /** The new slot is a head exactly when its name was absent; then a bucket must point at it. */
  lemma PushKeepsHeaded(ix: Indices, ix': Indices, slots: seq<Slot>, slots': seq<Slot>, inserted: nat,
                        pending: Option<Pos>)
    requires Pushed(slots, slots') && |slots| < WORD - 1
    requires Headed(ix, slots, inserted, pending)
    requires PushedBuckets(ix, ix', slots, slots'[0], inserted, pending)
    ensures Headed(ix', slots', (inserted + 1) % WORD, None)
  {
    hide IsHead, Id;
    var ins' := (inserted + 1) % WORD;
    forall i | 0 <= i < |slots'|
      ensures Reached(ix', slots', ins', i)
    {
      if i > 0 {
        assert Reached(ix, slots, inserted, i - 1);
      }
      PushKeepsReached(ix, ix', slots, slots', inserted, i);
    }
    forall p | Has(ix', p)
      ensures IsHead(slots', ins', p)
    {
      PushedHead(ix, ix', slots, slots', inserted, pending, p);
    }
  }

  // ----- every slot is reached once -----

  ghost predicate LinksTo(slots: seq<Slot>, inserted: nat, k: nat, i: nat) {
    k < |slots| && slots[k].next == Some(Id(i, inserted))
  }

  /** An oldest slot has exactly one bucket and no link. */
  lemma HeadReachedOnce(ix: Indices, slots: seq<Slot>, inserted: nat, i: nat)
    requires Distinct(ix) && Linked(slots, inserted) && Headed(ix, slots, inserted, None)
    requires i < |slots| < WORD - 1 && Oldest(slots, i)
    ensures exists b :: 0 <= b < |ix| && ix[b].Some? && ix[b].value.index == Id(i, inserted)
    ensures forall b, c | 0 <= b < |ix| && 0 <= c < |ix| && ix[b].Some? && ix[c].Some? ::
              ix[b].value.index == ix[c].value.index ==> b == c
    ensures forall k :: 0 <= k < |slots| ==> !LinksTo(slots, inserted, k, i)
  {
    assert Reached(ix, slots, inserted, i);
    RealOfId(i, inserted);
    forall k | 0 <= k < |slots|
      ensures !LinksTo(slots, inserted, k, i)
    {
      assert LinkOk(slots, inserted, k);
      assert i < k ==> !SameName(slots, i, k);
    }
  }

  /** Any other slot has no bucket and exactly one link, from the next older slot of its name. */
  lemma TailReachedOnce(ix: Indices, slots: seq<Slot>, inserted: nat, i: nat)
    requires Linked(slots, inserted) && Headed(ix, slots, inserted, None)
    requires i < |slots| < WORD - 1 && !Oldest(slots, i)
    ensures forall b :: 0 <= b < |ix| && ix[b].Some? ==> ix[b].value.index != Id(i, inserted)
    ensures exists k :: LinksTo(slots, inserted, k, i) && i < k
    ensures forall k, m :: LinksTo(slots, inserted, k, i) && LinksTo(slots, inserted, m, i) ==> k == m
  {
    RealOfId(i, inserted);
    forall b | 0 <= b < |ix| && ix[b].Some?
      ensures ix[b].value.index != Id(i, inserted)
    {
      assert Has(ix, ix[b].value) && IsHead(slots, inserted, ix[b].value);
    }
    var k := NextOlder(slots, i);
    assert LinkOk(slots, inserted, k);
    assert LinksTo(slots, inserted, k, i) by {
      assert SameName(slots, k, i);
      assert slots[k].next.Some?;
      var x := slots[k].next.value;
      assert !(Real(x, inserted) < i) && !(i < Real(x, inserted));
      IdOfReal(x, inserted);
    }
    forall m, m' | LinksTo(slots, inserted, m, i) && LinksTo(slots, inserted, m', i)
      ensures m == m'
    {
      assert LinkOk(slots, inserted, m) && LinkOk(slots, inserted, m');
      assert m < m' ==> !SameName(slots, m', m);
      assert m' < m ==> !SameName(slots, m, m');
    }
  }

  lemma NextOlder(slots: seq<Slot>, i: nat) returns (k: nat)
    requires i < |slots| && !Oldest(slots, i)
    ensures i < k < |slots| && SameName(slots, i, k)
    ensures forall m :: i < m < k ==> !SameName(slots, k, m)
  {
    var w: nat :| i < w < |slots| && SameName(slots, i, w);
    k := i + 1;
    while !SameName(slots, i, k)
      invariant i < k <= w
      invariant forall m :: i < m < k ==> !SameName(slots, i, m)
      decreases w - k
    {
      k := k + 1;
    }
    forall m | i < m < k
      ensures !SameName(slots, k, m)
    {
      assert !SameName(slots, i, m);
    }
  }
}

/**
 The dynamic table as RFC 7541 describes it (sections 2.3.2, 4.3 and 4.4): a FIFO of
 entries, newest first, evicted from the back.  This is the reference both the encoder's
 hash table and the decoder's deque are proved against.
 */
module HpackFifo {
  import opened Wrappers
  import opened HpackHeader

  const DYN_OFFSET := 62

  type Entries = seq<Header>

  function Size(es: Entries): (n: nat)
    ensures es == [] ==> n == 0
  {
    if es == [] then 0 else Size(es[..|es| - 1]) + Len(es[|es| - 1])
  }

  /** Drops entries from the back until the rest fits in `limit`. */
  function EvictTo(es: Entries, limit: nat): (r: Entries)
    ensures r <= es && Size(r) <= limit
    ensures forall m :: |r| < m <= |es| ==> Size(es[..m]) > limit
  {
    if Size(es) <= limit then es
    else
      var r := EvictTo(es[..|es| - 1], limit);
      assert forall m :: |r| < m < |es| ==> es[..|es| - 1][..m] == es[..m];
      assert es[..|es|] == es;
      r
  }

  /** Insertion of an entry that fits the table. */
  function Insert(es: Entries, h: Header, max: nat): (r: Entries)
    requires Len(h) <= max
  {
    [h] + EvictTo(es, max - Len(h))
  }

  lemma {:induction false} SizePush(h: Header, es: Entries)
    ensures Size([h] + es) == Len(h) + Size(es)
  {
    if es == [] {
      assert ([h] + es)[..0] == [];
    } else {
      SizePush(h, es[..|es| - 1]);
      assert ([h] + es)[..|es|] == [h] + es[..|es| - 1];
    }
  }

  /** Putting an entry in front and then evicting is making room for it first, if it fits at all. */
  lemma {:induction false} EvictFront(h: Header, es: Entries, max: nat)
    requires Len(h) <= max
    ensures EvictTo([h] + es, max) == [h] + EvictTo(es, max - Len(h))
    decreases |es|
  {
    hide Len;
    SizePush(h, es);
    if Size(es) > max - Len(h) {
      assert ([h] + es)[..|es|] == [h] + es[..|es| - 1];
      EvictFront(h, es[..|es| - 1], max);
    }
  }

  lemma {:induction false} SizeBound(es: Entries)
    ensures 32 * |es| <= Size(es)
  {
    if es != [] {
      SizeBound(es[..|es| - 1]);
    }
  }

  // ----- lookup by linear scan -----

  predicate HasName(es: Entries, n: Name) {
    exists i :: 0 <= i < |es| && es[i].name == n
  }

  predicate HasHeader(es: Entries, h: Header) {
    exists i :: 0 <= i < |es| && SameNameValue(es[i], h)
  }

  /** The newest entry of a name. */
  function NewestNamed(es: Entries, n: Name): (i: nat)
    requires HasName(es, n)
    ensures i < |es| && es[i].name == n
    ensures forall j :: 0 <= j < i ==> es[j].name != n
  {
    if es[0].name == n then 0
    else
      assert HasName(es[1..], n) by {
        var k :| 0 <= k < |es| && es[k].name == n;
        assert es[1..][k - 1].name == n;
      }
      1 + NewestNamed(es[1..], n)
  }

  /** The newest entry of a name and value. */
  function NewestEqual(es: Entries, h: Header): (i: nat)
    requires HasHeader(es, h)
    ensures i < |es| && SameNameValue(es[i], h)
    ensures forall j :: 0 <= j < i ==> !SameNameValue(es[j], h)
  {
    if SameNameValue(es[0], h) then 0
    else
      assert HasHeader(es[1..], h) by {
        var k :| 0 <= k < |es| && SameNameValue(es[k], h);
        assert SameNameValue(es[1..][k - 1], h);
      }
      1 + NewestEqual(es[1..], h)
  }

  // ----- indexing -----

  datatype Index =
    | Indexed(idx: nat, header: Header)
    | NameOnly(idx: nat, header: Header)
    | Inserted(slot: nat)
    | InsertedValue(idx: nat, slot: nat)
    | NotIndexed(header: Header)

  /** What the static table knows of a header: an index, and whether the value matches too. */
  type Static = Option<(nat, bool)>

  function StaticIndex(statik: Static, h: Header): (i: Index) {
    match statik
    case None => NotIndexed(h)
    case Some((n, true)) => Indexed(n, h)
    case Some((n, false)) => NameOnly(n, h)
  }

  /** Indexing by linear scan: how to represent `h`, and the table afterwards. */
  function IndexDynamic(es: Entries, max: nat, h: Header, statik: Static): (r: (Index, Entries))
    requires Len(h) <= max
  {
    if HasHeader(es, h) then (Indexed(NewestEqual(es, h) + DYN_OFFSET, h), es)
    else if HasName(es, h.name) then
      var i := NewestNamed(es, h.name) + DYN_OFFSET;
      if h.sensitive then (NameOnly(i, h), es)
      else (InsertedValue(if statik.Some? then statik.value.0 else i, 0), Insert(es, h, max))
    else if h.sensitive then (StaticIndex(statik, h), es)
    else (if statik.Some? then InsertedValue(statik.value.0, 0) else Inserted(0), Insert(es, h, max))
  }

  /** No two entries have the same name and value. */
  ghost predicate NoRepeats(es: Entries) {
    forall i, j :: 0 <= i < j < |es| ==> !SameNameValue(es[i], es[j])
  }

  ghost predicate NoneSensitive(es: Entries) {
    forall i :: 0 <= i < |es| ==> !es[i].sensitive
  }

  /** Inserting a header that is not there keeps the FIFO free of repeats and within its limit. */
  lemma InsertKeeps(es: Entries, h: Header, max: nat)
    requires NoRepeats(es) && NoneSensitive(es) && Len(h) <= max
    requires !HasHeader(es, h) && !h.sensitive
    ensures var r := Insert(es, h, max);
            && NoRepeats(r) && NoneSensitive(r)
            && Size(r) == Len(h) + Size(EvictTo(es, max - Len(h))) <= max
            && 32 * |r| <= max
  {
    hide Size, Len, NoRepeats, NoneSensitive, HasHeader;
    var kept := EvictTo(es, max - Len(h));
    PrefixKeeps(es, kept, h);
    SizePush(h, kept);
    SizeBound([h] + kept);
    FrontKeeps(h, kept);
  }

  lemma PrefixKeeps(es: Entries, kept: Entries, h: Header)
    requires kept <= es && NoRepeats(es) && NoneSensitive(es) && !HasHeader(es, h)
    ensures NoRepeats(kept) && NoneSensitive(kept) && !HasHeader(kept, h)
  {
    assert forall i :: 0 <= i < |kept| ==> kept[i] == es[i];
  }

  /** A header put in front of entries none of which equals it. */
  lemma FrontKeeps(h: Header, es: Entries)
    requires NoRepeats(es) && NoneSensitive(es) && !HasHeader(es, h) && !h.sensitive
    ensures NoRepeats([h] + es) && NoneSensitive([h] + es)
  {
    var r := [h] + es;
    forall i, j | 0 <= i < j < |r|
      ensures !SameNameValue(r[i], r[j])
    {
      assert r[j] == es[j - 1];
      if i > 0 {
        assert r[i] == es[i - 1];
      }
    }
  }

  lemma EvictKeeps(es: Entries, limit: nat)
    requires NoRepeats(es) && NoneSensitive(es)
    ensures NoRepeats(EvictTo(es, limit)) && NoneSensitive(EvictTo(es, limit))
  {
  }

  /** One step of eviction. */
  lemma EvictPop(es: Entries, limit: nat)
    requires Size(es) > limit
    ensures es != [] && Size(es) == Size(es[..|es| - 1]) + Len(es[|es| - 1])
    ensures EvictTo(es, limit) == EvictTo(es[..|es| - 1], limit)
  {
  }

  lemma EvictNone(es: Entries, limit: nat)
    requires Size(es) <= limit
    ensures EvictTo(es, limit) == es
  {
  }

  lemma EvictAll(es: Entries)
    ensures EvictTo(es, 0) == []
  {
  }

  /** An entry cannot match a header whose name is not there. */
  lemma NoNameNoHeader(es: Entries, h: Header)
    ensures !HasName(es, h.name) ==> !HasHeader(es, h)
  {
  }
}

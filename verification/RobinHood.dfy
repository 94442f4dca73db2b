/**
 Robin Hood open addressing over a circular bucket array.

 A bucket holds nothing or a `Pos`: the (wrapping) position of a chain head and
 the hash of its name.  `DistAt` is how far an entry sits behind its ideal bucket.
 This module states the ordering every reachable array obeys and proves what
 displacing insertion, back-shift deletion and doubling do to it.
 */
module RobinHood {
  import opened Wrappers

  datatype Pos = Pos(index: nat, hash: nat)

  type Indices = seq<Option<Pos>>

  // ----- circular arithmetic -----

  /** `hash & mask` for a power-of-two capacity `mask + 1`. */
  function Desired(cap: nat, hash: nat): (d: nat)
    requires cap > 0
    ensures d < cap
  {
    hash % cap
  }

  function Next(cap: nat, b: nat): (n: nat)
    requires b < cap
    ensures n < cap
  {
    if b + 1 < cap then b + 1 else 0
  }

  function Prev(cap: nat, b: nat): (p: nat)
    requires b < cap
    ensures p < cap && Next(cap, p) == b
  {
    if b == 0 then cap - 1 else b - 1
  }

  /** Steps forward from `s` to `b`: `b.wrapping_sub(s) & mask`. */
  function Offset(cap: nat, s: nat, b: nat): (o: nat)
    requires s < cap && b < cap
    ensures o < cap && At(cap, s, o) == b
  {
    if s <= b then b - s else b + cap - s
  }

  /** The bucket `m` steps forward from `s`. */
  function At(cap: nat, s: nat, m: nat): (b: nat)
    requires s < cap && m <= cap
    ensures b < cap
  {
    if s + m < cap then s + m else s + m - cap
  }

  function Dist(cap: nat, hash: nat, b: nat): (d: nat)
    requires b < cap
    ensures d < cap
  {
    Offset(cap, Desired(cap, hash), b)
  }

  function DistAt(ix: Indices, b: nat): (d: nat)
    requires b < |ix| && ix[b].Some?
    ensures d < |ix|
  {
    Dist(|ix|, ix[b].value.hash, b)
  }

  // ----- the invariant -----

  ghost predicate Has(ix: Indices, p: Pos) {
    Some(p) in ix
  }

  /** A displaced entry follows an occupied bucket whose entry is nearly as displaced. */
  ghost predicate OrderedAt(ix: Indices, b: nat)
    requires b < |ix|
  {
    ix[b].Some? && DistAt(ix, b) > 0 ==>
      var p := Prev(|ix|, b);
      ix[p].Some? && DistAt(ix, b) <= DistAt(ix, p) + 1
  }

  ghost predicate Ordered(ix: Indices) {
    forall b :: 0 <= b < |ix| ==> OrderedAt(ix, b)
  }

  ghost predicate Distinct(ix: Indices) {
    forall b, c :: 0 <= b < c < |ix| && ix[b].Some? && ix[c].Some? ==> ix[b].value.index != ix[c].value.index
  }

  ghost predicate HasEmpty(ix: Indices) {
    exists b :: 0 <= b < |ix| && ix[b].None?
  }

  ghost predicate WellPlaced(ix: Indices) {
    Ordered(ix) && Distinct(ix) && HasEmpty(ix)
  }

  /** Every bucket between an entry's ideal bucket and its own is at least as displaced. */
  lemma {:induction false} PathToEntry(ix: Indices, b: nat, m: nat)
    requires Ordered(ix) && b < |ix| && ix[b].Some? && m <= DistAt(ix, b)
    ensures var c := At(|ix|, Desired(|ix|, ix[b].value.hash), m);
            ix[c].Some? && DistAt(ix, c) >= m
    decreases DistAt(ix, b) - m
  {
    if m < DistAt(ix, b) {
      PathToEntry(ix, b, m + 1);
      var c := At(|ix|, Desired(|ix|, ix[b].value.hash), m + 1);
      assert OrderedAt(ix, c);
      assert Prev(|ix|, c) == At(|ix|, Desired(|ix|, ix[b].value.hash), m);
    }
  }

  /** No entry is displaced all the way round: the bucket after it is not its ideal one. */
  lemma NotFull(ix: Indices, b: nat)
    requires Ordered(ix) && HasEmpty(ix) && b < |ix| && ix[b].Some?
    ensures DistAt(ix, b) + 1 < |ix|
  {
    if DistAt(ix, b) + 1 == |ix| {
      var e :| 0 <= e < |ix| && ix[e].None?;
      PathToEntry(ix, b, Offset(|ix|, Desired(|ix|, ix[b].value.hash), e));
      assert false;
    }
  }

  // ----- displacing insertion -----

  /** `after` is `before` with `p` written at `s` and the `run` entries from `s` on moved up one. */
  ghost predicate InsertedAt(before: Indices, after: Indices, p: Pos, s: nat, run: nat) {
    && s < |before| == |after|
    && run < |before|
    && forall b :: 0 <= b < |after| ==>
         after[b] == if b == s then Some(p)
                     else if Offset(|before|, s, b) <= run then before[Prev(|before|, b)]
                     else before[b]
  }

  ghost predicate FullRun(ix: Indices, s: nat, run: nat)
    requires s < |ix|
  {
    forall b :: 0 <= b < |ix| && Offset(|ix|, s, b) < run ==> ix[b].Some?
  }

  /** `s` is a bucket an entry of this hash may take over without breaking the order. */
  ghost predicate Insertable(ix: Indices, hash: nat, s: nat)
    requires s < |ix|
  {
    && (ix[s].Some? ==> DistAt(ix, s) <= Dist(|ix|, hash, s))
    && (Dist(|ix|, hash, s) > 0 ==>
          var q := Prev(|ix|, s);
          ix[q].Some? && Dist(|ix|, hash, s) <= DistAt(ix, q) + 1)
  }

  /** An entry moved up one bucket is displaced by one more. */
  lemma MovedUp(before: Indices, after: Indices, p: Pos, s: nat, run: nat, b: nat)
    requires Ordered(before) && HasEmpty(before)
    requires InsertedAt(before, after, p, s, run) && FullRun(before, s, run)
    requires b < |before| && b != s && Offset(|before|, s, b) <= run
    ensures var q := Prev(|before|, b);
            before[q].Some? && after[b] == before[q] && DistAt(after, b) == DistAt(before, q) + 1
  {
    var q := Prev(|before|, b);
    assert Offset(|before|, s, q) < run;
    NotFull(before, q);
  }

  lemma InsertKeepsOrderAt(before: Indices, after: Indices, p: Pos, s: nat, run: nat, b: nat)
    requires Ordered(before) && HasEmpty(before)
    requires InsertedAt(before, after, p, s, run) && FullRun(before, s, run)
    requires before[At(|before|, s, run)].None?
    requires Insertable(before, p.hash, s)
    requires b < |before|
    ensures OrderedAt(after, b)
  {
    var cap := |before|;
    var q := Prev(cap, b);
    var o := Offset(cap, s, b);
    if b == s {
      assert after[b] == Some(p);
      assert q == s || run < Offset(cap, s, q) || q == At(cap, s, run);
      assert Dist(cap, p.hash, s) > 0 ==> after[q] == before[q];
    } else if o <= run {
      MovedUp(before, after, p, s, run, b);
      if q != s {
        assert OrderedAt(before, q);
        MovedUp(before, after, p, s, run, q);
      }
    } else {
      assert OrderedAt(before, b);
      assert after[b] == before[b];
      assert o == run + 1 ==> q == At(cap, s, run);
    }
  }

  lemma InsertKeepsOrder(before: Indices, after: Indices, p: Pos, s: nat, run: nat)
    requires Ordered(before) && HasEmpty(before)
    requires InsertedAt(before, after, p, s, run) && FullRun(before, s, run)
    requires before[At(|before|, s, run)].None?
    requires Insertable(before, p.hash, s)
    ensures Ordered(after)
  {
    forall b | 0 <= b < |before|
      ensures OrderedAt(after, b)
    {
      InsertKeepsOrderAt(before, after, p, s, run, b);
    }
  }

  lemma InsertAddsOne(before: Indices, after: Indices, p: Pos, s: nat, run: nat)
    requires InsertedAt(before, after, p, s, run)
    requires before[At(|before|, s, run)].None?
    ensures forall q :: Has(after, q) <==> Has(before, q) || q == p
  {
    var cap := |before|;
    forall q | Has(after, q)
      ensures Has(before, q) || q == p
    {
      var b :| 0 <= b < cap && after[b] == Some(q);
    }
    forall q | Has(before, q) || q == p
      ensures Has(after, q)
    {
      if q == p {
        assert after[s] == Some(p);
      } else {
        var b :| 0 <= b < cap && before[b] == Some(q);
        var c := if Offset(cap, s, b) < run then Next(cap, b) else b;
        assert after[c] == Some(q);
      }
    }
  }

  ghost predicate IndexUnused(ix: Indices, index: nat) {
    forall b :: 0 <= b < |ix| && ix[b].Some? ==> ix[b].value.index != index
  }

  lemma InsertKeepsDistinct(before: Indices, after: Indices, p: Pos, s: nat, run: nat)
    requires InsertedAt(before, after, p, s, run)
    requires before[At(|before|, s, run)].None?
    requires Distinct(before) && IndexUnused(before, p.index)
    ensures Distinct(after)
  {
  }

  lemma InsertStart(before: Indices, p: Pos, s: nat)
    requires s < |before|
    ensures InsertedAt(before, before[s := Some(p)], p, s, 0) && FullRun(before, s, 0)
  {
  }

  /** A run of occupied buckets ends before it is all the way round. */
  lemma InsertRunIsShort(ix: Indices, s: nat, run: nat)
    requires HasEmpty(ix) && s < |ix| && run < |ix| && FullRun(ix, s, run) && ix[At(|ix|, s, run)].Some?
    ensures run + 1 < |ix|
  {
  }

  /** One step of the forward shift: the carried entry goes down, the one it displaces is picked up. */
  lemma InsertStep(before: Indices, ix: Indices, p: Pos, s: nat, run: nat)
    requires InsertedAt(before, ix, p, s, run) && FullRun(before, s, run)
    requires before[At(|before|, s, run)].Some? && run + 1 < |before|
    ensures var b := At(|before|, s, run + 1);
            && ix[b] == before[b]
            && InsertedAt(before, ix[b := before[At(|before|, s, run)]], p, s, run + 1)
            && FullRun(before, s, run + 1)
  {
    var b := At(|before|, s, run + 1);
    assert Prev(|before|, b) == At(|before|, s, run);
    assert Offset(|before|, s, b) == run + 1;
  }

  // ----- back-shift deletion -----

  /** `after` is `before` without the entry at `h`, the `run` entries behind it moved back one. */
  ghost predicate RemovedAt(before: Indices, after: Indices, h: nat, run: nat) {
    && h < |before| == |after|
    && run < |before|
    && forall b :: 0 <= b < |after| ==>
         after[b] == if Offset(|before|, h, b) < run then before[Next(|before|, b)]
                     else if Offset(|before|, h, b) == run then None
                     else before[b]
  }

  /** The buckets at offsets 1 to `run` behind `h` hold displaced entries. */
  ghost predicate DisplacedRun(ix: Indices, h: nat, run: nat)
    requires h < |ix|
  {
    forall b :: 0 <= b < |ix| && 0 < Offset(|ix|, h, b) <= run ==> ix[b].Some? && DistAt(ix, b) > 0
  }

  ghost predicate RunEnds(ix: Indices, h: nat, run: nat)
    requires h < |ix| && run < |ix|
  {
    var c := At(|ix|, h, run + 1);
    ix[c].None? || DistAt(ix, c) == 0
  }

  /** No bucket gains an entry, and no bucket's entry becomes more displaced. */
  ghost predicate Shrinks(before: Indices, after: Indices) {
    && |before| == |after|
    && forall b :: 0 <= b < |after| && after[b].Some? ==>
         before[b].Some? && DistAt(after, b) <= DistAt(before, b)
  }

  lemma ShrinksTransitive(a: Indices, b: Indices, c: Indices)
    requires Shrinks(a, b) && Shrinks(b, c)
    ensures Shrinks(a, c)
  {
  }

  /** One step of the back shift. */
  lemma RemoveStep(before: Indices, ix: Indices, h: nat, run: nat)
    requires RemovedAt(before, ix, h, run) && DisplacedRun(before, h, run) && run + 1 < |before|
    requires var c := At(|before|, h, run + 1); before[c].Some? && DistAt(before, c) > 0
    ensures var b, c := At(|before|, h, run), At(|before|, h, run + 1);
            && ix[c] == before[c]
            && RemovedAt(before, ix[b := ix[c]][c := None], h, run + 1)
            && DisplacedRun(before, h, run + 1)
  {
  }

  /** A displaced run cannot reach an empty bucket. */
  lemma RunIsShort(ix: Indices, h: nat, run: nat)
    requires HasEmpty(ix) && h < |ix| && ix[h].Some? && run < |ix| && DisplacedRun(ix, h, run)
    ensures run + 1 < |ix|
  {
  }

  lemma MovedBack(before: Indices, after: Indices, h: nat, run: nat, b: nat)
    requires Ordered(before) && h < |before| && before[h].Some?
    requires RemovedAt(before, after, h, run) && DisplacedRun(before, h, run)
    requires b < |before| && Offset(|before|, h, b) < run
    ensures var n := Next(|before|, b);
            && before[b].Some? && before[n].Some? && after[b] == before[n]
            && DistAt(after, b) + 1 == DistAt(before, n) <= DistAt(before, b) + 1
  {
    var n := Next(|before|, b);
    assert Offset(|before|, h, n) == Offset(|before|, h, b) + 1;
    assert OrderedAt(before, n);
    assert Prev(|before|, n) == b;
  }

  lemma RemoveKeepsOrderAt(before: Indices, after: Indices, h: nat, run: nat, b: nat)
    requires Ordered(before) && h < |before| && before[h].Some?
    requires RemovedAt(before, after, h, run) && DisplacedRun(before, h, run) && RunEnds(before, h, run)
    requires run + 1 < |before|
    requires b < |before|
    ensures OrderedAt(after, b)
    ensures after[b].Some? ==> before[b].Some? && DistAt(after, b) <= DistAt(before, b)
  {
    var cap := |before|;
    var q := Prev(cap, b);
    var o := Offset(cap, h, b);
    assert OrderedAt(before, b);
    if o < run {
      MovedBack(before, after, h, run, b);
      if o > 0 {
        assert Offset(cap, h, q) == o - 1;
        MovedBack(before, after, h, run, q);
      } else {
        assert Offset(cap, h, q) == cap - 1;
        assert after[q] == before[q];
      }
    } else if o == run + 1 {
      assert b == At(cap, h, run + 1);
    } else if o > run {
      assert Offset(cap, h, q) == o - 1;
      assert after[q] == before[q];
    }
  }

  lemma RemoveKeepsOrder(before: Indices, after: Indices, h: nat, run: nat)
    requires Ordered(before) && h < |before| && before[h].Some?
    requires RemovedAt(before, after, h, run) && DisplacedRun(before, h, run) && RunEnds(before, h, run)
    requires run + 1 < |before|
    ensures Ordered(after) && HasEmpty(after) && Shrinks(before, after)
  {
    assert after[At(|before|, h, run)].None?;
    forall b | 0 <= b < |before|
      ensures OrderedAt(after, b)
      ensures after[b].Some? ==> before[b].Some? && DistAt(after, b) <= DistAt(before, b)
    {
      RemoveKeepsOrderAt(before, after, h, run, b);
    }
  }

  lemma RemoveKeepsDistinct(before: Indices, after: Indices, h: nat, run: nat)
    requires RemovedAt(before, after, h, run)
    requires Distinct(before)
    ensures Distinct(after)
  {
  }

  lemma RemoveDropsOne(before: Indices, after: Indices, h: nat, run: nat)
    requires RemovedAt(before, after, h, run)
    requires Distinct(before) && before[h].Some?
    ensures forall q :: Has(after, q) <==> Has(before, q) && q.index != before[h].value.index
  {
    var cap := |before|;
    forall q | Has(after, q)
      ensures Has(before, q) && q.index != before[h].value.index
    {
      var b :| 0 <= b < cap && after[b] == Some(q);
      var c := if Offset(cap, h, b) < run then Next(cap, b) else b;
      assert before[c] == Some(q) && c != h;
    }
    forall q | Has(before, q) && q.index != before[h].value.index
      ensures Has(after, q)
    {
      var b :| 0 <= b < cap && before[b] == Some(q);
      var o := Offset(cap, h, b);
      assert o > 0;
      var c := if o <= run then Prev(cap, b) else b;
      assert after[c] == Some(q);
    }
  }

  // ----- counting -----

  /** Distinct naturals below `n` are at most `n` many. */
  lemma {:induction false} Pigeonhole(f: seq<nat>, n: nat)
    requires forall i :: 0 <= i < |f| ==> f[i] < n
    requires forall i, j :: 0 <= i < j < |f| ==> f[i] != f[j]
    ensures |f| <= n
  {
    if |f| > 0 {
      assert f[0] < n;
      if k :| 0 <= k < |f| && f[k] == n - 1 {
        Pigeonhole(f[..k] + f[k + 1..], n - 1);
      } else {
        Pigeonhole(f, n - 1);
      }
    }
  }

  /** Replacing an entry's position but not its hash moves nothing. */
  lemma Repoint(before: Indices, b: nat, index: nat)
    requires Ordered(before) && Distinct(before) && b < |before| && before[b].Some?
    requires IndexUnused(before, index)
    ensures var p := before[b].value;
            var after := before[b := Some(Pos(index, p.hash))];
            && Ordered(after) && Distinct(after) && Shrinks(before, after)
            && (HasEmpty(before) ==> HasEmpty(after))
            && forall q :: Has(after, q) <==> (Has(before, q) && q.index != p.index) || q == Pos(index, p.hash)
  {
    var p := before[b].value;
    var after := before[b := Some(Pos(index, p.hash))];
    forall c | 0 <= c < |before|
      ensures OrderedAt(after, c)
    {
      assert OrderedAt(before, c);
    }
    if e :| 0 <= e < |before| && before[e].None? {
      assert after[e].None?;
    }
    forall q
      ensures Has(after, q) <==> (Has(before, q) && q.index != p.index) || q == Pos(index, p.hash)
    {
      if Has(after, q) {
        var c :| 0 <= c < |after| && after[c] == Some(q);
        assert c != b ==> before[c] == Some(q);
      }
      if Has(before, q) && q.index != p.index {
        var c :| 0 <= c < |before| && before[c] == Some(q);
        assert after[c] == Some(q);
      }
      assert after[b] == Some(Pos(index, p.hash));
    }
  }
}

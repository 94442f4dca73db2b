/**
 Doubling a Robin Hood array.

 The old array is walked once round from an entry in its ideal bucket, and every
 entry is put in the first empty bucket from its new ideal one, never stealing.
 Measured from that first entry, the old array is a line of `c` buckets sorted by
 ideal bucket, and the new array two such lines, so insertion in order suffices.
 */
module RobinHoodGrowth {
  import opened Wrappers
  import opened RobinHood

  /** Where a hash's ideal bucket lies on the old line that starts at `first`. */
  function Start(c: nat, first: nat, hash: nat): (x: nat)
    requires first < c
    ensures x < c
  {
    Offset(c, first, Desired(c, hash))
  }

  /** Where a hash's new ideal bucket lies, counted from `first` in the doubled array. */
  function NewStart(c: nat, first: nat, hash: nat): (x: nat)
    requires first < c
    ensures x < 2 * c
  {
    Offset(2 * c, first, Desired(2 * c, hash))
  }

  lemma DoubledDesired(c: nat, hash: nat)
    requires c > 0
    ensures Desired(2 * c, hash) == Desired(c, hash) || Desired(2 * c, hash) == Desired(c, hash) + c
  {
    DoubledMod(hash, c, 2 * c);
  }

  lemma DoubledMod(n: nat, c: nat, cc: nat)
    requires c > 0 && cc == c + c
    ensures n % cc == n % c || n % cc == n % c + c
  {
    var q, r := n / cc, n % cc;
    assert n == q * cc + r by { Euclid(n, cc); }
    Halves(n, c, cc, q, r);
  }

  lemma Euclid(n: nat, d: nat)
    requires d > 0
    ensures n == (n / d) * d + n % d
  {
  }

  lemma Halves(n: nat, c: nat, cc: nat, q: nat, r: nat)
    requires c > 0 && cc == c + c && r < cc && n == q * cc + r
    ensures n % c == if r < c then r else r - c
  {
    Twice(q, c, cc);
    if r < c {
      DivMod(n, c, q + q, r);
    } else {
      Spread(q + q + 1, q + q, c);
      DivMod(n, c, q + q + 1, r - c);
    }
  }

  lemma Twice(q: nat, c: nat, cc: nat)
    requires cc == c + c
    ensures q * cc == (q + q) * c
  {
  }

  lemma AtLeastOnce(k: int, c: nat)
    requires k >= 1
    ensures k * c >= c
  {
  }

  lemma Spread(a: int, b: int, c: nat)
    ensures (a - b) * c == a * c - b * c
  {
  }

  lemma DivMod(n: nat, c: nat, q: nat, r: nat)
    requires c > 0 && r < c && n == q * c + r
    ensures n % c == r
  {
    var d := n / c;
    Euclid(n, c);
    Spread(d, q, c);
    Spread(q, d, c);
    if d < q {
      AtLeastOnce(q - d, c);
    } else if q < d {
      AtLeastOnce(d - q, c);
    }
  }

  /** Doubling keeps an entry on its line or moves it to the same place on the second one. */
  lemma TwoLines(c: nat, first: nat, hash: nat)
    requires first < c
    ensures NewStart(c, first, hash) == Start(c, first, hash)
         || NewStart(c, first, hash) == Start(c, first, hash) + c
  {
    DoubledDesired(c, hash);
  }

  ghost predicate Ideal(ix: Indices, b: nat) {
    b < |ix| && ix[b].Some? && DistAt(ix, b) == 0
  }

  /** Seen from an ideally placed entry nothing wraps. */
  lemma {:induction false} NoWrap(ix: Indices, first: nat, b: nat)
    requires Ordered(ix) && Ideal(ix, first) && b < |ix| && ix[b].Some?
    ensures DistAt(ix, b) + Start(|ix|, first, ix[b].value.hash) == Offset(|ix|, first, b)
    decreases Offset(|ix|, first, b)
  {
    assert OrderedAt(ix, b);
    if b != first && DistAt(ix, b) > 0 {
      NoWrap(ix, first, Prev(|ix|, b));
    }
  }

  /** Along the line, entries are sorted by ideal bucket. */
  lemma {:induction false} Sorted(ix: Indices, first: nat, b: nat, b': nat)
    requires Ordered(ix) && Ideal(ix, first) && b < |ix| && b' < |ix| && ix[b].Some? && ix[b'].Some?
    requires Offset(|ix|, first, b) <= Offset(|ix|, first, b')
    ensures Start(|ix|, first, ix[b].value.hash) <= Start(|ix|, first, ix[b'].value.hash)
    decreases Offset(|ix|, first, b')
  {
    NoWrap(ix, first, b);
    NoWrap(ix, first, b');
    assert OrderedAt(ix, b');
    if b != b' && DistAt(ix, b') > 0 {
      var p := Prev(|ix|, b');
      NoWrap(ix, first, p);
      Sorted(ix, first, b, p);
    }
  }

  /** `nb` of the new array holds old bucket `ob`'s entry, no more displaced than it was. */
  ghost predicate Placed(o: Indices, w: Indices, first: nat, ob: nat, nb: nat)
    requires first < |o| && |w| == 2 * |o|
  {
    && ob < |o| && nb < |w| && o[ob].Some? && w[nb] == o[ob]
    && DistAt(w, nb) + NewStart(|o|, first, w[nb].value.hash) == Offset(|w|, first, nb)
    && DistAt(w, nb) <= DistAt(o, ob)
  }

  ghost predicate Origin(o: Indices, w: Indices, first: nat, k: nat, nb: nat)
    requires first < |o| && |w| == 2 * |o| && nb < |w|
  {
    w[nb].Some? ==> exists ob :: Placed(o, w, first, ob, nb) && Offset(|o|, first, ob) < k
  }

  ghost predicate Kept(o: Indices, w: Indices, first: nat, k: nat, ob: nat)
    requires first < |o| && ob < |o|
  {
    o[ob].Some? && Offset(|o|, first, ob) < k ==> Has(w, o[ob].value)
  }

  /** The first `k` old buckets have been carried over. */
  ghost predicate Carried(o: Indices, w: Indices, first: nat, k: nat) {
    && first < |o| && |w| == 2 * |o|
    && (forall nb :: 0 <= nb < |w| ==> Origin(o, w, first, k, nb))
    && (forall ob :: 0 <= ob < |o| ==> Kept(o, w, first, k, ob))
    && Ordered(w) && Distinct(w)
  }

  /** The new ideal bucket plus the old displacement is still free when an entry's turn comes. */
  lemma RoomInOrder(o: Indices, w: Indices, first: nat, ob: nat)
    requires Ordered(o) && Ideal(o, first) && ob < |o| && o[ob].Some?
    requires Carried(o, w, first, Offset(|o|, first, ob))
    ensures var d := DistAt(o, ob);
            && NewStart(|o|, first, o[ob].value.hash) + d < |w|
            && w[At(|w|, Desired(|w|, o[ob].value.hash), d)].None?
  {
    var c, k, h := |o|, Offset(|o|, first, ob), o[ob].value.hash;
    NoWrap(o, first, ob);
    TwoLines(c, first, h);
    var nb := At(2 * c, Desired(2 * c, h), DistAt(o, ob));
    assert Offset(2 * c, first, nb) == NewStart(c, first, h) + DistAt(o, ob);
    if w[nb].Some? {
      assert Origin(o, w, first, k, nb);
      var ob' :| Placed(o, w, first, ob', nb) && Offset(c, first, ob') < k;
      NoWrap(o, first, ob');
      TwoLines(c, first, w[nb].value.hash);
      assert false;
    }
  }

  /** An entry already carried over, just before the free bucket, is displaced enough. */
  lemma PredecessorDisplaced(o: Indices, w: Indices, first: nat, ob: nat, t: nat)
    requires Ordered(o) && Ideal(o, first) && ob < |o| && o[ob].Some?
    requires Carried(o, w, first, Offset(|o|, first, ob))
    requires t < DistAt(o, ob)
    requires w[At(|w|, Desired(|w|, o[ob].value.hash), t)].Some?
    ensures DistAt(w, At(|w|, Desired(|w|, o[ob].value.hash), t)) >= t
  {
    var c, k, h := |o|, Offset(|o|, first, ob), o[ob].value.hash;
    NoWrap(o, first, ob);
    TwoLines(c, first, h);
    var q := At(2 * c, Desired(2 * c, h), t);
    assert Offset(2 * c, first, q) == NewStart(c, first, h) + t;
    assert Origin(o, w, first, k, q);
    var ob' :| Placed(o, w, first, ob', q) && Offset(c, first, ob') < k;
    Sorted(o, first, ob', ob);
    NoWrap(o, first, ob');
    TwoLines(c, first, w[q].value.hash);
  }

  /** Filling an empty bucket whose predecessor is displaced enough keeps the order. */
  lemma FillKeepsOrder(w: Indices, p: Pos, nb: nat)
    requires Ordered(w) && nb < |w| && w[nb].None? && Insertable(w, p.hash, nb)
    ensures Ordered(w[nb := Some(p)])
  {
    var w' := w[nb := Some(p)];
    forall b | 0 <= b < |w'|
      ensures OrderedAt(w', b)
    {
      assert OrderedAt(w, b);
    }
  }

  lemma FreeBucketFits(o: Indices, w: Indices, first: nat, ob: nat, t: nat)
    requires Ordered(o) && Ideal(o, first) && ob < |o| && o[ob].Some?
    requires |w| == 2 * |o| && Carried(o, w, first, Offset(|o|, first, ob))
    requires t <= DistAt(o, ob)
    requires w[At(|w|, Desired(|w|, o[ob].value.hash), t)].None?
    requires t > 0 ==> w[At(|w|, Desired(|w|, o[ob].value.hash), t - 1)].Some?
    ensures var nb := At(|w|, Desired(|w|, o[ob].value.hash), t);
            Insertable(w, o[ob].value.hash, nb) && Placed(o, w[nb := o[ob]], first, ob, nb)
  {
    hide Carried, Ordered;
    var h := o[ob].value.hash;
    var nb := At(|w|, Desired(|w|, h), t);
    RoomInOrder(o, w, first, ob);
    assert Dist(|w|, h, nb) == t;
    if t > 0 {
      PredecessorDisplaced(o, w, first, ob, t - 1);
      assert Prev(|w|, nb) == At(|w|, Desired(|w|, h), t - 1);
    }
  }

  lemma CarryOne(o: Indices, w: Indices, first: nat, ob: nat, t: nat)
    requires Ordered(o) && Distinct(o) && Ideal(o, first) && ob < |o| && o[ob].Some?
    requires Carried(o, w, first, Offset(|o|, first, ob))
    requires t <= DistAt(o, ob)
    requires w[At(|w|, Desired(|w|, o[ob].value.hash), t)].None?
    requires t > 0 ==> w[At(|w|, Desired(|w|, o[ob].value.hash), t - 1)].Some?
    ensures var nb := At(|w|, Desired(|w|, o[ob].value.hash), t);
            Carried(o, w[nb := o[ob]], first, Offset(|o|, first, ob) + 1)
  {
    hide Placed;
    var nb := At(|w|, Desired(|w|, o[ob].value.hash), t);
    FreeBucketFits(o, w, first, ob, t);
    FillKeepsOrder(w, o[ob].value, nb);
    CarryContents(o, w, first, ob, nb);
  }

  lemma CarryContents(o: Indices, w: Indices, first: nat, ob: nat, nb: nat)
    requires Distinct(o) && first < |o| && ob < |o| && o[ob].Some?
    requires Carried(o, w, first, Offset(|o|, first, ob))
    requires nb < |w| && w[nb].None?
    requires Placed(o, w[nb := o[ob]], first, ob, nb)
    requires Ordered(w[nb := o[ob]])
    ensures Carried(o, w[nb := o[ob]], first, Offset(|o|, first, ob) + 1)
  {
    var k, p := Offset(|o|, first, ob), o[ob].value;
    var k' := k + 1;
    var w' := w[nb := Some(p)];
    forall b | 0 <= b < |w'|
      ensures Origin(o, w', first, k', b)
      ensures b != nb && w'[b].Some? ==> w'[b].value.index != p.index
    {
      if b != nb && w'[b].Some? {
        assert Origin(o, w, first, k, b);
        var ob' :| Placed(o, w, first, ob', b) && Offset(|o|, first, ob') < k;
        assert Placed(o, w', first, ob', b);
        assert ob' != ob;
      }
    }
    forall ob' | 0 <= ob' < |o|
      ensures Kept(o, w', first, k', ob')
    {
      assert Kept(o, w, first, k, ob');
      if ob' == ob {
        assert w'[nb] == o[ob];
      } else if o[ob'].Some? && Offset(|o|, first, ob') < k {
        var b :| 0 <= b < |w| && w[b] == o[ob'];
        assert w'[b] == o[ob'];
      }
    }
  }

  lemma CarryNone(o: Indices, w: Indices, first: nat, ob: nat)
    requires first < |o| && ob < |o| && o[ob].None?
    requires Carried(o, w, first, Offset(|o|, first, ob))
    ensures Carried(o, w, first, Offset(|o|, first, ob) + 1)
  {
    var k := Offset(|o|, first, ob);
    var k' := k + 1;
    forall nb | 0 <= nb < |w|
      ensures Origin(o, w, first, k', nb)
    {
      assert Origin(o, w, first, k, nb);
    }
    forall ob' | 0 <= ob' < |o|
      ensures Kept(o, w, first, k', ob')
    {
      assert Kept(o, w, first, k, ob');
    }
  }

  lemma CarriedSound(o: Indices, w: Indices, first: nat, q: Pos)
    requires Carried(o, w, first, |o|) && Has(w, q)
    ensures Has(o, q)
  {
    hide Desired, Ordered, Distinct;
    var nb :| 0 <= nb < |w| && w[nb] == Some(q);
    assert Origin(o, w, first, |o|, nb);
    var ob: nat :| Placed(o, w, first, ob, nb) && Offset(|o|, first, ob) < |o|;
    assert o[ob] == Some(q);
  }

  lemma CarriedComplete(o: Indices, w: Indices, first: nat, q: Pos)
    requires Carried(o, w, first, |o|) && Has(o, q)
    ensures Has(w, q)
  {
    var ob :| 0 <= ob < |o| && o[ob] == Some(q);
    assert Kept(o, w, first, |o|, ob);
  }

  lemma CarriedSame(o: Indices, w: Indices, first: nat)
    requires Carried(o, w, first, |o|)
    ensures forall q :: Has(w, q) <==> Has(o, q)
  {
    hide Carried, Has;
    forall q
      ensures Has(w, q) <==> Has(o, q)
    {
      if Has(w, q) {
        CarriedSound(o, w, first, q);
      }
      if Has(o, q) {
        CarriedComplete(o, w, first, q);
      }
    }
  }

  /** No entry sits further from its new ideal bucket than it did from its old one. */
  ghost predicate NoFurther(o: Indices, w: Indices) {
    forall ob, nb :: 0 <= ob < |o| && 0 <= nb < |w| && o[ob].Some? && w[nb] == o[ob] ==>
      DistAt(w, nb) <= DistAt(o, ob)
  }

  lemma CarriedNoFurther(o: Indices, w: Indices, first: nat)
    requires Distinct(o) && Carried(o, w, first, |o|)
    ensures NoFurther(o, w)
  {
    forall ob, nb | 0 <= ob < |o| && 0 <= nb < |w| && o[ob].Some? && w[nb] == o[ob]
      ensures DistAt(w, nb) <= DistAt(o, ob)
    {
      assert Origin(o, w, first, |o|, nb);
      var ob' :| Placed(o, w, first, ob', nb) && Offset(|o|, first, ob') < |o|;
      assert ob' == ob;
    }
  }
}

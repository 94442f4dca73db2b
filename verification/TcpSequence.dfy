/** Circular 32-bit sequence numbers and an ordered map read circularly (section 3.4 of RFC 9293). */
module TcpSequence {
  import opened Wrappers

  const MODULUS := 0x1_0000_0000

  type u32 = x: int | 0 <= x < MODULUS

  /** Steps forward from `a` to `b`: wrapping subtraction. */
  function Ahead(a: u32, b: u32): (d: u32) {
    if a <= b then b - a else b - a + MODULUS
  }

  /** The sequence number of a stream offset, wrapping as often as it takes. */
  function Key(isn: u32, off: nat): (k: u32) {
    (isn + off) % MODULUS
  }

  /** Within one turn, distance between sequence numbers is distance between offsets. */
  lemma KeyDistance(isn: u32, a: nat, b: nat)
    requires a <= b < a + MODULUS
    ensures Ahead(Key(isn, a), Key(isn, b)) == b - a
  {
  }

  lemma KeyInjective(isn: u32, a: nat, b: nat)
    requires a < b < a + MODULUS
    ensures Key(isn, a) != Key(isn, b)
  {
  }

  ghost predicate IsLeast(s: set<u32>, k: u32) {
    k in s && forall j :: j in s ==> k <= j
  }

  lemma {:induction false} LeastExists(s: set<u32>) returns (k: u32)
    requires s != {}
    ensures IsLeast(s, k)
  {
    var x :| x in s;
    var rest := s - {x};
    if rest == {} {
      assert s == {x};
      k := x;
    } else {
      var y := LeastExists(rest);
      k := if x < y then x else y;
      assert s == rest + {x};
    }
  }

  function Least(s: set<u32>): (k: u32)
    requires s != {}
    ensures k in s && forall j :: j in s ==> k <= j
  {
    assert exists k :: IsLeast(s, k) by { var _ := LeastExists(s); }
    var k: u32 :| k in s && forall j :: j in s ==> k <= j;
    k
  }

  // ----- a cursor over the keys of an ordered map -----

  /** The first key at or after `pos`, or else the first key. */
  function Peek(keys: set<u32>, pos: u32): (r: Option<u32>)
    ensures r.None? <==> keys == {}
    ensures r.Some? ==> r.value in keys
  {
    var later := set k | k in keys && pos <= k;
    if later != {} then Some(Least(later))
    else if keys != {} then Some(Least(keys))
    else None
  }

  /** The first key after `pos`, or else the first key. */
  function PeekNext(keys: set<u32>, pos: u32): (r: Option<u32>)
    ensures r.None? <==> keys == {}
    ensures r.Some? ==> r.value in keys
  {
    var later := set k | k in keys && pos < k;
    if later != {} then Some(Least(later))
    else if keys != {} then Some(Least(keys))
    else None
  }

  /** The cursor sees the key nearest ahead, going round. */
  lemma PeekIsNearest(keys: set<u32>, pos: u32, j: u32)
    requires j in keys
    ensures Ahead(pos, Peek(keys, pos).value) <= Ahead(pos, j)
  {
    var later := set k | k in keys && pos <= k;
    assert j >= pos ==> j in later;
    if later != {} {
      assert Peek(keys, pos) == Some(Least(later));
    } else {
      assert Peek(keys, pos) == Some(Least(keys));
    }
  }

  lemma PeekAtKey(keys: set<u32>, pos: u32)
    requires pos in keys
    ensures Peek(keys, pos) == Some(pos)
  {
    PeekIsNearest(keys, pos, pos);
  }

  /** Past a key the cursor sees the nearest other key, or the same one if it is alone. */
  lemma PeekNextIsNearest(keys: set<u32>, pos: u32, j: u32)
    requires pos in keys && j in keys && j != pos
    ensures var k := PeekNext(keys, pos).value;
            k != pos && Ahead(pos, k) <= Ahead(pos, j)
  {
    var later := set k | k in keys && pos < k;
    assert j > pos ==> j in later;
    if later != {} {
      assert PeekNext(keys, pos) == Some(Least(later));
    } else {
      assert PeekNext(keys, pos) == Some(Least(keys));
    }
  }
}

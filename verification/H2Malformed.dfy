/**
 Any list of headers that a peer may send: whether it is malformed (sections 8.1.2.1 and 8.1.2.2 of
 RFC 7540), and the block it makes otherwise.
 */
module H2Malformed {
  import opened Wrappers
  import opened HpackHeader
  import opened Octets
  import opened H2HeaderBlock

  /** Fields that belong to a connection, not to a message. */
  const BANNED: seq<string> := ["connection", "keep-alive", "proxy-connection", "transfer-encoding", "upgrade"]

  ghost predicate Banned(h: Header) {
    && h.name.Field?
    && ((exists s :: s in BANNED && h.name.text == Ascii(s))
        || (h.name.text == Ascii("te") && h.value != Ascii("trailers")))
  }

  lemma RefusesBanned(h: Header)
    requires h.name.Field?
    ensures Refused(h.name.text, h.value) <==> Banned(h)
  {
    hide Ascii;
    var l := BANNED;
    assert l[0] == "connection" && l[1] == "keep-alive" && l[2] == "proxy-connection";
    assert l[3] == "transfer-encoding" && l[4] == "upgrade";
    assert forall s :: s in l <==> s in {l[0], l[1], l[2], l[3], l[4]};
  }

  ghost predicate Regular(h: Header) {
    h.name.Field? && !Banned(h)
  }

  /** A banned field, a pseudo header behind a regular field, or one that was there before. */
  ghost predicate BadAt(hs: seq<Header>, i: nat)
    requires i < |hs|
  {
    if hs[i].name.Field? then Banned(hs[i])
    else exists j :: 0 <= j < i && (Regular(hs[j]) || hs[j].name == hs[i].name)
  }

  ghost predicate Malformed(hs: seq<Header>) {
    exists i :: 0 <= i < |hs| && BadAt(hs, i)
  }

  ghost predicate SomeRegular(hs: seq<Header>) {
    exists j :: 0 <= j < |hs| && Regular(hs[j])
  }

  ghost predicate Occurs(hs: seq<Header>, n: Name) {
    exists j :: 0 <= j < |hs| && hs[j].name == n
  }

  // ----- one more header -----

  lemma BadLast(hs: seq<Header>, h: Header)
    ensures Malformed(hs + [h]) <==>
              Malformed(hs) || (if h.name.Field? then Banned(h) else SomeRegular(hs) || Occurs(hs, h.name))
  {
    hide Banned, Regular;
    var all := hs + [h];
    assert forall i :: 0 <= i < |hs| ==> all[i] == hs[i];
    forall i | 0 <= i < |hs|
      ensures BadAt(all, i) <==> BadAt(hs, i)
    {
    }
    assert BadAt(all, |hs|) <==> (if h.name.Field? then Banned(h) else SomeRegular(hs) || Occurs(hs, h.name));
    if Malformed(hs) {
      var i :| 0 <= i < |hs| && BadAt(hs, i);
      assert BadAt(all, i);
    }
  }

  lemma RegularLast(hs: seq<Header>, h: Header, n: Name)
    ensures SomeRegular(hs + [h]) <==> SomeRegular(hs) || Regular(h)
    ensures Occurs(hs + [h], n) <==> Occurs(hs, n) || h.name == n
  {
    hide Regular;
    var all := hs + [h];
    assert forall i :: 0 <= i < |hs| ==> all[i] == hs[i];
    assert all[|hs|] == h;
    if SomeRegular(hs) {
      var j :| 0 <= j < |hs| && Regular(hs[j]);
      assert Regular(all[j]);
    }
    if Occurs(hs, n) {
      var j :| 0 <= j < |hs| && hs[j].name == n;
      assert all[j].name == n;
    }
  }

  /** What a load that is within the limit has seen. */
  ghost predicate Saw(hs: seq<Header>, s: Loading, max: nat) {
    && s.size <= SizeOf(hs) && !s.block.isOverSize
    && (s.malformed <==> Malformed(hs)) && (s.reg <==> SomeRegular(hs))
    && forall n: Name :: !n.Field? ==>
         && (Get(s.block.pseudo, n).Some? ==> Occurs(hs, n))
         && (Occurs(hs, n) ==> Get(s.block.pseudo, n).Some? || s.reg)
  }

  lemma SawOne(max: nat, hs: seq<Header>, s: Loading, h: Header)
    requires Saw(hs, s, max) && SizeOf(hs + [h]) < max
    ensures Saw(hs + [h], LoadOne(max, s, h), max)
  {
    hide Refused, Banned, Malformed, SomeRegular, Occurs, HeaderSize, Append;
    SizeAppend(hs, [h]);
    assert SizeOf([h]) == HeaderSize(h) + SizeOf([]);
    BadLast(hs, h);
    forall n: Name
      ensures SomeRegular(hs + [h]) <==> SomeRegular(hs) || Regular(h)
      ensures Occurs(hs + [h], n) <==> Occurs(hs, n) || h.name == n
    {
      RegularLast(hs, h, n);
    }
    RegularLast(hs, h, h.name);
    if h.name.Field? {
      RefusesBanned(h);
    }
  }

  lemma {:induction false} LoadSees(max: nat, hs: seq<Header>)
    requires SizeOf(hs) < max
    ensures Saw(hs, LoadAll(max, Begin(EMPTY_BLOCK), hs), max)
  {
    hide Saw, LoadOne, HeaderSize;
    var s := Begin(EMPTY_BLOCK);
    if hs == [] {
      SawNothing(max);
    } else {
      var n := |hs| - 1;
      assert hs == hs[..n] + [hs[n]];
      SizeAppend(hs[..n], [hs[n]]);
      LoadSees(max, hs[..n]);
      LoadAppend(max, s, hs[..n], [hs[n]]);
      var s' := LoadAll(max, s, hs[..n]);
      assert [hs[n]][1..] == [];
      assert LoadAll(max, s', [hs[n]]) == LoadAll(max, LoadOne(max, s', hs[n]), []);
      SawOne(max, hs[..n], s', hs[n]);
    }
  }

  lemma SawNothing(max: nat)
    ensures Saw([], Begin(EMPTY_BLOCK), max)
  {
  }

  /** A list within the limit is found malformed exactly when it is. */
  lemma MalformedIff(max: nat, hs: seq<Header>)
    requires SizeOf(hs) < max
    ensures LoadAll(max, Begin(EMPTY_BLOCK), hs).malformed <==> Malformed(hs)
  {
    hide Malformed, LoadAll;
    LoadSees(max, hs);
  }

  // ----- lists that are too large -----

  /** Malformed whatever its size: a banned field, or a pseudo header behind a regular field. */
  ghost predicate Misplaced(hs: seq<Header>) {
    exists i :: 0 <= i < |hs| && (if hs[i].name.Field? then Banned(hs[i]) else SomeRegular(hs[..i]))
  }

  lemma MisplacedLast(hs: seq<Header>, h: Header)
    ensures Misplaced(hs + [h]) <==> Misplaced(hs) || (if h.name.Field? then Banned(h) else SomeRegular(hs))
  {
    hide Banned, SomeRegular;
    var all := hs + [h];
    assert forall i :: 0 <= i < |hs| ==> all[i] == hs[i] && all[..i] == hs[..i];
    assert all[..|hs|] == hs && all[|hs|] == h;
    if Misplaced(hs) {
      var i :| 0 <= i < |hs| && (if hs[i].name.Field? then Banned(hs[i]) else SomeRegular(hs[..i]));
      assert if all[i].name.Field? then Banned(all[i]) else SomeRegular(all[..i]);
    }
  }

  ghost predicate SawAny(hs: seq<Header>, s: Loading) {
    && (s.reg <==> SomeRegular(hs)) && (Misplaced(hs) ==> s.malformed) && (s.malformed ==> Malformed(hs))
    && (forall n: Name :: !n.Field? && Get(s.block.pseudo, n).Some? ==> Occurs(hs, n))
  }

  lemma SawAnyOne(max: nat, hs: seq<Header>, s: Loading, h: Header)
    requires SawAny(hs, s)
    ensures SawAny(hs + [h], LoadOne(max, s, h))
  {
    hide Refused, Banned, Malformed, Misplaced, SomeRegular, Occurs, HeaderSize, Append;
    BadLast(hs, h);
    MisplacedLast(hs, h);
    forall n: Name
      ensures SomeRegular(hs + [h]) <==> SomeRegular(hs) || Regular(h)
      ensures Occurs(hs + [h], n) <==> Occurs(hs, n) || h.name == n
    {
      RegularLast(hs, h, n);
    }
    RegularLast(hs, h, h.name);
    if h.name.Field? {
      RefusesBanned(h);
    }
  }

  /** Of a list of any size only a repeated pseudo header may go unnoticed, and nothing else is taken for malformed. */
  lemma {:induction false} MalformedAnySize(max: nat, hs: seq<Header>)
    ensures SawAny(hs, LoadAll(max, Begin(EMPTY_BLOCK), hs))
  {
    hide SawAny, LoadOne;
    var s := Begin(EMPTY_BLOCK);
    if hs == [] {
      SawAnyNothing();
    } else {
      var n := |hs| - 1;
      assert hs == hs[..n] + [hs[n]];
      MalformedAnySize(max, hs[..n]);
      LoadAppend(max, s, hs[..n], [hs[n]]);
      var s' := LoadAll(max, s, hs[..n]);
      assert LoadAll(max, s', [hs[n]]) == LoadAll(max, LoadOne(max, s', hs[n]), []);
      SawAnyOne(max, hs[..n], s', hs[n]);
    }
  }

  lemma SawAnyNothing()
    ensures SawAny([], Begin(EMPTY_BLOCK))
  {
  }

  /** The size of a header: its name and value as they are on the wire, and 32. */
  lemma SizesAre(h: Header)
    ensures HeaderSize(h) == |NameSlice(h.name)| + |h.value| + 32
    ensures h.name != Status || |h.value| == 3 ==> Len(h) == HeaderSize(h)
  {
    hide Ascii;
  }

  // ----- the block it makes -----

  /** The values of a name, in the order they came. */
  function ValuesFor(hs: seq<Header>, name: Bytes): (vs: seq<Value>) {
    if hs == [] then []
    else
      var h := hs[|hs| - 1];
      ValuesFor(hs[..|hs| - 1], name) + (if h.name == Field(name) then [Value(h.value, h.sensitive)] else [])
  }

  /** The values of a name in a block. */
  function ValuesIn(fields: FieldMap, name: Bytes): (vs: seq<Value>) {
    if fields == [] then []
    else (if fields[0].name == name then fields[0].values else []) + ValuesIn(fields[1..], name)
  }

  lemma {:induction false} NoneIn(fields: FieldMap, name: Bytes)
    requires forall i :: 0 <= i < |fields| ==> fields[i].name != name
    ensures ValuesIn(fields, name) == []
  {
    if fields != [] {
      NoneIn(fields[1..], name);
    }
  }

  lemma {:induction false} AppendAdds(fields: FieldMap, name: Bytes, v: Value, q: Bytes)
    requires IsMap(fields)
    ensures ValuesIn(Append(fields, name, v), q) == ValuesIn(fields, q) + (if q == name then [v] else [])
  {
    var r := Append(fields, name, v);
    if fields == [] {
      assert r == [Group(name, [v])] && r[1..] == [];
    } else if fields[0].name == name {
      assert r[1..] == fields[1..];
      NoneIn(fields[1..], name);
    } else {
      assert r[1..] == Append(fields[1..], name, v);
      AppendAdds(fields[1..], name, v, q);
      var first := if fields[0].name == q then fields[0].values else [];
      assert r[0] == fields[0];
      assert first + (ValuesIn(fields[1..], q) + [v]) == (first + ValuesIn(fields[1..], q)) + [v];
    }
  }

  lemma {:induction false} AppendNames(fields: FieldMap, name: Bytes, v: Value)
    ensures var r := Append(fields, name, v);
            forall i :: 0 <= i < |r| ==>
              r[i].name == name || exists j :: 0 <= j < |fields| && fields[j].name == r[i].name
  {
    var r := Append(fields, name, v);
    if fields != [] && fields[0].name != name {
      AppendNames(fields[1..], name, v);
      forall i | 0 <= i < |r|
        ensures r[i].name == name || exists j :: 0 <= j < |fields| && fields[j].name == r[i].name
      {
        if i > 0 && r[i].name != name {
          assert r[i] == Append(fields[1..], name, v)[i - 1];
          var j :| 0 <= j < |fields[1..]| && fields[1..][j].name == r[i].name;
          assert fields[j + 1].name == r[i].name;
        }
      }
    }
  }

  lemma {:induction false} AppendMaps(fields: FieldMap, name: Bytes, v: Value)
    requires IsMap(fields)
    ensures IsMap(Append(fields, name, v))
  {
    var r := Append(fields, name, v);
    if fields != [] {
      if fields[0].name == name {
        assert forall i :: 0 < i < |r| ==> r[i] == fields[i];
      } else {
        AppendMaps(fields[1..], name, v);
        AppendNames(fields[1..], name, v);
        assert forall i :: 0 < i < |r| ==> r[i] == Append(fields[1..], name, v)[i - 1];
      }
    }
  }

  /** The block holds what the list says: each pseudo header, and each field's values in order, nothing else. */
  ghost predicate Holds(hs: seq<Header>, b: HeaderBlock) {
    && IsMap(b.fields) && !b.isOverSize
    && (forall q: Bytes :: ValuesIn(b.fields, q) == ValuesFor(hs, q))
    && (forall i :: 0 <= i < |hs| && !hs[i].name.Field? ==> Get(b.pseudo, hs[i].name) == Some(hs[i].value))
    && (forall n: Name :: !n.Field? && Get(b.pseudo, n).Some? ==> Occurs(hs, n))
  }

  lemma ValuesLast(hs: seq<Header>, h: Header, q: Bytes)
    ensures ValuesFor(hs + [h], q)
            == ValuesFor(hs, q) + (if h.name == Field(q) then [Value(h.value, h.sensitive)] else [])
  {
    assert (hs + [h])[..|hs|] == hs;
  }

  lemma HoldsField(max: nat, hs: seq<Header>, s: Loading, h: Header)
    requires Holds(hs, s.block) && h.name.Field? && !Refused(h.name.text, h.value) && s.size + HeaderSize(h) < max
    ensures Holds(hs + [h], LoadOne(max, s, h).block)
  {
    hide Refused, Append, HeaderSize, IsMap, ValuesIn, ValuesFor, Occurs;
    var v := Value(h.value, h.sensitive);
    var all := hs + [h];
    AppendMaps(s.block.fields, h.name.text, v);
    forall q: Bytes
      ensures ValuesIn(Append(s.block.fields, h.name.text, v), q) == ValuesFor(all, q)
    {
      AppendAdds(s.block.fields, h.name.text, v, q);
      ValuesLast(hs, h, q);
    }
    forall n: Name
      ensures Occurs(all, n) <==> Occurs(hs, n) || h.name == n
    {
      RegularLast(hs, h, n);
    }
    assert forall i :: 0 <= i < |hs| ==> all[i] == hs[i];
  }

  lemma HoldsPseudo(max: nat, hs: seq<Header>, s: Loading, h: Header)
    requires Holds(hs, s.block) && !h.name.Field? && !s.reg && Get(s.block.pseudo, h.name).None?
    requires s.size + HeaderSize(h) < max
    ensures Holds(hs + [h], LoadOne(max, s, h).block)
  {
    hide HeaderSize, IsMap, ValuesIn, ValuesFor, Occurs;
    var all := hs + [h];
    forall q: Bytes
      ensures ValuesIn(s.block.fields, q) == ValuesFor(all, q)
    {
      ValuesLast(hs, h, q);
      assert ValuesFor(hs, q) + [] == ValuesFor(hs, q);
    }
    forall n: Name
      ensures Occurs(all, n) <==> Occurs(hs, n) || h.name == n
    {
      RegularLast(hs, h, n);
    }
    assert forall i :: 0 <= i < |hs| ==> all[i] == hs[i];
    forall i | 0 <= i < |hs| && !hs[i].name.Field?
      ensures hs[i].name != h.name
    {
      assert Get(s.block.pseudo, hs[i].name) == Some(hs[i].value);
    }
  }

  /** Whatever their order, the headers of a list that is not malformed are all in the block, and nothing else. */
  lemma {:induction false} LoadHolds(max: nat, hs: seq<Header>)
    requires SizeOf(hs) < max && !Malformed(hs)
    ensures Holds(hs, LoadAll(max, Begin(EMPTY_BLOCK), hs).block)
  {
    hide Holds, LoadOne, HeaderSize, Malformed, Banned, Refused, Occurs, SomeRegular, Saw;
    var s := Begin(EMPTY_BLOCK);
    if hs == [] {
      HoldsNothing();
    } else {
      var n := |hs| - 1;
      var h := hs[n];
      assert hs == hs[..n] + [h];
      SizeAppend(hs[..n], [h]);
      assert SizeOf([h]) == HeaderSize(h) + SizeOf([]);
      BadLast(hs[..n], h);
      LoadHolds(max, hs[..n]);
      LoadSees(max, hs[..n]);
      LoadAppend(max, s, hs[..n], [h]);
      var s' := LoadAll(max, s, hs[..n]);
      assert LoadAll(max, s', [h]) == LoadAll(max, LoadOne(max, s', h), []);
      SawMeans(hs[..n], s', max, h.name);
      if h.name.Field? {
        RefusesBanned(h);
        HoldsField(max, hs[..n], s', h);
      } else {
        HoldsPseudo(max, hs[..n], s', h);
      }
    }
  }

  lemma SawMeans(hs: seq<Header>, s: Loading, max: nat, n: Name)
    requires Saw(hs, s, max)
    ensures s.size <= SizeOf(hs) && (s.reg <==> SomeRegular(hs))
    ensures !n.Field? && Get(s.block.pseudo, n).Some? ==> Occurs(hs, n)
  {
  }

  lemma HoldsNothing()
    ensures Holds([], Begin(EMPTY_BLOCK).block)
  {
  }
}

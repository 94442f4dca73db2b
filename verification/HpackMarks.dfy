/** The never-index marks a block carries on the wire, and what never enters a table over a whole conversation. */
module HpackMarks {
  import opened Wrappers
  import opened HpackHeader
  import opened Octets
  import opened HpackFifo
  import opened HpackStatic
  import opened HpackInt
  import opened HpackString
  import opened HpackLockstep
  import opened HpackPolicy
  import D = HpackDecode
  import E = HpackEncode

  /** The representations of the headers in a buffer, as far as it can be read. */
  function RepsOf(env: D.Env, st: D.State, canResize: bool, buf: Bytes): (reps: seq<D.Representation>)
    decreases |buf|
  {
    if buf == [] then []
    else
      match D.ParseOne(env, st, canResize, buf)
      case Failed(_) => []
      case Parsed(effect, used) =>
        (if effect.emitted == [] then [] else [D.Load(buf[0])])
        + RepsOf(env, effect.state, canResize && effect.emitted == [], buf[used..])
  }

  /**
   A representation that suits a header: one that must not be indexed is marked unless it is a known header,
   and no other is marked.
   */
  ghost predicate Suits(item: E.Item, rep: D.Representation) {
    match item
    case Named(h) => if h.sensitive then rep.NeverIndexed? || rep.IndexedRep? else !rep.NeverIndexed?
    case Nameless(_, sensitive) => if sensitive then rep.NeverIndexed? else rep.WithoutIndexing?
  }

  ghost predicate AllSuit(items: seq<E.Item>, reps: seq<D.Representation>) {
    |reps| == |items| && forall i :: 0 <= i < |items| ==> Suits(items[i], reps[i])
  }

  lemma SuitsFirst(items: seq<E.Item>, rep: D.Representation, reps: seq<D.Representation>)
    requires items != [] && Suits(items[0], rep) && AllSuit(items[1..], reps)
    ensures AllSuit(items, [rep] + reps)
  {
    hide Suits;
    var all := [rep] + reps;
    forall i | 0 <= i < |items|
      ensures Suits(items[i], all[i])
    {
      if i > 0 {
        assert items[i] == items[1..][i - 1] && all[i] == reps[i - 1];
      }
    }
  }

  lemma NamedSuits(es: Entries, max: nat, h: Header, huffman: Huffman, rest: Bytes)
    requires NoneSensitive(es)
    ensures var (i, es') := IndexHeader(es, max, h);
            && E.Resolves(i, es') && E.HeaderBytes(huffman, i, es') != []
            && Suits(E.Named(h), D.Load((E.HeaderBytes(huffman, i, es') + rest)[0]))
  {
    hide IndexHeader, E.HeaderBytes, D.Load, NoneSensitive;
    var (i, es') := IndexHeader(es, max, h);
    E.IndexResolves(es, max, h);
    IndexMeans(es, max, h);
    HasOctets(i, es', huffman);
    Announces(i, es', huffman, rest);
    MeansMark(i, es, es', max, h);
  }

  lemma HasOctets(i: Index, es: Entries, h: Huffman)
    requires E.Resolves(i, es)
    ensures E.HeaderBytes(h, i, es) != []
  {
  }

  /** Only headers that may be indexed are inserted. */
  lemma MeansMark(i: Index, es: Entries, es': Entries, max: nat, h: Header)
    requires Means(i, es, es', max, h)
    ensures i.Inserted? || i.InsertedValue? ==> !h.sensitive
    ensures i.NameOnly? || i.NotIndexed? ==> i.header == h
  {
  }

  lemma NamelessSuits(last: Index, value: Bytes, sensitive: bool, huffman: Huffman, rest: Bytes)
    ensures var b := E.NamelessBytes(huffman, last, value, sensitive);
            b != [] && Suits(E.Nameless(value, sensitive), D.Load((b + rest)[0]))
  {
    hide IntBytes, StrBytes;
    var tag := E.NotIndexedTag(sensitive);
    match last
    case Indexed(idx, _) => IntTag(idx, 4, tag);
    case NameOnly(idx, _) => IntTag(idx, 4, tag);
    case Inserted(slot) => IntTag(slot + DYN_OFFSET, 4, tag);
    case InsertedValue(_, slot) => IntTag(slot + DYN_OFFSET, 4, tag);
    case NotIndexed(_) =>
  }

  lemma StepReps(env: D.Env, st: D.State, canResize: bool, b: Bytes, rest: Bytes, st': D.State, h: Header)
    requires b != [] && D.ParseOne(env, st, canResize, b + rest) == Parsed(D.Effect(st', [h]), |b|)
    ensures RepsOf(env, st, canResize, b + rest) == [D.Load((b + rest)[0])] + RepsOf(env, st', false, rest)
  {
    assert (b + rest)[|b|..] == rest;
  }

  lemma {:induction false} ItemsSuit(env: D.Env, st: D.State, canResize: bool, last: Option<Index>,
                                     name: Option<Name>, items: seq<E.Item>)
    requires Assumed(env) && Sound(st.entries, st.max) && E.WellFormed(items, name.Some?)
    requires last.Some? == name.Some? && (last.Some? ==> LastNames(last.value, st.entries, name.value))
    requires AllAcceptable(env, items, name)
    ensures AllSuit(items, RepsOf(env, st, canResize, E.ItemBytes(env.huffman, st.entries, st.max, last, items).0))
    decreases |items|
  {
    hide IndexHeader, Acceptable, D.ParseOne, D.Load, Means, LastNames, Sound, E.HeaderBytes, E.NamelessBytes, Suits,
         RepsOf, E.Resolves;
    if items == [] {
      NoReps(env, st, canResize);
    } else {
      SoundIndices(st.entries, st.max);
      match items[0]
      case Named(h) =>
        var (i, es') := IndexHeader(st.entries, st.max, h);
        SoundPlain(st.entries, st.max);
        IndexMeans(st.entries, st.max, h);
        IndexKeepsSound(st.entries, st.max, h);
        E.IndexResolves(st.entries, st.max, h);
        MeansNames(i, st.entries, es', st.max, h);
        var b := E.ItemBytes(env.huffman, es', st.max, Some(i), items[1..]).0;
        HeaderLockstep(env, st, canResize, i, es', h, b);
        NamedSuits(st.entries, st.max, h, env.huffman, b);
        StepReps(env, st, canResize, E.HeaderBytes(env.huffman, i, es'), b, st.(entries := es'), Plain(h));
        ItemsSuit(env, st.(entries := es'), false, Some(i), Some(h.name), items[1..]);
        SuitsFirst(items, D.Load((E.HeaderBytes(env.huffman, i, es') + b)[0]),
                   RepsOf(env, st.(entries := es'), false, b));
      case Nameless(v, s) =>
        var h := Header(name.value, v, s);
        var b := E.ItemBytes(env.huffman, st.entries, st.max, last, items[1..]).0;
        NamelessLockstep(env, st, canResize, last.value, h, b);
        NamelessSuits(last.value, v, s, env.huffman, b);
        StepReps(env, st, canResize, E.NamelessBytes(env.huffman, last.value, v, s), b, st, Plain(h));
        ItemsSuit(env, st, false, last, name, items[1..]);
        SuitsFirst(items, D.Load((E.NamelessBytes(env.huffman, last.value, v, s) + b)[0]), RepsOf(env, st, false, b));
    }
  }

  lemma NoReps(env: D.Env, st: D.State, canResize: bool)
    ensures RepsOf(env, st, canResize, []) == []
  {
  }

  lemma UpdateReps(env: D.Env, st: D.State, v: nat, rest: Bytes)
    requires v <= st.allowed && v <= TABLE_LIMIT
    ensures RepsOf(env, st, true, E.SizeUpdateBytes(v) + rest)
         == RepsOf(env, st.(entries := EvictTo(st.entries, v), max := v), true, rest)
  {
    hide IntBytes, ParseInt, EvictTo;
    var b := E.SizeUpdateBytes(v);
    IntTag(v, 5, 0x20);
    IntRoundTrip(v, 5, 0x20, rest);
    assert (b + rest)[|b|..] == rest;
  }

  lemma UpdatesReps(env: D.Env, enc: E.State, st: D.State, rest: Bytes)
    requires st.entries == enc.entries && st.max == enc.max
    requires UpdateFits(enc.update, st.allowed) && st.allowed <= TABLE_LIMIT
    ensures var (b, enc') := E.ApplyUpdate(enc);
            RepsOf(env, st, true, b + rest) == RepsOf(env, st.(entries := enc'.entries, max := enc'.max), true, rest)
  {
    hide EvictTo, RepsOf;
    match enc.update
    case None =>
      assert [] + rest == rest;
    case Some(One(v)) =>
      UpdateReps(env, st, v, rest);
    case Some(Two(low, high)) =>
      var b, b' := E.SizeUpdateBytes(low), E.SizeUpdateBytes(high);
      assert b + b' + rest == b + (b' + rest);
      UpdateReps(env, st, low, b' + rest);
      UpdateReps(env, st.(entries := EvictTo(st.entries, low), max := low), high, rest);
  }

  /** On the wire of any block, exactly the headers that must not be indexed are marked, known ones aside. */
  lemma BlockSuits(env: D.Env, l: Link, items: seq<E.Item>)
    requires Assumed(env) && InSync(l) && EventOk(env, l, Block(items))
    ensures AllSuit(items, RepsOf(env, Begin(l.dec, l.queued), true, E.EncodeBlock(env.huffman, l.enc, items).0))
  {
    hide RepsOf, E.ItemBytes, E.ApplyUpdate, Sound, UpdateFits, AllAcceptable, AllSuit;
    var (prefix, enc') := E.ApplyUpdate(l.enc);
    var (body, es) := E.ItemBytes(env.huffman, enc'.entries, enc'.max, None, items);
    var st := Begin(l.dec, l.queued);
    UpdatesLockstep(env, l.enc, st, body);
    UpdatesReps(env, l.enc, st, body);
    ItemsSuit(env, st.(entries := enc'.entries, max := enc'.max), true, None, None, items);
  }

  // ----- what never enters a table -----

  lemma {:induction false} ItemsUnstored(h: Huffman, es: Entries, max: nat, last: Option<Index>, items: seq<E.Item>)
    requires NoneUnstored(es) && E.WellFormed(items, last.Some?)
    ensures NoneUnstored(E.ItemBytes(h, es, max, last, items).1)
    decreases |items|
  {
    hide IndexHeader, NoneUnstored, E.HeaderBytes, E.NamelessBytes, E.Resolves;
    if items != [] {
      match items[0]
      case Named(hd) =>
        IndexUnstored(es, max, hd);
        ItemsUnstored(h, IndexHeader(es, max, hd).1, max, Some(IndexHeader(es, max, hd).0), items[1..]);
      case Nameless(_, _) =>
        ItemsUnstored(h, es, max, last, items[1..]);
    }
  }

  lemma BlockUnstored(h: Huffman, enc: E.State, items: seq<E.Item>)
    requires NoneUnstored(enc.entries) && E.WellFormed(items, false)
    ensures NoneUnstored(E.EncodeBlock(h, enc, items).1.entries)
  {
    hide NoneUnstored, EvictTo, E.ItemBytes;
    var st' := E.ApplyUpdate(enc).1;
    if enc.update.Some? {
      match enc.update.value
      case One(v) => EvictUnstored(enc.entries, v);
      case Two(low, high) =>
        EvictUnstored(enc.entries, low);
        EvictUnstored(EvictTo(enc.entries, low), high);
    }
    ItemsUnstored(h, st'.entries, st'.max, None, items);
  }

  /** At every point of a conversation, neither table holds such a header. */
  ghost predicate NeverStored(env: D.Env, l: Link, evs: seq<Event>)
    requires GoodRun(env, l, evs)
    decreases |evs|
  {
    && NoneUnstored(l.enc.entries) && NoneUnstored(l.dec.entries)
    && (evs != [] ==> NeverStored(env, Step(env, l, evs[0]), evs[1..]))
  }

  lemma {:induction false} RunNeverStores(env: D.Env, l: Link, evs: seq<Event>)
    requires Assumed(env) && InSync(l) && GoodRun(env, l, evs) && NoneUnstored(l.enc.entries)
    ensures NeverStored(env, l, evs)
    decreases |evs|
  {
    hide D.DecodeAll, E.EncodeBlock, Sound, UpdateFits, AllAcceptable, NoneUnstored;
    if evs != [] {
      if evs[0].Block? {
        BlockLockstep(env, l, evs[0].items);
        BlockUnstored(env.huffman, l.enc, evs[0].items);
      }
      RunNeverStores(env, Step(env, l, evs[0]), evs[1..]);
    }
  }
}

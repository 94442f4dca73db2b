/**
 The encoder's and the decoder's tables stay in lockstep: the decoder reads back every
 header the encoder wrote and ends with the same table (sections 2.3, 4 and 6 of RFC 7541).
 */
module HpackLockstep {
  import opened Wrappers
  import opened HpackHeader
  import opened Octets
  import opened HpackFifo
  import opened HpackStatic
  import opened HpackInt
  import opened HpackString
  import D = HpackDecode
  import E = HpackEncode

  /** Indices below this are read back under every prefix. */
  const INDEX_LIMIT := 0x1000_0000

  /** The largest table limit that can be announced: five prefix bits and four octets. */
  const TABLE_LIMIT := 0x1000_001e

  function Plain(h: Header): (r: Header) {
    h.(sensitive := false)
  }

  /** A header the HTTP types accept, with strings short enough to read back. */
  ghost predicate Acceptable(env: D.Env, h: Header) {
    && env.grammar.value(h.name, h.value)
    && (h.name.Field? ==> env.grammar.fieldName(h.name.text))
    && Encodable(env.huffman, NameSlice(h.name))
    && Encodable(env.huffman, h.value)
  }

  ghost predicate Assumed(env: D.Env) {
    RoundTrips(env.huffman) && D.Sane(env.grammar)
  }

  // ----- names -----

  lemma AsciiTail(s: string, t: string)
    requires |s| == |t| + 1 && s[1..] == t
    ensures Ascii(s)[1..] == Ascii(t)
  {
  }

  lemma AsciiDiffer(s: string, t: string, i: nat)
    requires i < |s| && i < |t| && s[i] as int < 256 && t[i] as int < 256 && s[i] != t[i]
    ensures Ascii(s) != Ascii(t)
  {
    assert Ascii(s)[i] != Ascii(t)[i];
  }

  lemma PseudoTail(n: Name)
    requires !n.Field?
    ensures var b := NameSlice(n);
            |b| > 1 && b[0] == ':' as int && D.PseudoName(b[1..]) == Some(n)
  {
    hide Ascii;
    assert ':' as int < 256;
    match n
    case Authority =>
      AsciiTail(":authority", "authority");
      FirstOctet(":authority");
    case Method =>
      AsciiTail(":method", "method");
      FirstOctet(":method");
    case Scheme =>
      AsciiTail(":scheme", "scheme");
      AsciiDiffer("scheme", "method", 0);
      FirstOctet(":scheme");
    case Path =>
      AsciiTail(":path", "path");
      FirstOctet(":path");
    case Protocol =>
      AsciiTail(":protocol", "protocol");
      FirstOctet(":protocol");
    case Status =>
      AsciiTail(":status", "status");
      AsciiDiffer("status", "method", 0);
      AsciiDiffer("status", "scheme", 1);
      FirstOctet(":status");
  }

  lemma FirstOctet(s: string)
    requires s != [] && s[0] as int < 256
    ensures Ascii(s)[0] == s[0] as int
  {
  }

  /** A literal name and value are read back as the header they came from. */
  lemma NewHeaderReads(env: D.Env, h: Header)
    requires Assumed(env) && Acceptable(env, h)
    ensures D.NewHeader(env.grammar, NameSlice(h.name), h.value) == Ok(Plain(h))
  {
    if !h.name.Field? {
      hide NameSlice, D.PseudoName;
      PseudoTail(h.name);
    }
  }

  // ----- what an index means to the decoder -----

  ghost predicate NamesAt(es: Entries, idx: nat, n: Name) {
    1 <= idx < DYN_OFFSET + |es| && D.Lookup(es, idx).Ok? && D.Lookup(es, idx).value.name == n
  }

  /** The representation chosen for `h` tells the decoder its name, value and effect on the table. */
  ghost predicate Means(i: Index, es: Entries, es': Entries, max: nat, h: Header) {
    match i
    case Indexed(idx, x) => x == h && es' == es && NamesAt(es, idx, h.name) && D.Lookup(es, idx).value == Plain(h)
    case NameOnly(idx, x) => x == h && es' == es && NamesAt(es, idx, h.name)
    case Inserted(slot) => slot == 0 && !h.sensitive && Len(h) <= max && es' == Insert(es, h, max)
    case InsertedValue(idx, slot) =>
      slot == 0 && !h.sensitive && Len(h) <= max && es' == Insert(es, h, max) && NamesAt(es, idx, h.name)
    case NotIndexed(x) => x == h && es' == es
  }

  lemma StaticMeans(statik: Static, es: Entries, max: nat, h: Header)
    requires StaticFits(statik, h)
    ensures Means(StaticIndex(statik, h), es, es, max, h)
    ensures statik.Some? ==> NamesAt(es, statik.value.0, h.name)
  {
  }

  lemma DynamicMeans(statik: Static, es: Entries, max: nat, h: Header)
    requires StaticFits(statik, h) && NoneSensitive(es) && Len(h) <= max
    ensures var (i, es') := IndexDynamic(es, max, h, statik); Means(i, es, es', max, h)
  {
    hide GetStatic, EvictTo, StaticFits, HasName, HasHeader, Len;
    StaticMeans(statik, es, max, h);
  }

  lemma IndexMeans(es: Entries, max: nat, h: Header)
    requires NoneSensitive(es)
    ensures var (i, es') := IndexHeader(es, max, h); Means(i, es, es', max, h)
  {
    hide IndexStatic, SkipValueIndex, IndexDynamic, StaticFits;
    var statik := IndexStatic(h);
    IndexStaticFits(h);
    StaticMeans(statik, es, max, h);
    if Len(h) * 4 <= max * 3 {
      DynamicMeans(statik, es, max, h);
    }
  }

  // ----- reading one representation -----

  lemma ReadLiteralByIndex(env: D.Env, es: Entries, prefix: nat, tag: byte, idx: nat, h: Header, rest: Bytes)
    requires Assumed(env) && Acceptable(env, h) && PrefixFits(prefix, tag)
    requires NamesAt(es, idx, h.name) && idx < INDEX_LIMIT
    ensures var b := IntBytes(idx, prefix, tag) + StrBytes(env.huffman, h.value);
            D.ParseLiteral(env, es, b + rest, prefix) == Parsed(Plain(h), |b|)
  {
    hide IntBytes, StrBytes, ParseInt, ParseString, GetStatic, NameSlice;
    var head, tail := IntBytes(idx, prefix, tag), StrBytes(env.huffman, h.value);
    assert head + tail + rest == head + (tail + rest);
    IntRoundTrip(idx, prefix, tag, tail + rest);
    StringRoundTrip(env.huffman, h.value, rest);
    assert (head + (tail + rest))[|head|..] == tail + rest;
  }

  lemma ZeroIndex(prefix: nat, tag: byte, rest: Bytes)
    requires PrefixFits(prefix, tag)
    ensures ParseInt([tag] + rest, prefix) == Parsed(0, 1)
  {
  }

  lemma ReadLiteralByName(env: D.Env, es: Entries, prefix: nat, tag: byte, h: Header, rest: Bytes)
    requires Assumed(env) && Acceptable(env, h) && PrefixFits(prefix, tag)
    ensures var b := E.LiteralByName(env.huffman, tag, NameSlice(h.name), h.value);
            D.ParseLiteral(env, es, b + rest, prefix) == Parsed(Plain(h), |b|)
  {
    hide StrBytes, ParseInt, ParseString, NameSlice, D.NewHeader;
    var name, value := StrBytes(env.huffman, NameSlice(h.name)), StrBytes(env.huffman, h.value);
    var buf := [tag] + name + value + rest;
    ZeroIndex(prefix, tag, name + value + rest);
    assert buf == [tag] + (name + value + rest);
    assert buf[1..] == name + (value + rest);
    assert buf[1 + |name|..] == value + rest;
    StringRoundTrip(env.huffman, NameSlice(h.name), value + rest);
    StringRoundTrip(env.huffman, h.value, rest);
    NewHeaderReads(env, h);
  }

  /** The first octet of each representation announces it. */
  lemma Announces(i: Index, es: Entries, h: Huffman, rest: Bytes)
    requires E.Resolves(i, es)
    ensures var b := E.HeaderBytes(h, i, es) + rest;
            && b != []
            && D.Load(b[0]) ==
               match i
               case Indexed(_, _) => D.IndexedRep
               case NameOnly(_, x) => if x.sensitive then D.NeverIndexed else D.WithoutIndexing
               case Inserted(_) => D.WithIndexing
               case InsertedValue(_, _) => D.WithIndexing
               case NotIndexed(x) => if x.sensitive then D.NeverIndexed else D.WithoutIndexing
  {
  }

  /** A header is read back whatever representation was chosen, and the tables agree afterwards. */
  lemma HeaderLockstep(env: D.Env, st: D.State, canResize: bool, i: Index, es': Entries, h: Header, rest: Bytes)
    requires Assumed(env) && Acceptable(env, h) && E.Resolves(i, es')
    requires Means(i, st.entries, es', st.max, h) && |st.entries| + DYN_OFFSET <= INDEX_LIMIT
    ensures var b := E.HeaderBytes(env.huffman, i, es');
            D.ParseOne(env, st, canResize, b + rest)
            == Parsed(D.Effect(st.(entries := es'), [Plain(h)]), |b|)
  {
    hide IntBytes, StrBytes, ParseInt, GetStatic, NameSlice, EvictTo, D.ParseLiteral, D.Load, Len, Acceptable,
         E.LiteralByName;
    Announces(i, es', env.huffman, rest);
    match i
    case Indexed(idx, _) =>
      IntRoundTrip(idx, 7, 0x80, rest);
    case NameOnly(idx, _) =>
      ReadLiteralByIndex(env, st.entries, 4, E.NotIndexedTag(h.sensitive), idx, h, rest);
    case Inserted(_) =>
      ReadLiteralByName(env, st.entries, 6, 0x40, h, rest);
    case InsertedValue(idx, _) =>
      ReadLiteralByIndex(env, st.entries, 6, 0x40, idx, h, rest);
    case NotIndexed(_) =>
      ReadLiteralByName(env, st.entries, 4, E.NotIndexedTag(h.sensitive), h, rest);
  }

  /** The last index written still names `n` in the current table. */
  ghost predicate LastNames(last: Index, es: Entries, n: Name) {
    match last
    case Indexed(idx, _) => NamesAt(es, idx, n)
    case NameOnly(idx, _) => NamesAt(es, idx, n)
    case Inserted(slot) => NamesAt(es, slot + DYN_OFFSET, n)
    case InsertedValue(_, slot) => NamesAt(es, slot + DYN_OFFSET, n)
    case NotIndexed(x) => x.name == n
  }

  lemma MeansNames(i: Index, es: Entries, es': Entries, max: nat, h: Header)
    requires Means(i, es, es', max, h)
    ensures LastNames(i, es', h.name)
  {
  }

  /** A header without a name is read back under the name of the one before it. */
  lemma NamelessLockstep(env: D.Env, st: D.State, canResize: bool, last: Index, h: Header, rest: Bytes)
    requires Assumed(env) && Acceptable(env, h)
    requires LastNames(last, st.entries, h.name) && |st.entries| + DYN_OFFSET <= INDEX_LIMIT
    ensures var b := E.NamelessBytes(env.huffman, last, h.value, h.sensitive);
            && b != []
            && D.ParseOne(env, st, canResize, b + rest) == Parsed(D.Effect(st, [Plain(h)]), |b|)
  {
    hide IntBytes, StrBytes, ParseInt, GetStatic, NameSlice, D.ParseLiteral, Acceptable;
    var tag := E.NotIndexedTag(h.sensitive);
    match last
    case NotIndexed(x) =>
      ReadLiteralByName(env, st.entries, 4, tag, h, rest);
    case _ =>
      var idx := match last
        case Indexed(idx, _) => idx
        case NameOnly(idx, _) => idx
        case Inserted(slot) => slot + DYN_OFFSET
        case InsertedValue(_, slot) => slot + DYN_OFFSET;
      IntTag(idx, 4, tag);
      ReadLiteralByIndex(env, st.entries, 4, tag, idx, h, rest);
  }

  // ----- a list of headers -----

  /** The headers a list of items stands for, as the decoder will report them. */
  function Reported(items: seq<E.Item>, name: Option<Name>): (hs: seq<Header>)
    requires E.WellFormed(items, name.Some?)
  {
    if items == [] then []
    else
      match items[0]
      case Named(h) => [Plain(h)] + Reported(items[1..], Some(h.name))
      case Nameless(v, _) => [Header(name.value, v, false)] + Reported(items[1..], name)
  }

  ghost predicate AllAcceptable(env: D.Env, items: seq<E.Item>, name: Option<Name>)
    requires E.WellFormed(items, name.Some?)
  {
    items == [] ||
    match items[0]
    case Named(h) => Acceptable(env, h) && AllAcceptable(env, items[1..], Some(h.name))
    case Nameless(v, s) => Acceptable(env, Header(name.value, v, s)) && AllAcceptable(env, items[1..], name)
  }

  /** A table both sides can be in. */
  ghost predicate Sound(es: Entries, max: nat) {
    NoneSensitive(es) && NoRepeats(es) && Size(es) <= max <= TABLE_LIMIT
  }

  lemma SoundIndices(es: Entries, max: nat)
    requires Sound(es, max)
    ensures |es| + DYN_OFFSET <= INDEX_LIMIT
  {
    SizeBound(es);
  }

  lemma IndexKeepsSound(es: Entries, max: nat, h: Header)
    requires Sound(es, max)
    ensures Sound(IndexHeader(es, max, h).1, max)
  {
    hide IndexStatic, SkipValueIndex, EvictTo, Size, Len;
    if !h.sensitive && Len(h) <= max && !HasHeader(es, h) {
      InsertKeeps(es, h, max);
    }
    NoNameNoHeader(es, h);
  }

  lemma {:induction false} ItemsLockstep(env: D.Env, st: D.State, canResize: bool, last: Option<Index>,
                                         name: Option<Name>, items: seq<E.Item>)
    requires Assumed(env) && Sound(st.entries, st.max) && E.WellFormed(items, name.Some?)
    requires last.Some? == name.Some? && (last.Some? ==> LastNames(last.value, st.entries, name.value))
    requires AllAcceptable(env, items, name)
    ensures var (b, es') := E.ItemBytes(env.huffman, st.entries, st.max, last, items);
            && Sound(es', st.max)
            && D.DecodeAll(env, st, canResize, b) == D.Decoded(st.(entries := es'), Reported(items, name), [], None)
    decreases |items|
  {
    hide IndexHeader, Acceptable, D.ParseOne, Means, LastNames, Sound, E.HeaderBytes, E.NamelessBytes;
    if items != [] {
      SoundIndices(st.entries, st.max);
      match items[0]
      case Named(h) =>
        var (i, es') := IndexHeader(st.entries, st.max, h);
        SoundPlain(st.entries, st.max);
        IndexMeans(st.entries, st.max, h);
        IndexKeepsSound(st.entries, st.max, h);
        E.IndexResolves(st.entries, st.max, h);
        MeansNames(i, st.entries, es', st.max, h);
        var b := E.ItemBytes(env.huffman, es', st.max, Some(i), items[1..]).0;
        HeaderLockstep(env, st, canResize, i, es', h, b);
        StepDecode(env, st, canResize, E.HeaderBytes(env.huffman, i, es'), b, st.(entries := es'), Plain(h));
        ItemsLockstep(env, st.(entries := es'), false, Some(i), Some(h.name), items[1..]);
      case Nameless(v, s) =>
        var h := Header(name.value, v, s);
        var b := E.ItemBytes(env.huffman, st.entries, st.max, last, items[1..]).0;
        NamelessLockstep(env, st, canResize, last.value, h, b);
        StepDecode(env, st, canResize, E.NamelessBytes(env.huffman, last.value, v, s), b, st, Plain(h));
        ItemsLockstep(env, st, false, last, name, items[1..]);
    }
  }

  lemma SoundPlain(es: Entries, max: nat)
    requires Sound(es, max)
    ensures NoneSensitive(es)
  {
  }

  /** Decoding a header's octets and then the rest. */
  lemma StepDecode(env: D.Env, st: D.State, canResize: bool, b: Bytes, rest: Bytes, st': D.State, h: Header)
    requires b + rest != []
    requires D.ParseOne(env, st, canResize, b + rest) == Parsed(D.Effect(st', [h]), |b|)
    ensures D.DecodeAll(env, st, canResize, b + rest) ==
            var d := D.DecodeAll(env, st', false, rest);
            d.(emitted := [h] + d.emitted)
  {
  }

  // ----- whole conversations -----

  /** An encoder and the decoder at the other end, which may have a new limit queued. */
  datatype Link = Link(enc: E.State, dec: D.State, queued: Option<nat>)

  datatype Event =
    | NewLimit(size: nat)         // a limit reaches the encoder
    | Allow(size: nat)            // the decoder's side announces one
    | Block(items: seq<E.Item>)   // a header block is sent

  /** The decoder at the start of a block: a queued limit takes effect. */
  function Begin(dec: D.State, queued: Option<nat>): (st: D.State) {
    if queued.Some? then dec.(allowed := queued.value) else dec
  }

  function QueueSizeUpdate(queued: Option<nat>, size: nat): (q: Option<nat>) {
    Some(if queued.Some? && queued.value > size then queued.value else size)
  }

  /** Of several limits announced before a block the largest counts. */
  function QueueAll(queued: Option<nat>, sizes: seq<nat>): (q: Option<nat>) {
    if sizes == [] then queued else QueueSizeUpdate(QueueAll(queued, sizes[..|sizes| - 1]), sizes[|sizes| - 1])
  }

  lemma {:induction false} LargestAllowed(dec: D.State, sizes: seq<nat>)
    requires sizes != []
    ensures var allowed := Begin(dec, QueueAll(None, sizes)).allowed;
            allowed in sizes && forall i :: 0 <= i < |sizes| ==> sizes[i] <= allowed
  {
    var n := |sizes| - 1;
    if n > 0 {
      LargestAllowed(dec, sizes[..n]);
    } else {
      assert sizes[..n] == [];
    }
    assert sizes == sizes[..n] + [sizes[n]];
  }

  /** What the decoder makes of a block. */
  function Received(env: D.Env, l: Link, items: seq<E.Item>): (d: D.Decoded)
    requires E.WellFormed(items, false)
  {
    D.DecodeAll(env, Begin(l.dec, l.queued), true, E.EncodeBlock(env.huffman, l.enc, items).0)
  }

  ghost predicate UpdateFits(u: Option<E.SizeUpdate>, allowed: nat) {
    match u
    case None => true
    case Some(One(v)) => v <= allowed
    case Some(Two(low, high)) => low <= allowed && high <= allowed
  }

  /** A block may be sent when its headers are acceptable and any queued limit is within the decoder's. */
  ghost predicate EventOk(env: D.Env, l: Link, ev: Event) {
    ev.Block? ==>
      && E.WellFormed(ev.items, false) && AllAcceptable(env, ev.items, None)
      && UpdateFits(l.enc.update, Begin(l.dec, l.queued).allowed)
      && Begin(l.dec, l.queued).allowed <= TABLE_LIMIT
  }

  ghost function Step(env: D.Env, l: Link, ev: Event): (l': Link)
    requires EventOk(env, l, ev)
  {
    match ev
    case NewLimit(v) => l.(enc := E.UpdateMaxSize(l.enc, v))
    case Allow(v) => l.(queued := QueueSizeUpdate(l.queued, v))
    case Block(items) =>
      Link(E.EncodeBlock(env.huffman, l.enc, items).1, Received(env, l, items).state, None)
  }

  ghost predicate InSync(l: Link) {
    && l.dec.entries == l.enc.entries && l.dec.max == l.enc.max
    && Sound(l.enc.entries, l.enc.max)
  }

  lemma EvictKeepsSound(es: Entries, max: nat, v: nat)
    requires Sound(es, max) && v <= TABLE_LIMIT
    ensures Sound(EvictTo(es, v), v)
  {
  }

  /** A size update is read back and applied before anything else. */
  lemma UpdateLockstep(env: D.Env, st: D.State, v: nat, rest: Bytes)
    requires v <= st.allowed && v <= TABLE_LIMIT
    ensures D.DecodeAll(env, st, true, E.SizeUpdateBytes(v) + rest)
         == D.DecodeAll(env, st.(entries := EvictTo(st.entries, v), max := v), true, rest)
  {
    hide IntBytes, ParseInt, EvictTo;
    var b := E.SizeUpdateBytes(v);
    IntTag(v, 5, 0x20);
    IntRoundTrip(v, 5, 0x20, rest);
    assert (b + rest)[|b|..] == rest;
  }

  lemma UpdatesLockstep(env: D.Env, enc: E.State, st: D.State, rest: Bytes)
    requires st.entries == enc.entries && st.max == enc.max && Sound(enc.entries, enc.max)
    requires UpdateFits(enc.update, st.allowed) && st.allowed <= TABLE_LIMIT
    ensures var (b, enc') := E.ApplyUpdate(enc);
            && Sound(enc'.entries, enc'.max) && enc'.update.None?
            && D.DecodeAll(env, st, true, b + rest)
               == D.DecodeAll(env, st.(entries := enc'.entries, max := enc'.max), true, rest)
  {
    hide EvictTo, Sound, D.DecodeAll;
    match enc.update
    case None =>
      assert [] + rest == rest;
    case Some(One(v)) =>
      UpdateLockstep(env, st, v, rest);
      EvictKeepsSound(enc.entries, enc.max, v);
    case Some(Two(low, high)) =>
      var b, b' := E.SizeUpdateBytes(low), E.SizeUpdateBytes(high);
      assert b + b' + rest == b + (b' + rest);
      UpdateLockstep(env, st, low, b' + rest);
      EvictKeepsSound(enc.entries, enc.max, low);
      var mid := st.(entries := EvictTo(st.entries, low), max := low);
      UpdateLockstep(env, mid, high, rest);
      EvictKeepsSound(EvictTo(enc.entries, low), low, high);
  }

  /** A block is read back whole, header by header, and leaves both sides with the same table. */
  lemma BlockLockstep(env: D.Env, l: Link, items: seq<E.Item>)
    requires Assumed(env) && InSync(l) && EventOk(env, l, Block(items))
    ensures InSync(Step(env, l, Block(items)))
    ensures Received(env, l, items) == D.Decoded(Received(env, l, items).state, Reported(items, None), [], None)
  {
    hide D.DecodeAll, E.ItemBytes, E.ApplyUpdate, Sound, UpdateFits, Reported, AllAcceptable;
    var (prefix, enc') := E.ApplyUpdate(l.enc);
    var (body, es) := E.ItemBytes(env.huffman, enc'.entries, enc'.max, None, items);
    var st := Begin(l.dec, l.queued);
    UpdatesLockstep(env, l.enc, st, body);
    ItemsLockstep(env, st.(entries := enc'.entries, max := enc'.max), true, None, None, items);
  }

  ghost predicate GoodRun(env: D.Env, l: Link, evs: seq<Event>)
    decreases |evs|
  {
    evs != [] ==> EventOk(env, l, evs[0]) && GoodRun(env, Step(env, l, evs[0]), evs[1..])
  }

  /** At every point of the run the tables agree, and every block arrives as it was sent. */
  ghost predicate Lockstep(env: D.Env, l: Link, evs: seq<Event>)
    requires GoodRun(env, l, evs)
    decreases |evs|
  {
    && InSync(l)
    && (evs != [] ==>
          && (evs[0].Block? ==>
                var d := Received(env, l, evs[0].items);
                d.emitted == Reported(evs[0].items, None) && d.rest == [] && d.error.None?)
          && Lockstep(env, Step(env, l, evs[0]), evs[1..]))
  }

  /** Over any run of limits and blocks, from tables that agree. */
  lemma {:induction false} RunLockstep(env: D.Env, l: Link, evs: seq<Event>)
    requires Assumed(env) && InSync(l) && GoodRun(env, l, evs)
    ensures Lockstep(env, l, evs)
    decreases |evs|
  {
    if evs != [] {
      hide D.DecodeAll, E.EncodeBlock, Sound, UpdateFits, Reported, AllAcceptable;
      if evs[0].Block? {
        BlockLockstep(env, l, evs[0].items);
      }
      RunLockstep(env, Step(env, l, evs[0]), evs[1..]);
    }
  }

  /** A new connection: both tables empty, under the default limit. */
  function Fresh(limit: nat): (l: Link)
    requires limit <= TABLE_LIMIT
    ensures InSync(l)
  {
    Link(E.State([], limit, None), D.State([], limit, limit), None)
  }
}

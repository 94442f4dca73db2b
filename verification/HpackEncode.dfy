/**
 What the HPACK encoder writes, as functions of the plain FIFO (section 6 of RFC 7541).
 `HpackEncoder` holds the encoder itself, over the hash table.
 */
module HpackEncode {
  import opened Wrappers
  import opened HpackHeader
  import opened Octets
  import opened HpackFifo
  import opened HpackStatic
  import opened HpackInt
  import opened HpackString

  /** A header to encode; a nameless one repeats the name of the one before it. */
  datatype Item = Named(header: Header) | Nameless(value: Bytes, sensitive: bool)

  function NotIndexedTag(sensitive: bool): (b: byte) {
    if sensitive then 0x10 else 0
  }

  /** Literal without indexing, name from a table. */
  function LiteralByIndex(h: Huffman, idx: nat, value: Bytes, sensitive: bool): (b: Bytes) {
    IntBytes(idx, 4, NotIndexedTag(sensitive)) + StrBytes(h, value)
  }

  /** Literal with a literal name, under the given first octet. */
  function LiteralByName(h: Huffman, tag: byte, name: Bytes, value: Bytes): (b: Bytes) {
    [tag] + StrBytes(h, name) + StrBytes(h, value)
  }

  /** The index's slot, if it names one, is in the table. */
  ghost predicate Resolves(i: Index, es: Entries) {
    match i
    case Inserted(slot) => slot < |es|
    case InsertedValue(_, slot) => slot < |es|
    case _ => true
  }

  /** A header by its index, once it has been put in the table. */
  function HeaderBytes(h: Huffman, i: Index, es: Entries): (b: Bytes)
    requires Resolves(i, es)
  {
    match i
    case Indexed(idx, _) => IntBytes(idx, 7, 0x80)
    case NameOnly(idx, hd) => LiteralByIndex(h, idx, hd.value, hd.sensitive)
    case Inserted(slot) => LiteralByName(h, 0x40, NameSlice(es[slot].name), es[slot].value)
    case InsertedValue(idx, slot) => IntBytes(idx, 6, 0x40) + StrBytes(h, es[slot].value)
    case NotIndexed(hd) => LiteralByName(h, NotIndexedTag(hd.sensitive), NameSlice(hd.name), hd.value)
  }

  /** A nameless header, by the index of the header before it. */
  function NamelessBytes(h: Huffman, last: Index, value: Bytes, sensitive: bool): (b: Bytes) {
    match last
    case Indexed(idx, _) => LiteralByIndex(h, idx, value, sensitive)
    case NameOnly(idx, _) => LiteralByIndex(h, idx, value, sensitive)
    case Inserted(slot) => LiteralByIndex(h, slot + DYN_OFFSET, value, sensitive)
    case InsertedValue(_, slot) => LiteralByIndex(h, slot + DYN_OFFSET, value, sensitive)
    case NotIndexed(hd) => LiteralByName(h, NotIndexedTag(sensitive), NameSlice(hd.name), value)
  }

  /** A nameless header must follow another one. */
  ghost predicate WellFormed(items: seq<Item>, started: bool) {
    items != [] && !started ==> items[0].Named?
  }

  lemma IndexResolves(es: Entries, max: nat, h: Header)
    ensures var r := IndexHeader(es, max, h); Resolves(r.0, r.1)
  {
  }

  /** The octets of a list of headers and the table afterwards. */
  function ItemBytes(h: Huffman, es: Entries, max: nat, last: Option<Index>, items: seq<Item>): (r: (Bytes, Entries))
    requires WellFormed(items, last.Some?)
    decreases |items|
  {
    if items == [] then ([], es)
    else
      match items[0]
      case Named(hd) =>
        var (i, es') := IndexHeader(es, max, hd);
        assert Resolves(i, es') by { IndexResolves(es, max, hd); }
        var (b, es'') := ItemBytes(h, es', max, Some(i), items[1..]);
        (HeaderBytes(h, i, es') + b, es'')
      case Nameless(value, sensitive) =>
        var (b, es') := ItemBytes(h, es, max, last, items[1..]);
        (NamelessBytes(h, last.value, value, sensitive) + b, es')
  }

  // ----- size updates -----

  datatype SizeUpdate = One(size: nat) | Two(low: nat, high: nat)

  /** The encoder between blocks. */
  datatype State = State(entries: Entries, max: nat, update: Option<SizeUpdate>)

  /** Queues a limit chosen by the peer, keeping the smallest one since the last block. */
  function UpdateMaxSize(st: State, val: nat): (r: State) {
    match st.update
    case Some(One(prev)) =>
      if val > prev then
        if prev > st.max then st.(update := Some(One(val))) else st.(update := Some(Two(prev, val)))
      else st.(update := Some(One(val)))
    case Some(Two(low, _)) =>
      if val < low then st.(update := Some(One(val))) else st.(update := Some(Two(low, val)))
    case None =>
      if val != st.max then st.(update := Some(One(val))) else st
  }

  function SizeUpdateBytes(val: nat): (b: Bytes) {
    IntBytes(val, 5, 0x20)
  }

  /** Applies the queued update: the octets that announce it, and the resized table. */
  function ApplyUpdate(st: State): (r: (Bytes, State)) {
    match st.update
    case None => ([], st)
    case Some(One(v)) => (SizeUpdateBytes(v), State(EvictTo(st.entries, v), v, None))
    case Some(Two(low, high)) =>
      (SizeUpdateBytes(low) + SizeUpdateBytes(high), State(EvictTo(EvictTo(st.entries, low), high), high, None))
  }

  /** One header block. */
  function EncodeBlock(h: Huffman, st: State, items: seq<Item>): (r: (Bytes, State))
    requires WellFormed(items, false)
  {
    var (prefix, st') := ApplyUpdate(st);
    var (body, es) := ItemBytes(h, st'.entries, st'.max, None, items);
    (prefix + body, st'.(entries := es))
  }

  // ----- coalescing -----

  lemma {:induction false} EvictTwice(es: Entries, a: nat, b: nat)
    ensures EvictTo(EvictTo(es, a), b) == EvictTo(es, if a < b then a else b)
  {
    if Size(es) > a {
      EvictTwice(es[..|es| - 1], a, b);
    }
  }

  function Min(a: nat, b: nat): (m: nat) {
    if a < b then a else b
  }

  /** Applying every limit as it comes. */
  function ResizeAll(es: Entries, vals: seq<nat>): (r: Entries) {
    if vals == [] then es else EvictTo(ResizeAll(es, vals[..|vals| - 1]), vals[|vals| - 1])
  }

  function QueueAll(st: State, vals: seq<nat>): (r: State) {
    if vals == [] then st else UpdateMaxSize(QueueAll(st, vals[..|vals| - 1]), vals[|vals| - 1])
  }

  /** The queued update stands for the smallest limit seen, and the last one. */
  ghost predicate Stands(st: State, low: nat, last: nat) {
    match st.update
    case None => low == last == st.max
    case Some(One(v)) => v == last && low == Min(v, st.max)
    case Some(Two(l, v)) => v == last && l == low <= st.max && l <= v
  }

  lemma {:induction false} QueueStands(st: State, vals: seq<nat>) returns (low: nat, last: nat)
    requires st.update.None? && Size(st.entries) <= st.max
    ensures var q := QueueAll(st, vals);
            && Stands(q, low, last) && q.entries == st.entries && q.max == st.max
    ensures low <= st.max && ResizeAll(st.entries, vals) == EvictTo(st.entries, low)
    ensures last == if vals == [] then st.max else vals[|vals| - 1]
  {
    if vals == [] {
      low, last := st.max, st.max;
    } else {
      var val := vals[|vals| - 1];
      low, last := QueueStands(st, vals[..|vals| - 1]);
      EvictTwice(st.entries, low, val);
      low, last := Min(low, val), val;
    }
  }

  /**
   However many limits arrive between two blocks, the one or two updates that are sent
   leave the table as if each limit had been applied when it came.
   */
  lemma CoalescedUpdates(st: State, vals: seq<nat>)
    requires st.update.None? && Size(st.entries) <= st.max
    ensures var r := ApplyUpdate(QueueAll(st, vals)).1;
            && r.entries == ResizeAll(st.entries, vals)
            && r.max == (if vals == [] then st.max else vals[|vals| - 1])
            && r.update.None?
  {
    var low, last := QueueStands(st, vals);
    var q := QueueAll(st, vals);
    EvictTwice(st.entries, st.max, if q.update.Some? && q.update.value.One? then q.update.value.size else st.max);
    if q.update.Some? && q.update.value.Two? {
      EvictTwice(st.entries, q.update.value.low, q.update.value.high);
    }
  }
}

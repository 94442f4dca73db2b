/**
 Header blocks that any peer may write (section 6 of RFC 7541), not only those of this encoder: every
 representation, strings with or without Huffman coding, entries of any size.
 */
module HpackPeer {
  import opened Wrappers
  import opened HpackHeader
  import opened Octets
  import opened HpackFifo
  import opened HpackStatic
  import opened HpackInt
  import opened HpackString
  import D = HpackDecode

  /** A string on the wire: as it is, or as a code that stands for it. */
  datatype Text = Raw(octets: Bytes) | Coded(code: Bytes)

  datatype NameRef = ByIndex(idx: nat) | ByText(text: Text)

  datatype Indexing = Adding | Without | Never

  datatype Rep =
    | Whole(idx: nat)
    | Literal(indexing: Indexing, name: NameRef, value: Text)
    | Resize(size: nat)

  // ----- what is on the wire -----

  function TextBytes(t: Text): (b: Bytes) {
    match t
    case Raw(octets) => IntBytes(|octets|, 7, 0) + octets
    case Coded(code) => IntBytes(|code|, 7, 0x80) + code
  }

  function Prefix(i: Indexing): (p: nat) {
    if i.Adding? then 6 else 4
  }

  function Tag(i: Indexing): (b: byte) {
    match i case Adding => 0x40 case Without => 0 case Never => 0x10
  }

  function RepBytes(rep: Rep): (b: Bytes) {
    match rep
    case Whole(idx) => IntBytes(idx, 7, 0x80)
    case Resize(size) => IntBytes(size, 5, 0x20)
    case Literal(i, ByIndex(idx), value) => IntBytes(idx, Prefix(i), Tag(i)) + TextBytes(value)
    case Literal(i, ByText(name), value) => IntBytes(0, Prefix(i), Tag(i)) + TextBytes(name) + TextBytes(value)
  }

  function BlockBytes(reps: seq<Rep>): (b: Bytes) {
    if reps == [] then [] else RepBytes(reps[0]) + BlockBytes(reps[1..])
  }

  /** Integers that can be read, and codes that stand for something. */
  ghost predicate TextOk(h: Huffman, t: Text) {
    match t
    case Raw(octets) => |octets| < 0x1000_0000
    case Coded(code) => |code| < 0x1000_0000 && h.decode(code).Some?
  }

  ghost predicate RepOk(h: Huffman, rep: Rep) {
    match rep
    case Whole(idx) => idx < 0x1000_0000
    case Resize(size) => size < 0x1000_0000
    case Literal(_, name, value) =>
      && TextOk(h, value)
      && match name
         case ByIndex(idx) => 0 < idx < 0x1000_0000
         case ByText(text) => TextOk(h, text)
  }

  // ----- what it means -----

  function TextOf(h: Huffman, t: Text): (s: Bytes)
    requires t.Coded? ==> h.decode(t.code).Some?
  {
    match t case Raw(octets) => octets case Coded(code) => h.decode(code).value
  }

  /** The static table with the dynamic one behind it, newest first; counted from one. */
  function AddressSpace(es: Entries): (all: seq<Header>) {
    seq(61, i requires 0 <= i < 61 => GetStatic(i + 1)) + es
  }

  predicate Addressed(es: Entries, idx: nat) {
    1 <= idx <= |AddressSpace(es)|
  }

  function HeaderOf(env: D.Env, es: Entries, name: NameRef, value: Bytes): (r: Result<Header, DecoderError>)
    requires name.ByText? && name.text.Coded? ==> env.huffman.decode(name.text.code).Some?
  {
    match name
    case ByText(text) => D.NewHeader(env.grammar, TextOf(env.huffman, text), value)
    case ByIndex(idx) =>
      if Addressed(es, idx) then D.IntoEntry(env.grammar, AddressSpace(es)[idx - 1].name, value)
      else Err(InvalidTableIndex)
  }

  /** The new entry goes in front; then entries leave from the back until the rest fits, all of them if need be. */
  function Stored(st: D.State, h: Header): (st': D.State) {
    st.(entries := EvictTo([h] + st.entries, st.max))
  }

  function Meaning(env: D.Env, st: D.State, canResize: bool, rep: Rep): (r: Result<D.Effect, DecoderError>)
    requires RepOk(env.huffman, rep)
  {
    match rep
    case Whole(idx) =>
      if Addressed(st.entries, idx) then Ok(D.Effect(st, [AddressSpace(st.entries)[idx - 1]]))
      else Err(InvalidTableIndex)
    case Resize(size) =>
      if canResize && size <= st.allowed then Ok(D.Effect(st.(entries := EvictTo(st.entries, size), max := size), []))
      else Err(InvalidMaxDynamicSize)
    case Literal(i, name, value) =>
      match HeaderOf(env, st.entries, name, TextOf(env.huffman, value))
      case Err(e) => Err(e)
      case Ok(h) => Ok(D.Effect(if i.Adding? then Stored(st, h) else st, [h]))
  }

  /** The headers up to the first representation that has no meaning, the state then, and its error. */
  datatype Outcome = Outcome(state: D.State, headers: seq<Header>, error: Option<DecoderError>)

  ghost predicate AllOk(h: Huffman, reps: seq<Rep>) {
    forall i :: 0 <= i < |reps| ==> RepOk(h, reps[i])
  }

  ghost function BlockMeaning(env: D.Env, st: D.State, canResize: bool, reps: seq<Rep>): (o: Outcome)
    requires AllOk(env.huffman, reps)
    decreases |reps|
  {
    if reps == [] then Outcome(st, [], None)
    else
      match Meaning(env, st, canResize, reps[0])
      case Err(e) => Outcome(st, [], Some(e))
      case Ok(effect) =>
        var o := BlockMeaning(env, effect.state, canResize && effect.emitted == [], reps[1..]);
        o.(headers := effect.emitted + o.headers)
  }

  // ----- the decoder agrees -----

  lemma LookupAddresses(es: Entries, idx: nat)
    ensures D.Lookup(es, idx) == if Addressed(es, idx) then Ok(AddressSpace(es)[idx - 1]) else Err(InvalidTableIndex)
  {
    hide GetStatic;
  }

  lemma ReadText(h: Huffman, t: Text, rest: Bytes)
    requires TextOk(h, t)
    ensures ParseString(h, TextBytes(t) + rest) == Parsed(TextOf(h, t), |TextBytes(t)|)
  {
    hide IntBytes, ParseInt;
    var body, tag := if t.Raw? then t.octets else t.code, if t.Raw? then 0 else 0x80;
    var head := IntBytes(|body|, 7, tag);
    var buf := TextBytes(t) + rest;
    assert buf == head + (body + rest);
    IntRoundTrip(|body|, 7, tag, body + rest);
    IntTag(|body|, 7, tag);
    assert buf[|head|..|head| + |body|] == body;
  }

  lemma ReadByText(env: D.Env, es: Entries, i: Indexing, name: Text, value: Text, rest: Bytes)
    requires TextOk(env.huffman, name) && TextOk(env.huffman, value)
    ensures var b := RepBytes(Literal(i, ByText(name), value));
            D.ParseLiteral(env, es, b + rest, Prefix(i))
            == D.Finish(D.NewHeader(env.grammar, TextOf(env.huffman, name), TextOf(env.huffman, value)), |b|)
  {
    hide IntBytes, ParseInt, ParseString, TextBytes, D.NewHeader, TextOf;
    var head, n, v := IntBytes(0, Prefix(i), Tag(i)), TextBytes(name), TextBytes(value);
    var buf := head + n + v + rest;
    assert buf == head + (n + v + rest);
    IntRoundTrip(0, Prefix(i), Tag(i), n + v + rest);
    assert buf[|head|..] == n + (v + rest);
    assert buf[|head| + |n|..] == v + rest;
    ReadText(env.huffman, name, v + rest);
    ReadText(env.huffman, value, rest);
  }

  lemma ReadByIndex(env: D.Env, es: Entries, i: Indexing, idx: nat, value: Text, rest: Bytes)
    requires 0 < idx < 0x1000_0000 && TextOk(env.huffman, value)
    ensures var b := RepBytes(Literal(i, ByIndex(idx), value));
            D.ParseLiteral(env, es, b + rest, Prefix(i))
            == D.Finish(HeaderOf(env, es, ByIndex(idx), TextOf(env.huffman, value)), |b|)
  {
    hide IntBytes, ParseInt, ParseString, TextBytes, TextOf, D.Lookup, Addressed, AddressSpace;
    var head, v := IntBytes(idx, Prefix(i), Tag(i)), TextBytes(value);
    var buf := head + v + rest;
    assert buf == head + (v + rest);
    IntRoundTrip(idx, Prefix(i), Tag(i), v + rest);
    assert buf[|head|..] == v + rest;
    ReadText(env.huffman, value, rest);
    LookupAddresses(es, idx);
  }

  /** The first octet tells which representation it is. */
  lemma Announced(rep: Rep, rest: Bytes)
    ensures var b := RepBytes(rep) + rest;
            && RepBytes(rep) != []
            && D.Load(b[0]) ==
               match rep
               case Whole(_) => D.IndexedRep
               case Resize(_) => D.SizeUpdateRep
               case Literal(Adding, _, _) => D.WithIndexing
               case Literal(Without, _, _) => D.WithoutIndexing
               case Literal(Never, _, _) => D.NeverIndexed
  {
    hide IntBytes, TextBytes;
    match rep
    case Whole(idx) => IntTag(idx, 7, 0x80);
    case Resize(size) => IntTag(size, 5, 0x20);
    case Literal(i, ByIndex(idx), _) => IntTag(idx, Prefix(i), Tag(i));
    case Literal(i, ByText(_), _) => IntTag(0, Prefix(i), Tag(i));
  }

  /** One representation, whatever follows it. */
  lemma ReadRep(env: D.Env, st: D.State, canResize: bool, rep: Rep, rest: Bytes)
    requires RepOk(env.huffman, rep)
    ensures RepBytes(rep) != []
    ensures D.ParseOne(env, st, canResize, RepBytes(rep) + rest)
            == match Meaning(env, st, canResize, rep)
               case Ok(effect) => Parsed(effect, |RepBytes(rep)|)
               case Err(e) => Failed(e)
  {
    hide IntBytes, ParseInt, TextBytes, TextOf, D.ParseLiteral, D.Load, D.Lookup, D.Add, Addressed, AddressSpace,
         HeaderOf, EvictTo;
    Announced(rep, rest);
    match rep
    case Whole(idx) =>
      IntRoundTrip(idx, 7, 0x80, rest);
      LookupAddresses(st.entries, idx);
    case Resize(size) =>
      IntRoundTrip(size, 5, 0x20, rest);
    case Literal(i, name, value) =>
      var v := TextOf(env.huffman, value);
      match name {
        case ByIndex(idx) => ReadByIndex(env, st.entries, i, idx, value, rest);
        case ByText(text) =>
          ReadByText(env, st.entries, i, text, value, rest);
          assert HeaderOf(env, st.entries, name, v) == D.NewHeader(env.grammar, TextOf(env.huffman, text), v) by {
            NewName(env, st.entries, text, v);
          }
      }
      var h := HeaderOf(env, st.entries, name, v);
      if h.Ok? {
        D.AddStores(st.entries, h.value, st.max);
      }
  }

  lemma NewName(env: D.Env, es: Entries, text: Text, v: Bytes)
    requires text.Coded? ==> env.huffman.decode(text.code).Some?
    ensures HeaderOf(env, es, ByText(text), v) == D.NewHeader(env.grammar, TextOf(env.huffman, text), v)
  {
  }

  /** A whole block of any peer: the headers, the table and the error are those the representations mean. */
  lemma {:induction false} ReadBlock(env: D.Env, st: D.State, canResize: bool, reps: seq<Rep>)
    requires AllOk(env.huffman, reps)
    ensures var d, o := D.DecodeAll(env, st, canResize, BlockBytes(reps)), BlockMeaning(env, st, canResize, reps);
            && d.state == o.state && d.emitted == o.headers && d.error == o.error
            && (o.error.None? ==> d.rest == [])
    decreases |reps|
  {
    hide RepBytes, D.ParseOne, Meaning;
    if reps != [] {
      var b := BlockBytes(reps[1..]);
      ReadRep(env, st, canResize, reps[0], b);
      var m := Meaning(env, st, canResize, reps[0]);
      if m.Ok? {
        assert (RepBytes(reps[0]) + b)[|RepBytes(reps[0])|..] == b;
        ReadBlock(env, m.value.state, canResize && m.value.emitted == [], reps[1..]);
      }
    }
  }

  // ----- limits -----

  /** Over every input, accepted or not, the table stays within its limit and the limit within what is allowed. */
  lemma {:induction false} StaysWithin(env: D.Env, st: D.State, canResize: bool, buf: Bytes)
    requires Size(st.entries) <= st.max
    ensures var st' := D.DecodeAll(env, st, canResize, buf).state;
            && Size(st'.entries) <= st'.max && st'.allowed == st.allowed
            && (st'.max == st.max || st'.max <= st.allowed) && (!canResize ==> st'.max == st.max)
    decreases |buf|
  {
    hide D.ParseIndexed, D.ParseLiteral, ParseInt, D.Load, D.Add, EvictTo, Size;
    if buf != [] {
      var p := D.ParseOne(env, st, canResize, buf);
      if p.Parsed? {
        OneStaysWithin(env, st, canResize, buf);
        StaysWithin(env, p.value.state, canResize && p.value.emitted == [], buf[p.used..]);
      }
    }
  }

  lemma OneStaysWithin(env: D.Env, st: D.State, canResize: bool, buf: Bytes)
    requires buf != [] && D.ParseOne(env, st, canResize, buf).Parsed? && Size(st.entries) <= st.max
    ensures var st' := D.ParseOne(env, st, canResize, buf).value.state;
            && Size(st'.entries) <= st'.max && st'.allowed == st.allowed
            && (st'.max == st.max || st'.max <= st.allowed) && (!canResize ==> st'.max == st.max)
  {
    hide D.ParseIndexed, D.ParseLiteral, ParseInt, D.Load, D.Add;
    var p := D.ParseOne(env, st, canResize, buf);
    if p.value.emitted != [] {
      D.AddStores(st.entries, p.value.emitted[0], st.max);
    }
  }

  // ----- what the HTTP types accept -----

  /** A header that the grammar accepts. */
  ghost predicate Accepted(g: D.Grammar, h: Header) {
    g.value(h.name, h.value) && (h.name.Field? ==> g.fieldName(h.name.text))
  }

  ghost predicate AllAccepted(g: D.Grammar, hs: seq<Header>) {
    forall i :: 0 <= i < |hs| ==> Accepted(g, hs[i])
  }

  /** The grammar accepts the static table. */
  ghost predicate StaticAccepted(g: D.Grammar) {
    forall i :: 1 <= i <= 61 ==> Accepted(g, GetStatic(i))
  }

  lemma LiteralAccepted(env: D.Env, es: Entries, buf: Bytes, prefix: nat)
    requires StaticAccepted(env.grammar) && AllAccepted(env.grammar, es)
    ensures var p := D.ParseLiteral(env, es, buf, prefix); p.Parsed? ==> Accepted(env.grammar, p.value)
  {
    hide ParseInt, ParseString, GetStatic, Ascii;
  }

  lemma IndexedAccepted(env: D.Env, es: Entries, buf: Bytes)
    requires StaticAccepted(env.grammar) && AllAccepted(env.grammar, es)
    ensures var p := D.ParseIndexed(es, buf); p.Parsed? ==> Accepted(env.grammar, p.value)
  {
    hide ParseInt, GetStatic;
  }

  lemma EvictAccepted(g: D.Grammar, es: Entries, limit: nat)
    requires AllAccepted(g, es)
    ensures AllAccepted(g, EvictTo(es, limit))
  {
    hide Accepted;
  }

  lemma OneAccepted(env: D.Env, st: D.State, canResize: bool, buf: Bytes)
    requires StaticAccepted(env.grammar) && AllAccepted(env.grammar, st.entries)
    requires buf != [] && D.ParseOne(env, st, canResize, buf).Parsed?
    ensures var e := D.ParseOne(env, st, canResize, buf).value;
            AllAccepted(env.grammar, e.state.entries) && AllAccepted(env.grammar, e.emitted)
  {
    hide D.ParseIndexed, D.ParseLiteral, ParseInt, D.Load, D.Add, EvictTo, Accepted, StaticAccepted;
    LiteralAccepted(env, st.entries, buf, 6);
    LiteralAccepted(env, st.entries, buf, 4);
    IndexedAccepted(env, st.entries, buf);
    var e := D.ParseOne(env, st, canResize, buf).value;
    if e.emitted != [] {
      var h := e.emitted[0];
      assert AllAccepted(env.grammar, [h] + st.entries) by {
        var all := [h] + st.entries;
        assert forall i :: 0 < i < |all| ==> all[i] == st.entries[i - 1];
      }
      D.AddStores(st.entries, h, st.max);
      EvictAccepted(env.grammar, [h] + st.entries, st.max);
    } else {
      EvictAccepted(env.grammar, st.entries, e.state.max);
    }
  }

  /** Over every input, only headers that the HTTP types accept are reported or stored. */
  lemma {:induction false} OnlyAccepted(env: D.Env, st: D.State, canResize: bool, buf: Bytes)
    requires StaticAccepted(env.grammar) && AllAccepted(env.grammar, st.entries)
    ensures var d := D.DecodeAll(env, st, canResize, buf);
            AllAccepted(env.grammar, d.state.entries) && AllAccepted(env.grammar, d.emitted)
    decreases |buf|
  {
    hide D.ParseOne, Accepted, StaticAccepted;
    if buf != [] {
      var p := D.ParseOne(env, st, canResize, buf);
      if p.Parsed? {
        OneAccepted(env, st, canResize, buf);
        var more := canResize && p.value.emitted == [];
        OnlyAccepted(env, p.value.state, more, buf[p.used..]);
        BothAccepted(env.grammar, p.value.emitted, D.DecodeAll(env, p.value.state, more, buf[p.used..]).emitted);
      }
    }
  }

  lemma BothAccepted(g: D.Grammar, a: seq<Header>, b: seq<Header>)
    requires AllAccepted(g, a) && AllAccepted(g, b)
    ensures AllAccepted(g, a + b)
  {
    hide Accepted;
  }
}

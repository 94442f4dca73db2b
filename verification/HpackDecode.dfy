/**
 Decoding one HPACK representation, and a whole buffer of them (section 6 of RFC 7541).

 These functions say what the decoder does with a buffer; `HpackDecoder` holds the
 decoder itself.
 */
module HpackDecode {
  import opened Wrappers
  import opened HpackHeader
  import opened Octets
  import opened HpackFifo
  import opened HpackStatic
  import opened HpackInt
  import opened HpackString

  /** Which field names, and which values of each kind of header, the HTTP types accept. */
  datatype Grammar = Grammar(fieldName: Bytes -> bool, value: (Name, Bytes) -> bool)

  /** What is assumed of it: a field name is never empty and never starts with a colon. */
  ghost predicate Sane(g: Grammar) {
    forall t :: g.fieldName(t) ==> t != [] && t[0] != ':' as int
  }

  /** Everything decoding depends on that lives outside the decoder. */
  datatype Env = Env(huffman: Huffman, grammar: Grammar)

  function PseudoName(tail: Bytes): (n: Option<Name>) {
    if tail == Ascii("authority") then Some(Authority)
    else if tail == Ascii("method") then Some(Method)
    else if tail == Ascii("scheme") then Some(Scheme)
    else if tail == Ascii("path") then Some(Path)
    else if tail == Ascii("protocol") then Some(Protocol)
    else if tail == Ascii("status") then Some(Status)
    else None
  }

  /** A header from a literal name and value. */
  function NewHeader(g: Grammar, name: Bytes, value: Bytes): (r: Result<Header, DecoderError>) {
    if name == [] then Err(More(UnexpectedEndOfStream))
    else if name[0] == ':' as int then
      match PseudoName(name[1..])
      case None => Err(InvalidPseudoheader)
      case Some(n) => if g.value(n, value) then Ok(Header(n, value, false)) else Err(InvalidUtf8)
    else if g.fieldName(name) && g.value(Field(name), value) then Ok(Header(Field(name), value, false))
    else Err(InvalidUtf8)
  }

  /** A header from a table entry's name and a literal value. */
  function IntoEntry(g: Grammar, n: Name, value: Bytes): (r: Result<Header, DecoderError>) {
    if g.value(n, value) then Ok(Header(n, value, false))
    else Err(if n == Status then InvalidStatusCode else InvalidUtf8)
  }

  /** The combined index space of section 2.3.3. */
  function Lookup(es: Entries, index: nat): (r: Result<Header, DecoderError>) {
    if index == 0 then Err(InvalidTableIndex)
    else if index <= 61 then Ok(GetStatic(index))
    else if index - DYN_OFFSET < |es| then Ok(es[index - DYN_OFFSET])
    else Err(InvalidTableIndex)
  }

  function Finish(r: Result<Header, DecoderError>, used: nat): (p: Parsed<Header>)
    ensures p.Parsed? ==> p.used == used
  {
    match r
    case Ok(h) => Parsed(h, used)
    case Err(e) => Failed(e)
  }

  function ParseNewName(env: Env, buf: Bytes, used: nat): (r: Parsed<Header>)
    requires 0 < used <= |buf|
    ensures r.Parsed? ==> 0 < r.used <= |buf|
  {
    match ParseString(env.huffman, buf[used..])
    case Failed(e) => Failed(e)
    case Parsed(name, nameUsed) =>
      match ParseString(env.huffman, buf[used + nameUsed..])
      case Failed(e) => Failed(e)
      case Parsed(value, valueUsed) => Finish(NewHeader(env.grammar, name, value), used + nameUsed + valueUsed)
  }

  function ParseTableName(env: Env, es: Entries, index: nat, buf: Bytes, used: nat): (r: Parsed<Header>)
    requires 0 < used <= |buf|
    ensures r.Parsed? ==> 0 < r.used <= |buf|
  {
    match Lookup(es, index)
    case Err(e) => Failed(e)
    case Ok(entry) =>
      match ParseString(env.huffman, buf[used..])
      case Failed(e) => Failed(e)
      case Parsed(value, valueUsed) => Finish(IntoEntry(env.grammar, entry.name, value), used + valueUsed)
  }

  function ParseLiteral(env: Env, es: Entries, buf: Bytes, prefix: nat): (r: Parsed<Header>)
    ensures r.Parsed? ==> 0 < r.used <= |buf|
  {
    match ParseInt(buf, prefix)
    case Failed(e) => Failed(e)
    case Parsed(index, used) =>
      if index == 0 then ParseNewName(env, buf, used) else ParseTableName(env, es, index, buf, used)
  }

  function ParseIndexed(es: Entries, buf: Bytes): (r: Parsed<Header>)
    ensures r.Parsed? ==> 0 < r.used <= |buf|
  {
    match ParseInt(buf, 7)
    case Failed(e) => Failed(e)
    case Parsed(index, used) => Finish(Lookup(es, index), used)
  }

  datatype Representation = IndexedRep | WithIndexing | WithoutIndexing | NeverIndexed | SizeUpdateRep

  /** Every octet is the start of some representation. */
  function Load(b: byte): (r: Representation) {
    if b >= 0x80 then IndexedRep
    else if b >= 0x40 then WithIndexing
    else if b < 0x10 then WithoutIndexing
    else if b < 0x20 then NeverIndexed
    else SizeUpdateRep
  }

  /** The decoder's table: entries, their limit, and the largest limit the peer may choose. */
  datatype State = State(entries: Entries, max: nat, allowed: nat)

  /** Insertion into the decoder's deque: an entry too large for the table empties it. */
  function Add(es: Entries, h: Header, max: nat): (r: Entries) {
    if Len(h) <= max then Insert(es, h, max) else []
  }

  /** Insertion into the decoder's deque is insertion by the book, entries that are too large included. */
  lemma AddStores(es: Entries, h: Header, max: nat)
    ensures Add(es, h, max) == EvictTo([h] + es, max)
  {
    hide Len;
    var all := [h] + es;
    SizePush(h, []);
    assert [h] + [] == [h];
    if Len(h) <= max {
      EvictFront(h, es, max);
    } else {
      var r := EvictTo(all, max);
      if r != [] {
        assert r == [h] + r[1..];
        SizePush(h, r[1..]);
      }
    }
  }

  /** What one representation does: emit a header or not, and change the table. */
  datatype Effect = Effect(state: State, emitted: seq<Header>)

  function ParseOne(env: Env, st: State, canResize: bool, buf: Bytes): (r: Parsed<Effect>)
    requires buf != []
    ensures r.Parsed? ==> 0 < r.used <= |buf|
  {
    match Load(buf[0])
    case IndexedRep => Emit(st, ParseIndexed(st.entries, buf), false)
    case WithIndexing => Emit(st, ParseLiteral(env, st.entries, buf, 6), true)
    case WithoutIndexing => Emit(st, ParseLiteral(env, st.entries, buf, 4), false)
    case NeverIndexed => Emit(st, ParseLiteral(env, st.entries, buf, 4), false)
    case SizeUpdateRep =>
      if !canResize then Failed(InvalidMaxDynamicSize)
      else
        match ParseInt(buf, 5)
        case Failed(e) => Failed(e)
        case Parsed(size, used) =>
          if size > st.allowed then Failed(InvalidMaxDynamicSize)
          else Parsed(Effect(st.(entries := EvictTo(st.entries, size), max := size), []), used)
  }

  function Emit(st: State, p: Parsed<Header>, add: bool): (r: Parsed<Effect>)
    ensures r.Parsed? <==> p.Parsed?
    ensures r.Parsed? ==> r.used == p.used
  {
    match p
    case Failed(e) => Failed(e)
    case Parsed(h, used) =>
      Parsed(Effect(if add then st.(entries := Add(st.entries, h, st.max)) else st, [h]), used)
  }

  predicate IsRaw(buf: Bytes, at: nat) {
    at < |buf| && buf[at] < 128
  }

  /**
   Octets of a literal already split off the buffer when its header turns out to be
   unacceptable: everything up to the end of its last string that is not Huffman coded.
   */
  function LiteralDropped(env: Env, es: Entries, buf: Bytes, prefix: nat): (n: nat)
    ensures n <= |buf|
  {
    match ParseInt(buf, prefix)
    case Failed(_) => 0
    case Parsed(index, used) =>
      match ParseString(env.huffman, buf[used..])
      case Failed(_) => 0
      case Parsed(_, firstUsed) =>
        if index != 0 then
          if Lookup(es, index).Ok? && IsRaw(buf, used) then used + firstUsed else 0
        else
          match ParseString(env.huffman, buf[used + firstUsed..])
          case Failed(_) => 0
          case Parsed(_, valueUsed) =>
            if IsRaw(buf, used + firstUsed) then used + firstUsed + valueUsed
            else if IsRaw(buf, used) then used + firstUsed
            else 0
  }

  /** Octets a failing representation has used up all the same. */
  function Dropped(env: Env, es: Entries, buf: Bytes): (n: nat)
    requires buf != []
    ensures n <= |buf|
  {
    match Load(buf[0])
    case IndexedRep => 0
    case WithIndexing => LiteralDropped(env, es, buf, 6)
    case WithoutIndexing => LiteralDropped(env, es, buf, 4)
    case NeverIndexed => LiteralDropped(env, es, buf, 4)
    case SizeUpdateRep => 0
  }

  /** Decoding as far as possible: the effects so far, the octets left, and why it stopped. */
  datatype Decoded = Decoded(state: State, emitted: seq<Header>, rest: Bytes, error: Option<DecoderError>)

  function DecodeAll(env: Env, st: State, canResize: bool, buf: Bytes): (d: Decoded)
    decreases |buf|
  {
    if buf == [] then Decoded(st, [], [], None)
    else
      match ParseOne(env, st, canResize, buf)
      case Failed(e) => Decoded(st, [], buf[Dropped(env, st.entries, buf)..], Some(e))
      case Parsed(effect, used) =>
        var d := DecodeAll(env, effect.state, canResize && effect.emitted == [], buf[used..]);
        d.(emitted := effect.emitted + d.emitted)
  }
}

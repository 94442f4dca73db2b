/** The static table (appendix A of RFC 7541), as the encoder searches it and as the decoder reads it. */
module HpackStatic {
  import opened Wrappers
  import opened HpackHeader
  import opened Octets
  import opened HpackFifo

  /** Header fields whose value the encoder never adds to its table. */
  predicate SkipValueIndex(h: Header) {
    match h.name
    case Field(text) =>
      || text == Ascii("age")
      || text == Ascii("authorization")
      || text == Ascii("content-length")
      || text == Ascii("etag")
      || text == Ascii("if-modified-since")
      || text == Ascii("if-none-match")
      || text == Ascii("location")
      || text == Ascii("cookie")
      || text == Ascii("set-cookie")
    case Path => true
    case _ => false
  }

  /** The static entry of a field name; true with it when the value matches as well. */
  function FieldStatic(text: Bytes, value: Bytes): (s: Static) {
    if text == Ascii("accept-charset") then Some((15, false))
    else if text == Ascii("accept-encoding") then Some((16, value == Ascii("gzip, deflate")))
    else if text == Ascii("accept-language") then Some((17, false))
    else if text == Ascii("accept-ranges") then Some((18, false))
    else if text == Ascii("accept") then Some((19, false))
    else if text == Ascii("access-control-allow-origin") then Some((20, false))
    else if text == Ascii("age") then Some((21, false))
    else if text == Ascii("allow") then Some((22, false))
    else FromAuthorization(text)
  }

  function FromAuthorization(text: Bytes): (s: Static)
    ensures s.Some? ==> !s.value.1
  {
    if text == Ascii("authorization") then Some((23, false))
    else if text == Ascii("cache-control") then Some((24, false))
    else if text == Ascii("content-disposition") then Some((25, false))
    else if text == Ascii("content-encoding") then Some((26, false))
    else if text == Ascii("content-language") then Some((27, false))
    else if text == Ascii("content-length") then Some((28, false))
    else if text == Ascii("content-location") then Some((29, false))
    else if text == Ascii("content-range") then Some((30, false))
    else FromContentType(text)
  }

  function FromContentType(text: Bytes): (s: Static)
    ensures s.Some? ==> !s.value.1
  {
    if text == Ascii("content-type") then Some((31, false))
    else if text == Ascii("cookie") then Some((32, false))
    else if text == Ascii("date") then Some((33, false))
    else if text == Ascii("etag") then Some((34, false))
    else if text == Ascii("expect") then Some((35, false))
    else if text == Ascii("expires") then Some((36, false))
    else if text == Ascii("from") then Some((37, false))
    else if text == Ascii("host") then Some((38, false))
    else FromIfMatch(text)
  }

  function FromIfMatch(text: Bytes): (s: Static)
    ensures s.Some? ==> !s.value.1
  {
    if text == Ascii("if-match") then Some((39, false))
    else if text == Ascii("if-modified-since") then Some((40, false))
    else if text == Ascii("if-none-match") then Some((41, false))
    else if text == Ascii("if-range") then Some((42, false))
    else if text == Ascii("if-unmodified-since") then Some((43, false))
    else if text == Ascii("last-modified") then Some((44, false))
    else if text == Ascii("link") then Some((45, false))
    else if text == Ascii("location") then Some((46, false))
    else FromMaxForwards(text)
  }

  function FromMaxForwards(text: Bytes): (s: Static)
    ensures s.Some? ==> !s.value.1
  {
    if text == Ascii("max-forwards") then Some((47, false))
    else if text == Ascii("proxy-authenticate") then Some((48, false))
    else if text == Ascii("proxy-authorization") then Some((49, false))
    else if text == Ascii("range") then Some((50, false))
    else if text == Ascii("referer") then Some((51, false))
    else if text == Ascii("refresh") then Some((52, false))
    else if text == Ascii("retry-after") then Some((53, false))
    else if text == Ascii("server") then Some((54, false))
    else FromSetCookie(text)
  }

  function FromSetCookie(text: Bytes): (s: Static)
    ensures s.Some? ==> !s.value.1
  {
    if text == Ascii("set-cookie") then Some((55, false))
    else if text == Ascii("strict-transport-security") then Some((56, false))
    else if text == Ascii("transfer-encoding") then Some((57, false))
    else if text == Ascii("user-agent") then Some((58, false))
    else if text == Ascii("vary") then Some((59, false))
    else if text == Ascii("via") then Some((60, false))
    else if text == Ascii("www-authenticate") then Some((61, false))
    else None
  }

  function IndexStatic(h: Header): (s: Static) {
    match h.name
    case Field(text) => FieldStatic(text, h.value)
    case Authority => Some((1, false))
    case Method =>
      if h.value == Ascii("GET") then Some((2, true))
      else if h.value == Ascii("POST") then Some((3, true))
      else Some((2, false))
    case Scheme =>
      if h.value == Ascii("http") then Some((6, true))
      else if h.value == Ascii("https") then Some((7, true))
      else Some((6, false))
    case Path =>
      if h.value == Ascii("/") then Some((4, true))
      else if h.value == Ascii("/index.html") then Some((5, true))
      else Some((4, false))
    case Protocol => None
    case Status =>
      if h.value == Ascii("200") then Some((8, true))
      else if h.value == Ascii("204") then Some((9, true))
      else if h.value == Ascii("206") then Some((10, true))
      else if h.value == Ascii("304") then Some((11, true))
      else if h.value == Ascii("400") then Some((12, true))
      else if h.value == Ascii("404") then Some((13, true))
      else if h.value == Ascii("500") then Some((14, true))
      else Some((8, false))
  }

  function FieldHeader(name: string, value: string): (h: Header)
    ensures value == "" ==> h.value == []
  {
    Header(Field(Ascii(name)), Ascii(value), false)
  }

  function PseudoEntry(idx: nat): (h: Header)
    ensures !h.sensitive
  {
    match idx
    case 1 => Header(Authority, Ascii(""), false)
    case 2 => Header(Method, Ascii("GET"), false)
    case 3 => Header(Method, Ascii("POST"), false)
    case 4 => Header(Path, Ascii("/"), false)
    case 5 => Header(Path, Ascii("/index.html"), false)
    case 6 => Header(Scheme, Ascii("http"), false)
    case 7 => Header(Scheme, Ascii("https"), false)
    case 8 => Header(Status, Ascii("200"), false)
    case 9 => Header(Status, Ascii("204"), false)
    case 10 => Header(Status, Ascii("206"), false)
    case 11 => Header(Status, Ascii("304"), false)
    case 12 => Header(Status, Ascii("400"), false)
    case 13 => Header(Status, Ascii("404"), false)
    case _ => Header(Status, Ascii("500"), false)
  }

  function FieldEntry(idx: nat): (h: Header)
    ensures !h.sensitive
    ensures idx != 16 ==> h.value == []
  {
    match idx
    case 15 => FieldHeader("accept-charset", "")
    case 16 => FieldHeader("accept-encoding", "gzip, deflate")
    case 17 => FieldHeader("accept-language", "")
    case 18 => FieldHeader("accept-ranges", "")
    case 19 => FieldHeader("accept", "")
    case 20 => FieldHeader("access-control-allow-origin", "")
    case 21 => FieldHeader("age", "")
    case 22 => FieldHeader("allow", "")
    case _ => AuthorizationEntries(idx)
  }

  function AuthorizationEntries(idx: nat): (h: Header)
    ensures !h.sensitive && h.value == []
  {
    match idx
    case 23 => FieldHeader("authorization", "")
    case 24 => FieldHeader("cache-control", "")
    case 25 => FieldHeader("content-disposition", "")
    case 26 => FieldHeader("content-encoding", "")
    case 27 => FieldHeader("content-language", "")
    case 28 => FieldHeader("content-length", "")
    case 29 => FieldHeader("content-location", "")
    case 30 => FieldHeader("content-range", "")
    case _ => ContentTypeEntries(idx)
  }

  function ContentTypeEntries(idx: nat): (h: Header)
    ensures !h.sensitive && h.value == []
  {
    match idx
    case 31 => FieldHeader("content-type", "")
    case 32 => FieldHeader("cookie", "")
    case 33 => FieldHeader("date", "")
    case 34 => FieldHeader("etag", "")
    case 35 => FieldHeader("expect", "")
    case 36 => FieldHeader("expires", "")
    case 37 => FieldHeader("from", "")
    case 38 => FieldHeader("host", "")
    case _ => IfMatchEntries(idx)
  }

  function IfMatchEntries(idx: nat): (h: Header)
    ensures !h.sensitive && h.value == []
  {
    match idx
    case 39 => FieldHeader("if-match", "")
    case 40 => FieldHeader("if-modified-since", "")
    case 41 => FieldHeader("if-none-match", "")
    case 42 => FieldHeader("if-range", "")
    case 43 => FieldHeader("if-unmodified-since", "")
    case 44 => FieldHeader("last-modified", "")
    case 45 => FieldHeader("link", "")
    case 46 => FieldHeader("location", "")
    case _ => MaxForwardsEntries(idx)
  }

  function MaxForwardsEntries(idx: nat): (h: Header)
    ensures !h.sensitive && h.value == []
  {
    match idx
    case 47 => FieldHeader("max-forwards", "")
    case 48 => FieldHeader("proxy-authenticate", "")
    case 49 => FieldHeader("proxy-authorization", "")
    case 50 => FieldHeader("range", "")
    case 51 => FieldHeader("referer", "")
    case 52 => FieldHeader("refresh", "")
    case 53 => FieldHeader("retry-after", "")
    case 54 => FieldHeader("server", "")
    case _ => SetCookieEntries(idx)
  }

  function SetCookieEntries(idx: nat): (h: Header)
    ensures !h.sensitive && h.value == []
  {
    match idx
    case 55 => FieldHeader("set-cookie", "")
    case 56 => FieldHeader("strict-transport-security", "")
    case 57 => FieldHeader("transfer-encoding", "")
    case 58 => FieldHeader("user-agent", "")
    case 59 => FieldHeader("vary", "")
    case 60 => FieldHeader("via", "")
    case _ => FieldHeader("www-authenticate", "")
  }

  /** The decoder's static table. */
  function GetStatic(idx: nat): (h: Header)
    requires 1 <= idx <= 61
    ensures !h.sensitive
  {
    if idx <= 14 then PseudoEntry(idx) else FieldEntry(idx)
  }

  /** What a static index promises about a header. */
  ghost predicate StaticFits(s: Static, h: Header) {
    s.Some? ==>
      && 1 <= s.value.0 <= 61
      && GetStatic(s.value.0).name == h.name
      && (s.value.1 ==> GetStatic(s.value.0).value == h.value)
  }

  lemma FromSetCookieFits(text: Bytes, value: Bytes)
    ensures StaticFits(FromSetCookie(text), Header(Field(text), value, false))
  {
    hide Ascii, PseudoEntry;
  }

  lemma FromMaxForwardsFits(text: Bytes, value: Bytes)
    ensures StaticFits(FromMaxForwards(text), Header(Field(text), value, false))
  {
    hide Ascii, PseudoEntry, FromSetCookie, SetCookieEntries;
    FromSetCookieFits(text, value);
  }

  lemma FromIfMatchFits(text: Bytes, value: Bytes)
    ensures StaticFits(FromIfMatch(text), Header(Field(text), value, false))
  {
    hide Ascii, PseudoEntry, FromMaxForwards, MaxForwardsEntries;
    FromMaxForwardsFits(text, value);
  }

  lemma FromContentTypeFits(text: Bytes, value: Bytes)
    ensures StaticFits(FromContentType(text), Header(Field(text), value, false))
  {
    hide Ascii, PseudoEntry, FromIfMatch, IfMatchEntries;
    FromIfMatchFits(text, value);
  }

  lemma FromAuthorizationFits(text: Bytes, value: Bytes)
    ensures StaticFits(FromAuthorization(text), Header(Field(text), value, false))
  {
    hide Ascii, PseudoEntry, FromContentType, ContentTypeEntries;
    FromContentTypeFits(text, value);
  }

  lemma FieldStaticFits(text: Bytes, value: Bytes)
    ensures StaticFits(FieldStatic(text, value), Header(Field(text), value, false))
  {
    hide Ascii, PseudoEntry, FromAuthorization, AuthorizationEntries;
    FromAuthorizationFits(text, value);
  }

  /** The encoder's search of the static table agrees with the decoder's table, name and value. */
  lemma IndexStaticFits(h: Header)
    ensures StaticFits(IndexStatic(h), h)
  {
    hide Ascii, FieldStatic, FieldEntry;
    if h.name.Field? {
      FieldStaticFits(h.name.text, h.value);
    }
  }

  lemma SkippedIsStatic(h: Header)
    requires SkipValueIndex(h)
    ensures IndexStatic(h).Some?
  {
    hide Ascii;
  }

  /** How the encoder represents a header, and the table afterwards, by linear scan. */
  function IndexHeader(es: Entries, max: nat, h: Header): (r: (Index, Entries)) {
    var statik := IndexStatic(h);
    if SkipValueIndex(h) then (StaticIndex(statik, h), es)
    else if statik.Some? && statik.value.1 then (Indexed(statik.value.0, h), es)
    else if Len(h) * 4 > max * 3 then (StaticIndex(statik, h), es)
    else IndexDynamic(es, max, h, statik)
  }

  datatype Call = Indexing(header: Header) | Resizing(newSize: nat)

  /** A run of calls on a plain FIFO: the answers, and the entries and limit at the end. */
  function ScanRun(es: Entries, max: nat, calls: seq<Call>): (r: (seq<Index>, Entries, nat))
    decreases |calls|
  {
    if calls == [] then ([], es, max)
    else
      match calls[0]
      case Indexing(h) =>
        var (i, es') := IndexHeader(es, max, h);
        var r := ScanRun(es', max, calls[1..]);
        ([i] + r.0, r.1, r.2)
      case Resizing(n) => ScanRun(EvictTo(es, n), n, calls[1..])
  }
}

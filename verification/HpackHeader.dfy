/** HPACK header fields: names, values, table sizes and indexing policy. */
module HpackHeader {
  import opened Octets

  datatype Name = Field(text: Bytes) | Authority | Method | Scheme | Path | Protocol | Status

  /** `sensitive` is the never-index mark of a field value; equality of values ignores it. */
  datatype Header = Header(name: Name, value: Bytes, sensitive: bool)

  function NameSlice(n: Name): (b: Bytes) {
    match n
    case Field(text) => text
    case Authority => Ascii(":authority")
    case Method => Ascii(":method")
    case Scheme => Ascii(":scheme")
    case Path => Ascii(":path")
    case Protocol => Ascii(":protocol")
    case Status => Ascii(":status")
  }

  /** Size of an entry as the tables account for it. */
  function Len(h: Header): (n: nat)
    ensures n >= 32
  {
    match h.name
    case Field(text) => 32 + |text| + |h.value|
    case Authority => 32 + 10 + |h.value|
    case Method => 32 + 7 + |h.value|
    case Scheme => 32 + 7 + |h.value|
    case Path => 32 + 5 + |h.value|
    case Protocol => 32 + 9 + |h.value|
    case Status => 32 + 7 + 3
  }

  predicate SameNameValue(a: Header, b: Header) {
    a.name == b.name && a.value == b.value
  }
}

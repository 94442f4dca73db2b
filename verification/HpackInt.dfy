/** HPACK integers (section 5.1 of RFC 7541). */
module HpackInt {
  import opened Octets

  datatype NeedMore = UnexpectedEndOfStream | IntegerUnderflow | StringUnderflow

  datatype DecoderError =
    | InvalidRepresentation
    | InvalidIntegerPrefix
    | InvalidTableIndex
    | InvalidHuffmanCode
    | InvalidUtf8
    | InvalidStatusCode
    | InvalidPseudoheader
    | InvalidMaxDynamicSize
    | IntegerOverflow
    | More(reason: NeedMore)

  /** A value read from the front of a buffer and the octets it took. */
  datatype Parsed<+T> = Parsed(value: T, used: nat) | Failed(error: DecoderError)

  const MAX_BYTES := 5

  /** The number of values a prefix of so many bits holds. */
  function Pow2(bits: nat): (p: nat)
    ensures p >= 1
  {
    if bits == 1 then 2 else if bits == 2 then 4 else if bits == 3 then 8 else if bits == 4 then 16
    else if bits == 5 then 32 else if bits == 6 then 64 else if bits == 7 then 128 else 256
  }

  /** The low bits of an octet. */
  function LowBits(b: byte, bits: nat): (r: nat)
    ensures r < Pow2(bits)
  {
    if bits == 1 then b % 2 else if bits == 2 then b % 4 else if bits == 3 then b % 8 else if bits == 4 then b % 16
    else if bits == 5 then b % 32 else if bits == 6 then b % 64 else if bits == 7 then b % 128 else b
  }

  // ----- encoding -----

  /** Seven bits an octet, least significant first, high bit set on all but the last. */
  function Varint(v: nat): (b: Bytes)
    ensures |b| > 0
  {
    if v < 128 then [v] else [128 + v % 128] + Varint(v / 128)
  }

  /** A prefix that leaves its low bits free for an integer. */
  predicate PrefixFits(prefix: nat, first: byte) {
    4 <= prefix <= 7 && LowBits(first, prefix) == 0 && first + Pow2(prefix) <= 256
  }

  function IntBytes(value: nat, prefix: nat, first: byte): (b: Bytes)
    requires PrefixFits(prefix, first)
    ensures |b| > 0
  {
    var low := Pow2(prefix) - 1;
    if value < low then [first + value] else [first + low] + Varint(value - low)
  }

  lemma LowBitsOf(first: byte, k: nat, prefix: nat)
    requires PrefixFits(prefix, first) && k < Pow2(prefix)
    ensures LowBits(first + k, prefix) == k
  {
    if prefix == 4 {
      assert first == 16 * (first / 16) && (first + k) / 16 == first / 16;
    } else if prefix == 5 {
      assert first == 32 * (first / 32) && (first + k) / 32 == first / 32;
    } else if prefix == 6 {
      assert first == 64 * (first / 64) && (first + k) / 64 == first / 64;
    } else {
      assert first == 128 * (first / 128) && (first + k) / 128 == first / 128;
    }
  }

  /** The first octet keeps the bits above the prefix. */
  lemma IntTag(value: nat, prefix: nat, first: byte)
    requires PrefixFits(prefix, first)
    ensures var b := IntBytes(value, prefix, first)[0];
            first <= b < first + Pow2(prefix) && LowBits(b, prefix) == b - first
  {
    hide LowBits;
    LowBitsOf(first, if value < Pow2(prefix) - 1 then value else Pow2(prefix) - 1, prefix);
  }

  lemma VarintStep(out: Bytes, v: nat)
    requires v >= 128
    ensures out + Varint(v) == (out + [128 + v % 128]) + Varint(v / 128)
  {
  }

  lemma VarintLast(v: nat)
    requires v < 128
    ensures Varint(v) == [v]
  {
  }

  method EncodeInt(value: nat, prefix: nat, first: byte, dst: Bytes) returns (out: Bytes)
    requires PrefixFits(prefix, first)
    ensures out == dst + IntBytes(value, prefix, first)
  {
    hide Varint;
    if value < Pow2(prefix) - 1 {
      return dst + [first + value];
    }
    var low := Pow2(prefix) - 1;
    var v := value - low;
    out := dst + [first + low];
    ghost var goal := out + Varint(v);
    while v >= 128
      invariant 0 <= v
      invariant out + Varint(v) == goal
    {
      VarintStep(out, v);
      out := out + [128 + v % 128];
      v := v / 128;
    }
    VarintLast(v);
    out := out + [v];
  }

  // ----- decoding -----

  /** What `x` is worth at the `i`-th octet of an integer. */
  function Place(x: nat, i: nat): (w: nat)
    requires 1 <= i < MAX_BYTES
  {
    if i == 1 then x else if i == 2 then 0x80 * x else if i == 3 then 0x4000 * x else 0x20_0000 * x
  }

  /** Reads the octets behind the prefix; `i` octets have been read so far. */
  function ParseRest(tail: Bytes, i: nat, acc: nat): (r: Parsed<nat>)
    requires 1 <= i < MAX_BYTES
    ensures r.Parsed? ==> i < r.used <= i + |tail| && r.used <= MAX_BYTES
    decreases MAX_BYTES - i
  {
    if tail == [] then Failed(More(IntegerUnderflow))
    else
      var acc' := acc + Place(tail[0] % 128, i);
      if tail[0] < 128 then Parsed(acc', i + 1)
      else if i + 1 == MAX_BYTES then Failed(IntegerOverflow)
      else ParseRest(tail[1..], i + 1, acc')
  }

  function ParseInt(buf: Bytes, prefix: nat): (r: Parsed<nat>)
    ensures r.Parsed? ==> 0 < r.used <= |buf| && r.used <= MAX_BYTES
  {
    if prefix < 1 || prefix > 8 then Failed(InvalidIntegerPrefix)
    else if buf == [] then Failed(More(IntegerUnderflow))
    else
      var ret := LowBits(buf[0], prefix);
      if ret < Pow2(prefix) - 1 then Parsed(ret, 1) else ParseRest(buf[1..], 1, ret)
  }

  method DecodeInt(buf: Bytes, prefix: nat) returns (r: Parsed<nat>)
    ensures r == ParseInt(buf, prefix)
  {
    if prefix < 1 || prefix > 8 {
      return Failed(InvalidIntegerPrefix);
    }
    if buf == [] {
      return Failed(More(IntegerUnderflow));
    }
    var low := Pow2(prefix) - 1;
    var ret: nat := LowBits(buf[0], prefix);
    if ret < low {
      return Parsed(ret, 1);
    }
    var bytes: nat := 1;
    while bytes < |buf|
      invariant 1 <= bytes < MAX_BYTES
      invariant bytes <= |buf| && ParseRest(buf[1..], 1, LowBits(buf[0], prefix)) == ParseRest(buf[bytes..], bytes, ret)
    {
      var b := buf[bytes];
      assert buf[bytes..][1..] == buf[bytes + 1..];
      ret := ret + Place(b % 128, bytes);
      bytes := bytes + 1;
      if b < 128 {
        return Parsed(ret, bytes);
      }
      if bytes == MAX_BYTES {
        return Failed(IntegerOverflow);
      }
    }
    r := Failed(More(IntegerUnderflow));
  }

  // ----- round trip -----

  lemma PlaceSplit(v: nat, i: nat)
    requires 1 <= i && i + 1 < MAX_BYTES
    ensures Place(v % 128, i) + Place(v / 128, i + 1) == Place(v, i)
  {
  }

  lemma PlaceBound(v: nat, i: nat)
    requires 1 <= i < MAX_BYTES
    ensures v < 128 ==> Place(v, i) < 0x1000_0000
    ensures v >= 128 && i + 1 == MAX_BYTES ==> Place(v, i) >= 0x1000_0000
  {
  }

  lemma LowSeven(v: nat)
    ensures (128 + v % 128) % 128 == v % 128
  {
  }

  /** The first octet and what is behind it. */
  lemma FirstOctet(v: nat, rest: Bytes)
    ensures var b := Varint(v) + rest;
            && b[0] == (if v < 128 then v else 128 + v % 128) && b[0] % 128 == v % 128
            && (v < 128 ==> |Varint(v)| == 1)
            && (v >= 128 ==> b[1..] == Varint(v / 128) + rest && |Varint(v)| == 1 + |Varint(v / 128)|)
  {
    LowSeven(v);
    if v >= 128 {
      TailOf(128 + v % 128, Varint(v / 128), rest);
    }
  }

  lemma TailOf(first: byte, tail: Bytes, rest: Bytes)
    ensures var b := ([first] + tail) + rest; b[0] == first && b[1..] == tail + rest
  {
  }

  /** Four octets of seven bits follow the prefix at most. */
  lemma {:induction false} VarintRoundTrip(v: nat, rest: Bytes, i: nat, acc: nat)
    requires 1 <= i < MAX_BYTES
    ensures ParseRest(Varint(v) + rest, i, acc) ==
            if Place(v, i) < 0x1000_0000 then Parsed(acc + Place(v, i), i + |Varint(v)|)
            else Failed(IntegerOverflow)
    decreases MAX_BYTES - i
  {
    hide Place, Varint;
    PlaceBound(v, i);
    FirstOctet(v, rest);
    if v >= 128 {
      if i + 1 < MAX_BYTES {
        VarintRoundTrip(v / 128, rest, i + 1, acc + Place(v % 128, i));
        PlaceSplit(v, i);
        PlaceMonotone(v, i);
      }
    }
  }

  lemma PlaceMonotone(v: nat, i: nat)
    requires 1 <= i && i + 1 < MAX_BYTES
    ensures Place(v, i) < 0x1000_0000 <==> Place(v / 128, i + 1) < 0x1000_0000
  {
  }

  /**
   Decoding what was encoded gives the value back exactly when it is small enough, reading
   only the octets written; otherwise it reports an overflow.
   */
  lemma IntRoundTrip(value: nat, prefix: nat, first: byte, rest: Bytes)
    requires PrefixFits(prefix, first)
    ensures ParseInt(IntBytes(value, prefix, first) + rest, prefix) ==
            if value < Pow2(prefix) - 1 + 0x1000_0000 then Parsed(value, |IntBytes(value, prefix, first)|)
            else Failed(IntegerOverflow)
  {
    var low := Pow2(prefix) - 1;
    var buf := IntBytes(value, prefix, first) + rest;
    IntTag(value, prefix, first);
    if value >= low {
      assert buf[1..] == Varint(value - low) + rest;
      VarintRoundTrip(value - low, rest, 1, low);
    }
  }

  /** The examples of section C.1 of RFC 7541. */
  lemma Examples()
    ensures IntBytes(10, 5, 0) == [10] && IntBytes(1337, 5, 0) == [31, 154, 10]
  {
    assert Varint(1306) == [154] + Varint(10) && Varint(10) == [10];
  }

  /** More input cannot change the value of a complete integer, nor a failure other than a short read. */
  lemma {:induction false} RestExtends(a: Bytes, b: Bytes, i: nat, acc: nat)
    requires 1 <= i < MAX_BYTES
    ensures ParseRest(a, i, acc) == ParseRest(a + b, i, acc) || ParseRest(a, i, acc) == Failed(More(IntegerUnderflow))
    decreases MAX_BYTES - i
  {
  }

  lemma IntExtends(a: Bytes, b: Bytes, prefix: nat)
    ensures ParseInt(a, prefix) == ParseInt(a + b, prefix) || ParseInt(a, prefix) == Failed(More(IntegerUnderflow))
  {
    if a != [] && 1 <= prefix <= 8 {
      assert (a + b)[1..] == a[1..] + b;
      RestExtends(a[1..], b, 1, LowBits(a[0], prefix));
    }
  }
}

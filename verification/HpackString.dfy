/** HPACK string literals (section 5.2 of RFC 7541). */
module HpackString {
  import opened Wrappers
  import opened Octets
  import opened HpackInt

  /** The Huffman coder, an unexamined pair of functions. */
  datatype Huffman = Huffman(encode: Bytes -> Bytes, decode: Bytes -> Option<Bytes>)

  /** What is assumed of the pair: decoding undoes encoding. */
  ghost predicate RoundTrips(h: Huffman) {
    forall s :: h.decode(h.encode(s)) == Some(s)
  }

  /** A string literal as the encoder writes it: a Huffman-coded one, or the empty one. */
  function StrBytes(h: Huffman, val: Bytes): (b: Bytes)
    ensures |b| > 0
  {
    if val == [] then [0] else IntBytes(|h.encode(val)|, 7, 0x80) + h.encode(val)
  }

  /** What the in-place encoder holds once a one-octet hole has been left for the length. */
  function WithHole(dst: Bytes, code: Bytes): (b: Bytes) {
    dst + [0] + code
  }

  /** Moves `code` from just behind the hole to `headLen` octets behind `dst`, last octet first. */
  method ShiftForward(dst: Bytes, code: Bytes, buf: Bytes, headLen: nat) returns (out: Bytes)
    requires headLen >= 1 && |buf| == |dst| + headLen + |code|
    requires WithHole(dst, code) <= buf
    ensures |out| == |buf| && out[..|dst|] == dst && out[|dst| + headLen..] == code
  {
    hide WithHole;
    var idx := |dst|;
    out := buf;
    HoleParts(dst, code, buf);
    for i := 0 to |code|
      invariant |out| == |buf| && Holds(out, 0, dst, 0, idx)
      invariant Holds(out, idx + 1, code, 0, |code| - i) && Holds(out, idx + headLen, code, |code| - i, |code|)
    {
      var at := |code| - (i + 1);
      ShiftOne(out, idx, headLen, dst, code, at);
      out := out[idx + headLen + at := out[idx + 1 + at]];
    }
    assert out[..idx] == dst && out[idx + headLen..] == code;
  }

  /** The octets from `lo` to `hi` of `b` are in place, seen from `at`. */
  ghost predicate Holds(out: Bytes, at: nat, b: Bytes, lo: nat, hi: nat) {
    hi <= |b| && at + hi <= |out| && forall k :: lo <= k < hi ==> out[at + k] == b[k]
  }

  /** Moving one octet back leaves those in front of it where they are. */
  lemma ShiftOne(out: Bytes, idx: nat, headLen: nat, dst: Bytes, code: Bytes, at: nat)
    requires headLen >= 1 && at < |code| && |out| == idx + headLen + |code| && |dst| == idx
    requires Holds(out, 0, dst, 0, idx) && Holds(out, idx + 1, code, 0, at + 1)
    requires Holds(out, idx + headLen, code, at + 1, |code|)
    ensures var out' := out[idx + headLen + at := out[idx + 1 + at]];
            && Holds(out', 0, dst, 0, idx) && Holds(out', idx + 1, code, 0, at)
            && Holds(out', idx + headLen, code, at, |code|)
  {
  }

  lemma HoleParts(dst: Bytes, code: Bytes, buf: Bytes)
    requires WithHole(dst, code) <= buf
    ensures Holds(buf, 0, dst, 0, |dst|) && Holds(buf, |dst| + 1, code, 0, |code|)
  {
    var b := WithHole(dst, code);
    assert forall k :: 0 <= k < |b| ==> buf[k] == b[k];
    assert forall k :: 0 <= k < |code| ==> b[|dst| + 1 + k] == code[k];
  }

  /** Overwrites the octets from `idx` with the length prefix. */
  method CopyHead(buf: Bytes, idx: nat, head: Bytes) returns (out: Bytes)
    requires idx + |head| <= |buf|
    ensures out == buf[..idx] + head + buf[idx + |head|..]
  {
    out := buf;
    for i := 0 to |head|
      invariant out == buf[..idx] + head[..i] + buf[idx + i..]
    {
      out := out[idx + i := head[i]];
    }
  }

  /** The length needs several octets: shift the code forward, then write the length before it. */
  method WidenHole(dst: Bytes, code: Bytes) returns (out: Bytes)
    ensures out == dst + IntBytes(|code|, 7, 0x80) + code
  {
    hide IntBytes;
    var head := EncodeInt(|code|, 7, 0x80, []);
    assert head == IntBytes(|code|, 7, 0x80);
    out := WithHole(dst, code) + head[1..];
    out := ShiftForward(dst, code, out, |head|);
    out := CopyHead(out, |dst|, head);
  }

  lemma ShortHead(dst: Bytes, code: Bytes)
    requires |code| < Pow2(7) - 1
    ensures WithHole(dst, code)[|dst| := 0x80 + |code|] == dst + IntBytes(|code|, 7, 0x80) + code
  {
  }

  /**
   Writes the code behind a one-octet hole and, when the length needs more than one octet,
   shifts it back to front to make room.
   */
  method EncodeStr(h: Huffman, val: Bytes, dst: Bytes) returns (out: Bytes)
    ensures out == dst + StrBytes(h, val)
  {
    hide IntBytes;
    if val == [] {
      return dst + [0];
    }
    var code := h.encode(val);
    var huffLen := |code|;
    if huffLen < Pow2(7) - 1 {
      ShortHead(dst, code);
      out := WithHole(dst, code)[|dst| := 0x80 + huffLen];
    } else {
      out := WidenHole(dst, code);
    }
    assert dst + IntBytes(|code|, 7, 0x80) + code == dst + (IntBytes(|code|, 7, 0x80) + code);
  }

  function ParseString(h: Huffman, buf: Bytes): (r: Parsed<Bytes>)
    ensures r.Parsed? ==> 0 < r.used <= |buf|
  {
    if buf == [] then Failed(More(UnexpectedEndOfStream))
    else
      match ParseInt(buf, 7)
      case Failed(e) => Failed(e)
      case Parsed(len, used) =>
        if len > |buf| - used then Failed(More(StringUnderflow))
        else
          var raw := buf[used..used + len];
          if buf[0] < 128 then Parsed(raw, used + len)
          else
            match h.decode(raw)
            case None => Failed(InvalidHuffmanCode)
            case Some(s) => Parsed(s, used + len)
  }

  /** Lengths the decoder can read back. */
  predicate Encodable(h: Huffman, val: Bytes) {
    |h.encode(val)| < 0x7f + 0x1000_0000
  }

  lemma StringRoundTrip(h: Huffman, val: Bytes, rest: Bytes)
    requires RoundTrips(h) && Encodable(h, val)
    ensures ParseString(h, StrBytes(h, val) + rest) == Parsed(val, |StrBytes(h, val)|)
  {
    hide IntBytes, ParseInt;
    var buf := StrBytes(h, val) + rest;
    if val == [] {
      EmptyString(rest);
      assert buf[1..1] == val;
    } else {
      var code := h.encode(val);
      var head := IntBytes(|code|, 7, 0x80);
      assert buf == head + (code + rest);
      IntRoundTrip(|code|, 7, 0x80, code + rest);
      IntTag(|code|, 7, 0x80);
      assert buf[|head|..|head| + |code|] == code;
    }
  }

  lemma EmptyString(rest: Bytes)
    ensures ParseInt([0] + rest, 7) == Parsed(0, 1)
  {
  }

  lemma StringExtends(h: Huffman, a: Bytes, b: Bytes)
    ensures ParseString(h, a) == ParseString(h, a + b)
         || (ParseString(h, a).Failed? && ParseString(h, a).error.More?)
  {
    hide ParseInt;
    IntExtends(a, b, 7);
    if ParseInt(a, 7).Parsed? {
      var p := ParseInt(a, 7);
      if p.value <= |a| - p.used {
        assert (a + b)[p.used..p.used + p.value] == a[p.used..p.used + p.value];
      }
    }
  }
}

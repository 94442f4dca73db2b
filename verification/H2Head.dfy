/** The nine octets in front of every HTTP/2 frame (section 4.1 of RFC 7540). */
module H2Head {
  import opened Wrappers
  import opened Octets

  const HEADER_LEN: nat := 9
  const DEFAULT_MAX_FRAME_SIZE: nat := 16384
  const MAX_MAX_FRAME_SIZE: nat := 0xff_ffff

  datatype Kind =
    | Data
    | Headers
    | Priority
    | Reset
    | Settings
    | PushPromise
    | Ping
    | GoAway
    | WindowUpdate
    | Continuation
    | Unknown

  datatype Head = Head(kind: Kind, flag: byte, stream: nat)

  function KindByte(k: Kind): (b: byte) {
    match k
    case Data => 0
    case Headers => 1
    case Priority => 2
    case Reset => 3
    case Settings => 4
    case PushPromise => 5
    case Ping => 6
    case GoAway => 7
    case WindowUpdate => 8
    case Continuation => 9
    case Unknown => 10
  }

  function KindOf(b: byte): (k: Kind)
    ensures k != Unknown ==> KindByte(k) == b
  {
    match b
    case 0 => Data
    case 1 => Headers
    case 2 => Priority
    case 3 => Reset
    case 4 => Settings
    case 5 => PushPromise
    case 6 => Ping
    case 7 => GoAway
    case 8 => WindowUpdate
    case 9 => Continuation
    case _ => Unknown
  }

  /** Section 6 of RFC 7540, in the order of the type codes. */
  const KINDS: seq<Kind> := [
    Data, Headers, Priority, Reset, Settings, PushPromise, Ping, GoAway, WindowUpdate, Continuation]

  lemma KindsAre(b: byte)
    ensures KindOf(b) == if b < |KINDS| then KINDS[b] else Unknown
    ensures b < |KINDS| ==> KindByte(KINDS[b]) == b
  {
    var ks := KINDS;
    assert ks[0] == Data && ks[1] == Headers && ks[2] == Priority && ks[3] == Reset && ks[4] == Settings;
    assert ks[5] == PushPromise && ks[6] == Ping && ks[7] == GoAway && ks[8] == WindowUpdate && ks[9] == Continuation;
  }

  // ----- flags -----

  const END_HEADERS: byte := 0x4

  predicate IsEndHeaders(flags: byte) {
    flags / 4 % 2 == 1
  }

  predicate IsPadded(flags: byte) {
    flags / 8 % 2 == 1
  }

  predicate IsPriority(flags: byte) {
    flags / 32 % 2 == 1
  }

  function SetEndHeaders(flags: byte): (r: byte)
    ensures IsEndHeaders(r)
  {
    if IsEndHeaders(flags) then flags else flags + END_HEADERS
  }

  /** Without END_HEADERS; the other flags stay. */
  function Cleared(h: Head): (r: Head)
    requires IsEndHeaders(h.flag)
    ensures !IsEndHeaders(r.flag) && SetEndHeaders(r.flag) == h.flag
    ensures IsPadded(r.flag) == IsPadded(h.flag) && IsPriority(r.flag) == IsPriority(h.flag)
    ensures r.kind == h.kind && r.stream == h.stream
  {
    h.(flag := h.flag - END_HEADERS)
  }

  /** END_HEADERS is bit two, counted from zero; setting it leaves the others. */
  lemma EndHeadersBit(high: nat, bit: nat, low: nat)
    requires bit < 2 && low < 4 && high < 32
    ensures IsEndHeaders(8 * high + 4 * bit + low) <==> bit == 1
    ensures SetEndHeaders(8 * high + 4 * bit + low) == 8 * high + 4 + low
  {
    var flags := 8 * high + 4 * bit + low;
    assert flags / 4 == 2 * high + bit;
  }

  /** PADDED is bit three. */
  lemma PaddedBit(high: nat, bit: nat, low: nat)
    requires bit < 2 && low < 8 && high < 16
    ensures IsPadded(16 * high + 8 * bit + low) <==> bit == 1
  {
    assert (16 * high + 8 * bit + low) / 8 == 2 * high + bit;
  }

  /** PRIORITY is bit five. */
  lemma PriorityBit(high: nat, bit: nat, low: nat)
    requires bit < 2 && low < 32 && high < 4
    ensures IsPriority(64 * high + 32 * bit + low) <==> bit == 1
  {
    assert (64 * high + 32 * bit + low) / 32 == 2 * high + bit;
  }

  // ----- numbers -----

  function Uint24(n: nat): (b: Bytes)
    ensures |b| == 3
  {
    [n / 256 / 256 % 256, n / 256 % 256, n % 256]
  }

  function Uint32(n: nat): (b: Bytes)
    ensures |b| == 4
  {
    [n / 256 / 256 / 256 % 256, n / 256 / 256 % 256, n / 256 % 256, n % 256]
  }

  /** Big-endian. */
  function Num(b: Bytes): (n: nat) {
    if b == [] then 0 else 256 * Num(b[..|b| - 1]) + b[|b| - 1]
  }

  lemma NumPush(b: Bytes, x: byte)
    ensures Num(b + [x]) == 256 * Num(b) + x
  {
  }

  lemma Num24(a: byte, b: byte, c: byte)
    ensures Num([a, b, c]) == 256 * (256 * a + b) + c
  {
    NumPush([], a);
    NumPush([a], b);
    NumPush([a, b], c);
    assert [] + [a] == [a] && [a] + [b] == [a, b] && [a, b] + [c] == [a, b, c];
  }

  lemma Num32(a: byte, b: byte, c: byte, d: byte)
    ensures Num([a, b, c, d]) == 256 * (256 * (256 * a + b) + c) + d
  {
    Num24(a, b, c);
    NumPush([a, b, c], d);
    assert [a, b, c] + [d] == [a, b, c, d];
  }

  lemma Uint24RoundTrip(n: nat)
    requires n <= MAX_MAX_FRAME_SIZE
    ensures Num(Uint24(n)) == n
  {
    var n1, n2 := n / 256, n / 256 / 256;
    Num24(n2 % 256, n1 % 256, n % 256);
    assert n2 < 256;
  }

  lemma Uint32RoundTrip(n: nat)
    requires n < 0x1_0000_0000
    ensures Num(Uint32(n)) == n
  {
    var n1, n2, n3 := n / 256, n / 256 / 256, n / 256 / 256 / 256;
    Num32(n3 % 256, n2 % 256, n1 % 256, n % 256);
    assert n3 < 256;
  }

  // ----- heads -----

  function HeadBytes(h: Head, payloadLen: nat): (b: Bytes)
    ensures |b| == HEADER_LEN
  {
    Uint24(payloadLen) + [KindByte(h.kind), h.flag] + Uint32(h.stream)
  }

  /** The reserved bit of a stream id is ignored. */
  function ParseStream(b: Bytes): (id: nat)
    requires |b| >= 4
  {
    Num(b[..4]) % 0x8000_0000
  }

  function ParseHead(b: Bytes): (h: Head)
    requires |b| >= HEADER_LEN
  {
    Head(KindOf(b[3]), b[4], ParseStream(b[5..]))
  }

  ghost predicate HeadOk(h: Head) {
    h.kind != Unknown && h.stream < 0x8000_0000
  }

  lemma StreamRoundTrip(id: nat, rest: Bytes)
    requires id < 0x8000_0000
    ensures ParseStream(Uint32(id) + rest) == id
  {
    Uint32RoundTrip(id);
    assert (Uint32(id) + rest)[..4] == Uint32(id);
  }

  function FrameBytes(h: Head, payload: Bytes): (b: Bytes)
    ensures |b| == HEADER_LEN + |payload|
  {
    HeadBytes(h, |payload|) + payload
  }

  /** Kind, flags, stream and payload of a frame are read back. */
  lemma FrameRoundTrip(h: Head, payload: Bytes)
    requires HeadOk(h)
    ensures ParseHead(FrameBytes(h, payload)) == h && FrameBytes(h, payload)[HEADER_LEN..] == payload
  {
    var b := FrameBytes(h, payload);
    hide Uint32, Uint24;
    StreamRoundTrip(h.stream, payload);
    assert b[5..] == Uint32(h.stream) + payload;
  }

  // ----- cutting a stream of octets into frames -----

  /** The first frame of a stream of octets, by its length field. */
  function FirstFrame(b: Bytes): (f: Option<Bytes>)
    ensures f.Some? ==> HEADER_LEN <= |f.value| <= |b|
  {
    if |b| < HEADER_LEN then None
    else
      var n := HEADER_LEN + Num(b[..3]);
      if |b| < n then None else Some(b[..n])
  }

  /** All complete frames, and what is left. */
  function Frames(b: Bytes): (r: (seq<Bytes>, Bytes))
    decreases |b|
  {
    match FirstFrame(b)
    case None => ([], b)
    case Some(f) => var (fs, rest) := Frames(b[|f|..]); ([f] + fs, rest)
  }

  ghost predicate IsFrame(f: Bytes) {
    |f| >= HEADER_LEN && |f| == HEADER_LEN + Num(f[..3])
  }

  lemma FrameIsFrame(h: Head, payload: Bytes)
    requires |payload| <= MAX_MAX_FRAME_SIZE
    ensures IsFrame(FrameBytes(h, payload))
  {
    hide Uint32, Uint24;
    Uint24RoundTrip(|payload|);
    assert FrameBytes(h, payload)[..3] == Uint24(|payload|);
  }

  /** Frames put end to end are told apart again, whatever follows them. */
  lemma {:induction false} FramesToldApart(fs: seq<Bytes>, rest: Bytes)
    requires forall i :: 0 <= i < |fs| ==> IsFrame(fs[i])
    ensures Frames(Concat(fs) + rest) == (fs + Frames(rest).0, Frames(rest).1)
  {
    hide Num;
    var b := Concat(fs) + rest;
    if fs == [] {
      assert b == rest;
      assert fs + Frames(rest).0 == Frames(rest).0;
    } else {
      var f, tail := fs[0], Concat(fs[1..]) + rest;
      assert IsFrame(f);
      assert b == f + tail;
      assert b[..3] == f[..3] && b[..|f|] == f && b[|f|..] == tail;
      FramesToldApart(fs[1..], rest);
      assert fs + Frames(rest).0 == [f] + (fs[1..] + Frames(rest).0);
    }
  }
}

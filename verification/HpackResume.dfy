/**
 Resumable decoding: a header block may reach the decoder in pieces, cut anywhere.  Each
 piece is appended to what the last attempt left over; nothing is lost or read twice.
 */
module HpackResume {
  import opened Wrappers
  import opened Octets
  import opened HpackFifo
  import opened HpackStatic
  import opened HpackInt
  import opened HpackString
  import opened HpackDecode

  ghost predicate ShortRead<T>(p: Parsed<T>) {
    p.Failed? && p.error.More?
  }

  lemma SuffixOfSum(a: Bytes, b: Bytes, i: nat)
    requires i <= |a|
    ensures (a + b)[i..] == a[i..] + b
  {
  }

  lemma NewNameExtends(env: Env, a: Bytes, b: Bytes, used: nat)
    requires 0 < used <= |a|
    ensures ParseNewName(env, a, used) == ParseNewName(env, a + b, used) || ShortRead(ParseNewName(env, a, used))
  {
    hide ParseString, NewHeader;
    SuffixOfSum(a, b, used);
    StringExtends(env.huffman, a[used..], b);
    var p := ParseString(env.huffman, a[used..]);
    if p.Parsed? {
      SuffixOfSum(a, b, used + p.used);
      StringExtends(env.huffman, a[used + p.used..], b);
    }
  }

  lemma TableNameExtends(env: Env, es: Entries, index: nat, a: Bytes, b: Bytes, used: nat)
    requires 0 < used <= |a|
    ensures ParseTableName(env, es, index, a, used) == ParseTableName(env, es, index, a + b, used)
         || ShortRead(ParseTableName(env, es, index, a, used))
  {
    hide ParseString, IntoEntry, Lookup;
    SuffixOfSum(a, b, used);
    StringExtends(env.huffman, a[used..], b);
  }

  lemma LiteralExtends(env: Env, es: Entries, a: Bytes, b: Bytes, prefix: nat)
    ensures ParseLiteral(env, es, a, prefix) == ParseLiteral(env, es, a + b, prefix)
         || ShortRead(ParseLiteral(env, es, a, prefix))
  {
    hide ParseInt, ParseNewName, ParseTableName;
    IntExtends(a, b, prefix);
    var p := ParseInt(a, prefix);
    if p.Parsed? {
      if p.value == 0 {
        NewNameExtends(env, a, b, p.used);
      } else {
        TableNameExtends(env, es, p.value, a, b, p.used);
      }
    }
  }

  /** A representation that is complete in `a` reads the same whatever follows. */
  lemma OneExtends(env: Env, st: State, canResize: bool, a: Bytes, b: Bytes)
    requires a != []
    ensures ParseOne(env, st, canResize, a) == ParseOne(env, st, canResize, a + b)
         || ShortRead(ParseOne(env, st, canResize, a))
  {
    hide ParseInt, ParseLiteral, Lookup, EvictTo;
    LiteralExtends(env, st.entries, a, b, 6);
    LiteralExtends(env, st.entries, a, b, 4);
    IntExtends(a, b, 7);
    IntExtends(a, b, 5);
  }

  lemma LiteralKeepsBuffer(env: Env, es: Entries, a: Bytes, b: Bytes, prefix: nat)
    requires ParseLiteral(env, es, a, prefix).Failed? && ParseLiteral(env, es, a + b, prefix).Parsed?
    ensures LiteralDropped(env, es, a, prefix) == 0
  {
    hide ParseInt, ParseString, NewHeader, IntoEntry;
    IntExtends(a, b, prefix);
    var p := ParseInt(a, prefix);
    if p.Parsed? {
      SuffixOfSum(a, b, p.used);
      StringExtends(env.huffman, a[p.used..], b);
      var s := ParseString(env.huffman, a[p.used..]);
      if s.Parsed? {
        SuffixOfSum(a, b, p.used + s.used);
        StringExtends(env.huffman, a[p.used + s.used..], b);
      }
    }
  }

  /** When more input would help, nothing has been used up. */
  lemma OneKeepsBuffer(env: Env, st: State, canResize: bool, a: Bytes, b: Bytes)
    requires a != []
    requires ParseOne(env, st, canResize, a).Failed? && ParseOne(env, st, canResize, a + b).Parsed?
    ensures Dropped(env, st.entries, a) == 0
  {
    hide ParseLiteral, LiteralDropped, ParseIndexed;
    if Load(a[0]).WithIndexing? {
      LiteralKeepsBuffer(env, st.entries, a, b, 6);
    } else if Load(a[0]).WithoutIndexing? || Load(a[0]).NeverIndexed? {
      LiteralKeepsBuffer(env, st.entries, a, b, 4);
    }
  }

  /** Allowing a size update changes nothing for a block that decodes without. */
  lemma {:induction false} ResizeAllowed(env: Env, st: State, canResize: bool, buf: Bytes)
    requires DecodeAll(env, st, canResize, buf).error.None?
    ensures DecodeAll(env, st, true, buf) == DecodeAll(env, st, canResize, buf)
    decreases |buf|
  {
  }

  /** Cutting a block in two: the first part stops cleanly and the rest completes it. */
  lemma {:induction false} DecodeSplit(env: Env, st: State, canResize: bool, a: Bytes, b: Bytes)
    requires DecodeAll(env, st, canResize, a + b).error.None?
    ensures var whole := DecodeAll(env, st, canResize, a + b);
            var first := DecodeAll(env, st, canResize, a);
            var second := DecodeAll(env, first.state, true, first.rest + b);
            && (first.error.Some? ==> first.error.value.More?) && (first.error.None? <==> first.rest == [])
            && second.error.None? && second.rest == whole.rest
            && second.state == whole.state
            && first.emitted + second.emitted == whole.emitted
    decreases |a|
  {
    hide ParseOne, Dropped;
    if a == [] {
      assert a + b == b && [] + b == b;
      ResizeAllowed(env, st, canResize, b);
    } else {
      OneExtends(env, st, canResize, a, b);
      var p := ParseOne(env, st, canResize, a);
      if p.Parsed? {
        SuffixOfSum(a, b, p.used);
        DecodeSplit(env, p.value.state, canResize && p.value.emitted == [], a[p.used..], b);
      } else {
        OneKeepsBuffer(env, st, canResize, a, b);
        ResizeAllowed(env, st, canResize, a + b);
      }
    }
  }

  /** Feeding pieces one by one; only the last may not ask for more. */
  function Feed(env: Env, st: State, left: Bytes, chunks: seq<Bytes>): (d: Decoded)
    requires chunks != []
    decreases |chunks|
  {
    var d := DecodeAll(env, st, true, left + chunks[0]);
    if |chunks| == 1 || (d.error.Some? && !d.error.value.More?) then d
    else
      var e := Feed(env, d.state, d.rest, chunks[1..]);
      e.(emitted := d.emitted + e.emitted)
  }

  /** A block that decodes in one go decodes in pieces, cut anywhere, to the same headers and table. */
  lemma {:induction false} FeedWhole(env: Env, st: State, left: Bytes, chunks: seq<Bytes>)
    requires chunks != []
    requires DecodeAll(env, st, true, left + Concat(chunks)).error.None?
    ensures Feed(env, st, left, chunks) == DecodeAll(env, st, true, left + Concat(chunks))
    decreases |chunks|
  {
    hide DecodeAll;
    var a, b := left + chunks[0], Concat(chunks[1..]);
    assert left + Concat(chunks) == a + b;
    if |chunks| == 1 {
      assert a + b == a;
    } else {
      DecodeSplit(env, st, true, a, b);
      var d := DecodeAll(env, st, true, a);
      FeedWhole(env, d.state, d.rest, chunks[1..]);
    }
  }

  // ----- the converse -----

  /** Where decoding of a buffer stops: the octets from the first representation it could not read. */
  function Stopped(env: Env, st: State, canResize: bool, buf: Bytes): (tail: Bytes)
    decreases |buf|
  {
    if buf == [] then []
    else
      match ParseOne(env, st, canResize, buf)
      case Failed(_) => buf
      case Parsed(effect, used) => Stopped(env, effect.state, canResize && effect.emitted == [], buf[used..])
  }

  function LiteralPrefix(b: byte): (prefix: nat) {
    if Load(b).WithIndexing? then 6 else 4
  }

  /** A complete literal, its index under a prefix of this many bits, whose name is the empty string. */
  predicate EmptyNameAt(env: Env, buf: Bytes, prefix: nat) {
    var index := ParseInt(buf, prefix);
    && index.Parsed? && index.value == 0
    && var name := ParseString(env.huffman, buf[index.used..]);
       && name.Parsed? && name.value == []
       && ParseString(env.huffman, buf[index.used + name.used..]).Parsed?
  }

  /** The octets start with a complete literal whose name is the empty string. */
  predicate EmptyNamed(env: Env, buf: Bytes) {
    && buf != [] && (Load(buf[0]).WithIndexing? || Load(buf[0]).WithoutIndexing? || Load(buf[0]).NeverIndexed?)
    && EmptyNameAt(env, buf, LiteralPrefix(buf[0]))
  }

  predicate StartsWithUpdate(buf: Bytes) {
    buf != [] && Load(buf[0]).SizeUpdateRep?
  }

  lemma EmptyLiteral(env: Env, es: Entries, a: Bytes, b: Bytes, prefix: nat)
    requires ParseLiteral(env, es, a, prefix).Failed?
    ensures EmptyNameAt(env, a, prefix) ==> ParseLiteral(env, es, a + b, prefix).Failed?
    ensures !EmptyNameAt(env, a, prefix) && ParseLiteral(env, es, a, prefix).error.More? ==>
              LiteralDropped(env, es, a, prefix) == 0
  {
    hide ParseInt, ParseString, Lookup;
    IntExtends(a, b, prefix);
    var index := ParseInt(a, prefix);
    if index.Parsed? {
      SuffixOfSum(a, b, index.used);
      StringExtends(env.huffman, a[index.used..], b);
      var name := ParseString(env.huffman, a[index.used..]);
      if name.Parsed? {
        SuffixOfSum(a, b, index.used + name.used);
        StringExtends(env.huffman, a[index.used + name.used..], b);
      }
    }
  }

  /** A representation that asks for more keeps its octets, unless it is a literal with an empty name. */
  lemma EmptyName(env: Env, st: State, canResize: bool, a: Bytes, b: Bytes)
    requires a != [] && ShortRead(ParseOne(env, st, canResize, a))
    ensures EmptyNamed(env, a) ==> ParseOne(env, st, canResize, a + b).Failed?
    ensures !EmptyNamed(env, a) ==> Dropped(env, st.entries, a) == 0
  {
    hide ParseLiteral, LiteralDropped, ParseIndexed, ParseInt, EmptyNameAt;
    if Load(a[0]).WithIndexing? {
      EmptyLiteral(env, st.entries, a, b, 6);
    } else if Load(a[0]).WithoutIndexing? || Load(a[0]).NeverIndexed? {
      EmptyLiteral(env, st.entries, a, b, 4);
    }
  }

  /** A block that decodes when size updates are allowed decodes when they are not, unless it starts with one. */
  lemma ResizeForbidden(env: Env, st: State, buf: Bytes)
    requires DecodeAll(env, st, true, buf).error.None?
    ensures DecodeAll(env, st, false, buf).error.None? <==> !StartsWithUpdate(buf)
  {
    hide ParseLiteral, ParseInt, ParseIndexed, Dropped, EvictTo;
    if buf != [] && !StartsWithUpdate(buf) {
      assert ParseOne(env, st, true, buf) == ParseOne(env, st, false, buf);
    }
  }

  /** The pieces are accepted: the first decodes or asks for more, and the rest completes it. */
  predicate PiecesAccepted(env: Env, st: State, canResize: bool, a: Bytes, b: Bytes) {
    var first := DecodeAll(env, st, canResize, a);
    && (first.error.Some? ==> first.error.value.More?)
    && DecodeAll(env, first.state, true, first.rest + b).error.None?
  }

  /** The pieces are accepted exactly when feeding them one by one succeeds. */
  lemma PiecesAreFed(env: Env, st: State, a: Bytes, b: Bytes)
    ensures Feed(env, st, [], [a, b]).error.None? <==> PiecesAccepted(env, st, true, a, b)
  {
    hide DecodeAll;
    assert [a, b][1..] == [b] && [] + a == a;
  }

  lemma {:induction false} ConverseFrom(env: Env, st: State, canResize: bool, a: Bytes, b: Bytes)
    requires PiecesAccepted(env, st, canResize, a, b)
    ensures var first := DecodeAll(env, st, canResize, a);
            DecodeAll(env, st, canResize, a + b).error.None?
            <==> !((!canResize || first.emitted != []) && StartsWithUpdate(first.rest + b))
                 && !EmptyNamed(env, Stopped(env, st, canResize, a))
    decreases |a|
  {
    hide ParseOne, Dropped, EmptyNamed, StartsWithUpdate;
    if a == [] {
      assert a + b == b && [] + b == b;
      NotEmptyNamed(env);
      if !canResize {
        ResizeForbidden(env, st, b);
      }
    } else {
      OneExtends(env, st, canResize, a, b);
      var p := ParseOne(env, st, canResize, a);
      if p.Parsed? {
        SuffixOfSum(a, b, p.used);
        ConverseFrom(env, p.value.state, canResize && p.value.emitted == [], a[p.used..], b);
      } else {
        EmptyName(env, st, canResize, a, b);
        if !EmptyNamed(env, a) {
          NoUpdateCut(env, st, canResize, a, b);
          if !canResize {
            ResizeForbidden(env, st, a + b);
          }
        }
      }
    }
  }

  lemma NotEmptyNamed(env: Env)
    ensures !EmptyNamed(env, [])
  {
  }

  /** Where a size update is forbidden one is refused, not waited for. */
  lemma NoUpdateCut(env: Env, st: State, canResize: bool, a: Bytes, b: Bytes)
    requires a != [] && ShortRead(ParseOne(env, st, canResize, a))
    ensures !canResize ==> !StartsWithUpdate(a + b)
  {
    hide ParseLiteral, ParseInt, ParseIndexed;
    assert (a + b)[0] == a[0];
  }

  /**
   The converse, exactly.  Two pieces that are accepted make a block that is accepted whole,
   unless a header came out of the first piece and what remains starts with a size update, or
   the first piece ends in a literal with an empty name, whose octets are dropped.
   */
  lemma WholeAcceptedIff(env: Env, st: State, a: Bytes, b: Bytes)
    requires PiecesAccepted(env, st, true, a, b)
    ensures var first := DecodeAll(env, st, true, a);
            DecodeAll(env, st, true, a + b).error.None?
            <==>
              && !(first.emitted != [] && StartsWithUpdate(first.rest + b))
              && !EmptyNamed(env, Stopped(env, st, true, a))
  {
    ConverseFrom(env, st, true, a, b);
  }

  /** The indexed header `:method: GET`, whatever follows. */
  lemma DecodeMethod(env: Env, st: State, canResize: bool, rest: Bytes)
    ensures var d, e := DecodeAll(env, st, canResize, [0x82] + rest), DecodeAll(env, st, false, rest);
            d == e.(emitted := [GetStatic(2)] + e.emitted)
  {
    hide GetStatic;
    var buf := [0x82] + rest;
    assert ParseInt(buf, 7) == Parsed(2, 1);
    assert buf[1..] == rest;
  }

  /** The update to size zero, where updates are allowed and where they are not. */
  lemma DecodeUpdate(env: Env, st: State)
    ensures DecodeAll(env, st, true, [0x20]).error.None?
    ensures DecodeAll(env, st, false, [0x20]).error == Some(InvalidMaxDynamicSize)
  {
    assert ParseInt([0x20], 5) == Parsed(0, 1);
    assert [0x20][1..] == [];
  }

  /** Each attempt allows size updates afresh: an update behind a header is refused whole, accepted in two. */
  lemma LateUpdateAccepted(env: Env, st: State)
    ensures DecodeAll(env, st, true, [0x82] + [0x20]).error == Some(InvalidMaxDynamicSize)
    ensures PiecesAccepted(env, st, true, [0x82], [0x20])
  {
    hide GetStatic, ParseOne;
    DecodeMethod(env, st, true, [0x20]);
    DecodeMethod(env, st, true, []);
    assert [0x82] + [] == [0x82] && [] + [0x20] == [0x20];
    DecodeUpdate(env, st);
  }

  /** A literal with an empty name asks for more when its octets are gone: refused whole, skipped in two. */
  lemma EmptyNameSkipped(env: Env, st: State)
    ensures DecodeAll(env, st, true, [0, 0, 0] + [0x82]).error.Some?
    ensures PiecesAccepted(env, st, true, [0, 0, 0], [0x82])
    ensures DecodeAll(env, st, true, [0, 0, 0]).emitted == []
  {
    hide GetStatic, ParseOne, Dropped;
    EmptyTwice(env, st, []);
    EmptyTwice(env, st, [0x82]);
    assert [0, 0, 0] + [] == [0, 0, 0] && [0, 0, 0][3..] == [] && [] + [0x82] == [0x82] && [0x82] + [] == [0x82];
    DecodeMethod(env, st, true, []);
  }

  lemma EmptyTwice(env: Env, st: State, rest: Bytes)
    ensures var buf := [0, 0, 0] + rest;
            && ParseOne(env, st, true, buf) == Failed(More(UnexpectedEndOfStream))
            && Dropped(env, st.entries, buf) == 3
  {
    var buf := [0, 0, 0] + rest;
    assert ParseInt(buf, 4) == Parsed(0, 1);
    assert ParseInt(buf[1..], 7) == Parsed(0, 1) && ParseInt(buf[2..], 7) == Parsed(0, 1);
    assert buf[1..][1..1] == [] && buf[2..][1..1] == [];
    assert ParseString(env.huffman, buf[1..]) == Parsed([], 1) && ParseString(env.huffman, buf[2..]) == Parsed([], 1);
  }
}
